/**
 * The reference passes of `FileLinkingManager` that work file by file
 * (email attachments, embedded images, document cross-references,
 * spreadsheet sources, hidden passwords, backups and data sources), as
 * functions from the tape of draws to the references each pass appends and
 * the tape it leaves. Each function consumes draws in the order the
 * corresponding loop calls `random`.
 */
module Passes {
  import opened Common
  import opened Oracle
  import opened Refs

  // ---------------------------------------------------------------------
  // The context strings

  function AttachmentContext(k: nat, a: Plan): string
  {
    var f := a.filename;
    if k == 0 then "Please see the attached " + Upper(a.fileType) + " file: " + f
    else if k == 1 then "Attachment: " + f + " contains the requested data"
    else if k == 2 then "See attached document " + f + " for details"
    else if k == 3 then "Please review the enclosed file: " + f
    else if k == 4 then "The file " + f + " is attached for your reference"
    else if k == 5 then "Attached: " + f + " (contains confidential information)"
    else if k == 6 then "Please find " + f + " attached to this email"
    else "Document attached: " + f + " - requires immediate attention"
  }

  function EmbedContext(k: nat, image: Plan): string
  {
    "Document contains embedded image: " + image.filename
  }

  function DocumentContext(k: nat, d: Plan): string
  {
    var f := d.filename;
    if k == 0 then "See related document: " + f
    else if k == 1 then "Additional information in: " + f
    else if k == 2 then "Cross-reference: " + f
    else if k == 3 then "Supporting documentation: " + f
    else if k == 4 then "Referenced in document: " + f
    else "See also: " + f + " for complete details"
  }

  function SheetContext(k: nat, d: Plan): string
  {
    var f := d.filename;
    if k == 0 then "Data source: " + f
    else if k == 1 then "Supporting file: " + f
    else if k == 2 then "Referenced document: " + f
    else if k == 3 then "Source material: " + f
    else if k == 4 then "Analysis based on: " + f
    else "Data extracted from: " + f
  }

  /** A string that ends with the name mentions it. */
  lemma EndsWithName(s: string, f: string)
    requires EndsWith(s, f)
    ensures Contains(s, f)
  {
    assert s == s[..|s| - |f|] + f + [];
    ContainsMiddle(s[..|s| - |f|], f, []);
  }

  /** Every attachment context names the attached file. */
  lemma AttachmentContextNames(k: nat, p: Plan)
    ensures Contains(AttachmentContext(k, p), p.filename)
  {
    var f := p.filename;
    if k == 0 || k == 3 { EndsWithName(AttachmentContext(k, p), f); }
    else if k == 1 { ContainsMiddle("Attachment: ", f, " contains the requested data"); }
    else if k == 2 { ContainsMiddle("See attached document ", f, " for details"); }
    else if k == 4 { ContainsMiddle("The file ", f, " is attached for your reference"); }
    else if k == 5 { ContainsMiddle("Attached: ", f, " (contains confidential information)"); }
    else if k == 6 { ContainsMiddle("Please find ", f, " attached to this email"); }
    else { ContainsMiddle("Document attached: ", f, " - requires immediate attention"); }
  }

  /** Every document-reference context names the referenced document. */
  lemma DocumentContextNames(k: nat, p: Plan)
    ensures Contains(DocumentContext(k, p), p.filename)
  {
    if k < 5 { EndsWithName(DocumentContext(k, p), p.filename); }
    else { ContainsMiddle("See also: ", p.filename, " for complete details"); }
  }

  /** Every spreadsheet context names the source file. */
  lemma SheetContextNames(k: nat, p: Plan)
    ensures Contains(SheetContext(k, p), p.filename)
  {
    EndsWithName(SheetContext(k, p), p.filename);
  }

  // ---------------------------------------------------------------------
  // _create_email_attachments

  /** The reverse edge an attachment may get. */
  function EmailSource(email: Plan, att: Plan): FileReference
  {
    FileReference(att.filename, email.filename, "email_source",
                  "This file was sent via email: " + email.filename)
  }

  /** One attachment: a context choice, then a 30% chance of the reverse edge. */
  function AttachStep(t: Tape, email: Plan, att: Plan): (r: (seq<FileReference>, Tape))
  {
    var (k, t1) := DrawBelow(t, 8);
    var fwd := FileReference(email.filename, att.filename, "attachment", AttachmentContext(k, att));
    var (back, t2) := DrawChance(t1, 30);
    (if back then [fwd, EmailSource(email, att)] else [fwd], t2)
  }

  function AttachEdges(t: Tape, email: Plan, atts: seq<Plan>): (r: (seq<FileReference>, Tape))
  {
    if atts == [] then ([], t)
    else
      var (e, t1) := AttachEdges(t, email, atts[..|atts| - 1]);
      var (e2, t2) := AttachStep(t1, email, atts[|atts| - 1]);
      (e + e2, t2)
  }

  /** One email: 1 to min(6, n) sampled attachments, when there is anything to attach. */
  function EmailStep(t: Tape, email: Plan, others: seq<Plan>): (r: (seq<FileReference>, Tape))
  {
    if |others| > 0 then
      var (atts, t1) := DrawTargets(t, 1, 6, others);
      AttachEdges(t1, email, atts)
    else ([], t)
  }

  /** The email pass; with nothing to attach it draws nothing and links nothing. */
  function EmailEdges(t: Tape, emails: seq<Plan>, others: seq<Plan>): (r: (seq<FileReference>, Tape))
    ensures others == [] ==> r == ([], t)
  {
    if emails == [] then ([], t)
    else
      var (e, t1) := EmailEdges(t, emails[..|emails| - 1], others);
      var (e2, t2) := EmailStep(t1, emails[|emails| - 1], others);
      assert others == [] ==> e2 == [] && e + e2 == e;
      (e + e2, t2)
  }

  /** The attachment edges of an email list its attachments, in order. */
  lemma {:induction false} AttachTargets(t: Tape, email: Plan, atts: seq<Plan>)
    ensures TargetsOfType(AttachEdges(t, email, atts).0, "attachment") == Names(atts)
    decreases |atts|
  {
    if atts != [] {
      var n := |atts|;
      AttachTargets(t, email, atts[..n - 1]);
      var (e, t1) := AttachEdges(t, email, atts[..n - 1]);
      var (e2, t2) := AttachStep(t1, email, atts[n - 1]);
      assert AttachEdges(t, email, atts).0 == e + e2;
      hide AttachEdges, AttachStep, TargetsOfType, Names;
      TargetsOfTypeAppend(e, e2, "attachment");
      AttachStepTarget(t1, email, atts[n - 1]);
      NamesSnoc(atts);
    }
  }

  /** One attachment contributes exactly one attachment edge, to that attachment. */
  lemma AttachStepTarget(t: Tape, email: Plan, att: Plan)
    ensures TargetsOfType(AttachStep(t, email, att).0, "attachment") == [att.filename]
  {
    var e2 := AttachStep(t, email, att).0;
    if |e2| == 2 {
      assert e2[..1] == [e2[0]];
    }
  }

  /** What `AttachEdges` says about the edge at `i`: a forward edge, or the mirror of the edge before it. */
  ghost predicate AttachOrMirror(e: seq<FileReference>, email: Plan, i: int)
    requires 0 <= i < |e|
  {
    (e[i].refType == "attachment" && e[i].source == email.filename)
    || (e[i].refType == "email_source" && i > 0 && e[i - 1].refType == "attachment"
        && e[i].source == e[i - 1].target && e[i].target == e[i - 1].source
        && e[i].context == "This file was sent via email: " + email.filename)
  }

  /**
   * Every edge of an email is an attachment edge from the email, or a
   * reverse edge that directly follows the attachment edge it mirrors, with
   * source and target swapped.
   */
  lemma {:induction false} AttachMirrors(t: Tape, email: Plan, atts: seq<Plan>)
    ensures var e := AttachEdges(t, email, atts).0;
      forall i :: 0 <= i < |e| ==> AttachOrMirror(e, email, i)
    decreases |atts|
  {
    if atts != [] {
      var n := |atts|;
      AttachMirrors(t, email, atts[..n - 1]);
      assert var e0 := AttachEdges(t, email, atts[..n - 1]).0;
        forall i :: 0 <= i < |e0| ==> AttachOrMirror(e0, email, i);
      var prev := AttachEdges(t, email, atts[..n - 1]);
      var e, e2 := prev.0, AttachStep(prev.1, email, atts[n - 1]).0;
      var all := AttachEdges(t, email, atts).0;
      assert all == e + e2;
      forall i | 0 <= i < |all| ensures AttachOrMirror(all, email, i) {
        if i < |e| {
          assert AttachOrMirror(e, email, i);
          assert all[i] == e[i];
          if i > 0 { assert all[i - 1] == e[i - 1]; }
        } else if i == |e| {
          assert all[i] == e2[0];
        } else {
          assert all[i] == e2[1] && all[i - 1] == e2[0];
        }
      }
    }
  }

  /**
   * One email, when there is anything to attach, gets between 1 and
   * min(6, n) attachment edges to files of the pool, no file twice when the
   * pool's names are distinct; with nothing to attach it draws nothing.
   */
  lemma EmailFanOut(t: Tape, email: Plan, others: seq<Plan>)
    ensures var (e, t') := EmailStep(t, email, others);
      var targets := TargetsOfType(e, "attachment");
      (others == [] ==> e == [] && t' == t)
      && (others != [] ==> 1 <= |targets| <= Min(6, |others|))
      && (forall x :: x in targets ==> x in Names(others))
      && (Distinct(Names(others)) ==> Distinct(targets))
  {
    if others != [] {
      var (atts, t1) := DrawTargets(t, 1, 6, others);
      AttachTargets(t1, email, atts);
      forall x | x in Names(atts) ensures x in Names(others) {
        var i :| 0 <= i < |atts| && Names(atts)[i] == x;
        assert atts[i] in others;
        var j :| 0 <= j < |others| && others[j] == atts[i];
        assert Names(others)[j] == x;
      }
    }
  }

  // ---------------------------------------------------------------------
  // _create_document_image_embeddings

  /** One document: a 60% chance (drawn even when there are no images), then 1 to min(3, n) images. */
  function EmbedStep(t: Tape, doc: Plan, images: seq<Plan>): (r: (seq<FileReference>, Tape))
  {
    var (embed, t1) := DrawChance(t, 60);
    if embed && |images| > 0 then
      var (chosen, t2) := DrawTargets(t1, 1, 3, images);
      Labelled(t2, doc.filename, chosen, "embedded_image", 0, EmbedContext)
    else ([], t1)
  }

  function EmbedEdges(t: Tape, docs: seq<Plan>, images: seq<Plan>): (r: (seq<FileReference>, Tape))
  {
    if docs == [] then ([], t)
    else
      var (e, t1) := EmbedEdges(t, docs[..|docs| - 1], images);
      var (e2, t2) := EmbedStep(t1, docs[|docs| - 1], images);
      (e + e2, t2)
  }

  /** A document embeds at most three distinct images, each one of the pool, and always draws once first. */
  lemma EmbedFanOut(t: Tape, doc: Plan, images: seq<Plan>)
    ensures var (e, t') := EmbedStep(t, doc, images);
      |e| <= Min(3, |images|)
      && (images == [] ==> e == [] && t' == Rest(t))
      && (forall i :: 0 <= i < |e| ==>
            (e[i].source == doc.filename && e[i].refType == "embedded_image"
             && e[i].target in Names(images)
             && e[i].context == "Document contains embedded image: " + e[i].target))
      && (Distinct(Names(images)) ==> Distinct(TargetsOfType(e, "embedded_image")))
  {
    hide DrawTargets;
    var (embed, t1) := DrawChance(t, 60);
    if embed && |images| > 0 {
      var (chosen, t2) := DrawTargets(t1, 1, 3, images);
      LabelledTargets(t2, doc.filename, chosen, "embedded_image", 0, EmbedContext);
      EmbedLabelled(t2, doc, chosen, images);
    } else {
      assert EmbedStep(t, doc, images) == ([], t1);
    }
  }

  /** The edges to sampled images: each names one image of the pool, with the fixed context. */
  lemma EmbedLabelled(t: Tape, doc: Plan, chosen: seq<Plan>, images: seq<Plan>)
    requires forall x :: x in chosen ==> x in images
    ensures var e := Labelled(t, doc.filename, chosen, "embedded_image", 0, EmbedContext).0;
      forall i :: 0 <= i < |e| ==>
        e[i].target in Names(images) && e[i].context == "Document contains embedded image: " + e[i].target
  {
    var e := Labelled(t, doc.filename, chosen, "embedded_image", 0, EmbedContext).0;
    forall i | 0 <= i < |e|
      ensures e[i].target in Names(images)
      ensures e[i].context == "Document contains embedded image: " + e[i].target
    {
      LabelledContexts(t, doc.filename, chosen, "embedded_image", 0, EmbedContext, i);
      assert chosen[i] in images;
      var j :| 0 <= j < |images| && images[j] == chosen[i];
      assert Names(images)[j] == e[i].target;
    }
  }

  // ---------------------------------------------------------------------
  // _create_document_references

  /** One document: 1 to min(3, n) of the documents with another name. */
  function DocStep(t: Tape, doc: Plan, docs: seq<Plan>): (r: (seq<FileReference>, Tape))
  {
    var others := Others(docs, doc.filename);
    if |others| > 0 then
      var (chosen, t1) := DrawTargets(t, 1, 3, others);
      Labelled(t1, doc.filename, chosen, "document_reference", 6, DocumentContext)
    else ([], t)
  }

  /** The pass over `sources`, each compared against the whole document list. */
  function DocEdges(t: Tape, sources: seq<Plan>, docs: seq<Plan>): (r: (seq<FileReference>, Tape))
  {
    if sources == [] then ([], t)
    else
      var (e, t1) := DocEdges(t, sources[..|sources| - 1], docs);
      var (e2, t2) := DocStep(t1, sources[|sources| - 1], docs);
      (e + e2, t2)
  }

  /**
   * A document never references itself: its 1 to min(3, n) targets are
   * other documents of the list, distinct when the names are.
   */
  lemma DocFanOut(t: Tape, doc: Plan, docs: seq<Plan>)
    ensures var e := DocStep(t, doc, docs).0;
      var others := Others(docs, doc.filename);
      (others != [] ==> 1 <= |e| <= Min(3, |others|))
      && (forall i :: 0 <= i < |e| ==>
            (e[i].source == doc.filename && e[i].target != e[i].source
             && e[i].target in Names(docs) && e[i].refType == "document_reference"))
      && (Distinct(Names(others)) ==> Distinct(TargetsOfType(e, "document_reference")))
  {
    var others := Others(docs, doc.filename);
    if |others| > 0 {
      var (chosen, t1) := DrawTargets(t, 1, 3, others);
      LabelledTargets(t1, doc.filename, chosen, "document_reference", 6, DocumentContext);
      var e := Labelled(t1, doc.filename, chosen, "document_reference", 6, DocumentContext).0;
      forall i | 0 <= i < |e| ensures e[i].target != doc.filename && e[i].target in Names(docs) {
        assert chosen[i] in others;
        var j :| 0 <= j < |docs| && docs[j] == chosen[i];
        assert Names(docs)[j] == e[i].target;
      }
    }
  }

  /** Edges of the document pass that never point back at their source. */
  predicate NoSelfReference(e: seq<FileReference>)
  {
    forall i :: 0 <= i < |e| ==> e[i].source != e[i].target && e[i].refType == "document_reference"
  }

  lemma NoSelfReferenceAppend(a: seq<FileReference>, b: seq<FileReference>)
    requires NoSelfReference(a) && NoSelfReference(b)
    ensures NoSelfReference(a + b)
  {
    forall i | 0 <= i < |a + b|
      ensures (a + b)[i].source != (a + b)[i].target && (a + b)[i].refType == "document_reference"
    {
      if i >= |a| { assert (a + b)[i] == b[i - |a|]; }
    }
  }

  lemma DocStepNoSelf(t: Tape, doc: Plan, docs: seq<Plan>)
    ensures NoSelfReference(DocStep(t, doc, docs).0)
  {
    DocFanOut(t, doc, docs);
  }

  /** No edge of the whole pass is a self-reference. */
  lemma {:induction false} DocEdgesNoSelf(t: Tape, sources: seq<Plan>, docs: seq<Plan>)
    ensures NoSelfReference(DocEdges(t, sources, docs).0)
    decreases |sources|
  {
    if sources != [] {
      var n := |sources|;
      DocEdgesNoSelf(t, sources[..n - 1], docs);
      var prev := DocEdges(t, sources[..n - 1], docs);
      var e2 := DocStep(prev.1, sources[n - 1], docs).0;
      DocStepNoSelf(prev.1, sources[n - 1], docs);
      assert DocEdges(t, sources, docs).0 == prev.0 + e2;
      NoSelfReferenceAppend(prev.0, e2);
    }
  }

  // ---------------------------------------------------------------------
  // _create_spreadsheet_references

  /**
   * One spreadsheet: `randint(2, min(4, n))` targets, which is an empty
   * range, and so a ValueError before anything is drawn, when n == 1.
   */
  function SheetStep(t: Tape, sheet: Plan, others: seq<Plan>): (r: Result<(seq<FileReference>, Tape), NetworkError>)
  {
    if |others| == 0 then Ok(([], t))
    else if |others| == 1 then Err(EmptyRandintRange)
    else
      var (chosen, t1) := DrawTargets(t, 2, 4, others);
      Ok(Labelled(t1, sheet.filename, chosen, "data_source", 6, SheetContext))
  }

  /** The spreadsheet pass: only data_source edges, and nothing without other files. */
  function SheetEdges(t: Tape, sheets: seq<Plan>, others: seq<Plan>): (r: Result<(seq<FileReference>, Tape), NetworkError>)
    ensures others == [] ==> r == Ok(([], t))
    ensures r.Ok? ==> forall i :: 0 <= i < |r.value.0| ==>
      r.value.0[i].refType == "data_source" && r.value.0[i].source in Names(sheets)
  {
    if sheets == [] then Ok(([], t))
    else
      match SheetEdges(t, sheets[..|sheets| - 1], others)
      case Err(x) => Err(x)
      case Ok((e, t1)) =>
        match SheetStep(t1, sheets[|sheets| - 1], others)
        case Err(x) => Err(x)
        case Ok((e2, t2)) => Ok((e + e2, t2))
  }

  /** The pass fails exactly when there is a spreadsheet and exactly one other file. */
  lemma {:induction false} SheetEdgesFail(t: Tape, sheets: seq<Plan>, others: seq<Plan>)
    ensures SheetEdges(t, sheets, others).Err? <==> sheets != [] && |others| == 1
    ensures SheetEdges(t, sheets, others).Err? ==> SheetEdges(t, sheets, others).error == EmptyRandintRange
    decreases |sheets|
  {
    if sheets != [] {
      SheetEdgesFail(t, sheets[..|sheets| - 1], others);
    }
  }

  /** Otherwise each spreadsheet references 2 to min(4, n) distinct files of the pool. */
  lemma SheetFanOut(t: Tape, sheet: Plan, others: seq<Plan>)
    requires |others| >= 2
    ensures SheetStep(t, sheet, others).Ok?
    ensures var e := SheetStep(t, sheet, others).value.0;
      2 <= |e| <= Min(4, |others|)
      && (forall i :: 0 <= i < |e| ==> e[i].source == sheet.filename && e[i].refType == "data_source")
      && (Distinct(Names(others)) ==> Distinct(TargetsOfType(e, "data_source")))
  {
    var (chosen, t1) := DrawTargets(t, 2, 4, others);
    LabelledTargets(t1, sheet.filename, chosen, "data_source", 6, SheetContext);
  }

  // ---------------------------------------------------------------------
  // _create_password_references

  /** `[f for f in encoded_files if f.password and f.original_plan in files]`. */
  function ProtectedFiles(encoded: seq<EncodedFile>, files: seq<Plan>): (r: seq<EncodedFile>)
    ensures forall f :: f in r <==> f in encoded && f.password.Some? && f.password.value != [] && f.plan in files
  {
    if encoded == [] then []
    else
      var rest := ProtectedFiles(encoded[..|encoded| - 1], files);
      var last := encoded[|encoded| - 1];
      assert encoded == encoded[..|encoded| - 1] + [last];
      if last.password.Some? && last.password.value != [] && last.plan in files then rest + [last] else rest
  }

  /** The files a password may be hidden in: another name, and an eml, txt or docx type. */
  function Containers(files: seq<Plan>, name: string): (r: seq<Plan>)
    ensures forall p :: p in r <==> p in files && p.filename != name && p.fileType in ["eml", "txt", "docx"]
  {
    Others(Where(files, ["eml", "txt", "docx"]), name)
  }

  function PasswordContext(name: string, password: string): string
  {
    "Password for " + name + ": " + password
  }

  /** One protected file: a 70% chance, then one container if there is any. */
  function PasswordStep(t: Tape, protected: EncodedFile, files: seq<Plan>): (r: (seq<FileReference>, Tape))
    requires protected.password.Some?
  {
    var (stash, t1) := DrawChance(t, 70);
    var name := protected.plan.filename;
    var containers := Containers(files, name);
    if stash && |containers| > 0 then
      var (k, t2) := DrawBelow(t1, |containers|);
      ([FileReference(containers[k].filename, name, "password",
                      PasswordContext(name, protected.password.value))], t2)
    else ([], t1)
  }

  /** The password pass: at most one password edge per protected file. */
  function PasswordEdges(t: Tape, protected: seq<EncodedFile>, files: seq<Plan>): (r: (seq<FileReference>, Tape))
    requires forall i :: 0 <= i < |protected| ==> protected[i].password.Some?
    ensures |r.0| <= |protected|
    ensures forall i :: 0 <= i < |r.0| ==> r.0[i].refType == "password"
  {
    if protected == [] then ([], t)
    else
      var (e, t1) := PasswordEdges(t, protected[..|protected| - 1], files);
      var (e2, t2) := PasswordStep(t1, protected[|protected| - 1], files);
      (e + e2, t2)
  }

  /**
   * A password edge points at the protected file from a different eml, txt
   * or docx file of the list, and its context spells the password out.
   */
  lemma PasswordEdgeShape(t: Tape, protected: EncodedFile, files: seq<Plan>)
    requires protected.password.Some?
    ensures var e := PasswordStep(t, protected, files).0;
      |e| <= 1
      && forall i :: 0 <= i < |e| ==>
        e[i].target == protected.plan.filename && e[i].source != e[i].target
        && e[i].refType == "password"
        && (exists c :: c in files && c.filename == e[i].source && c.fileType in ["eml", "txt", "docx"])
        && Contains(e[i].context, protected.password.value)
  {
    var name := protected.plan.filename;
    var (stash, t1) := DrawChance(t, 70);
    var containers := Containers(files, name);
    if stash && |containers| > 0 {
      var (k, t2) := DrawBelow(t1, |containers|);
      assert containers[k] in containers;
      ContainsMiddle("Password for " + name + ": ", protected.password.value, []);
      assert PasswordContext(name, protected.password.value)
        == "Password for " + name + ": " + protected.password.value + [];
    }
  }

  // ---------------------------------------------------------------------
  // _create_backup_references and _create_data_references

  /** For each source, one `random.choice` of the pool, when the pool is non-empty. */
  function PickOne(t: Tape, sources: seq<Plan>, pool: seq<Plan>, refType: string, prefix: string): (r: (seq<FileReference>, Tape))
  {
    if sources == [] || pool == [] then ([], t)
    else
      var (e, t1) := PickOne(t, sources[..|sources| - 1], pool, refType, prefix);
      var (k, t2) := DrawBelow(t1, |pool|);
      (e + [FileReference(sources[|sources| - 1].filename, pool[k].filename, refType, prefix + pool[k].filename)], t2)
  }

  /** Exactly one edge per source when the pool is non-empty, none otherwise. */
  lemma {:induction false} PickOneShape(t: Tape, sources: seq<Plan>, pool: seq<Plan>, refType: string, prefix: string)
    ensures var e := PickOne(t, sources, pool, refType, prefix).0;
      |e| == (if pool == [] then 0 else |sources|)
      && forall i :: 0 <= i < |e| ==>
        e[i].source == sources[i].filename && e[i].target in Names(pool)
        && e[i].refType == refType && e[i].context == prefix + e[i].target
    decreases |sources|
  {
    if sources != [] && pool != [] {
      var n := |sources|;
      PickOneShape(t, sources[..n - 1], pool, refType, prefix);
      var (e, t1) := PickOne(t, sources[..n - 1], pool, refType, prefix);
      var (k, t2) := DrawBelow(t1, |pool|);
      assert Names(pool)[k] == pool[k].filename;
    }
  }

  /** `_create_backup_references`: the first third of the documents, each backed by a spreadsheet. */
  function BackupEdges(t: Tape, docs: seq<Plan>, sheets: seq<Plan>): (r: (seq<FileReference>, Tape))
  {
    PickOne(t, docs[..|docs| / 3], sheets, "backup", "Backup data stored in: ")
  }

  /** `_create_data_references`: the first half of the spreadsheets, each sourced from a document. */
  function DataEdges(t: Tape, sheets: seq<Plan>, docs: seq<Plan>): (r: (seq<FileReference>, Tape))
  {
    PickOne(t, sheets[..|sheets| / 2], docs, "data", "Data source: ")
  }

  /** The backup pass adds exactly len(documents) // 3 edges when there is a spreadsheet. */
  lemma BackupCount(t: Tape, docs: seq<Plan>, sheets: seq<Plan>)
    ensures |BackupEdges(t, docs, sheets).0| == if sheets == [] then 0 else |docs| / 3
  {
    PickOneShape(t, docs[..|docs| / 3], sheets, "backup", "Backup data stored in: ");
  }

  /** The data pass adds exactly len(spreadsheets) // 2 edges when there is a document. */
  lemma DataCount(t: Tape, sheets: seq<Plan>, docs: seq<Plan>)
    ensures |DataEdges(t, sheets, docs).0| == if docs == [] then 0 else |sheets| / 2
  {
    PickOneShape(t, sheets[..|sheets| / 2], docs, "data", "Data source: ");
  }
}

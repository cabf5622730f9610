/**
 * What the linking manager writes into the files once the references exist:
 * emails regenerated to list their attachments and the passwords hidden in
 * them, a reference block appended to text documents, comment lines put in
 * front of CSV data, and password hints scattered over text documents.
 *
 * Every Faker value an email uses arrives in `EmailFakes`; the draws of
 * Python's `random` come from the tape.
 */
module Rewrite {
  import opened Common
  import opened Oracle
  import opened Refs
  import Utf8
  import Templates

  // ---------------------------------------------------------------------
  // _generate_email_with_references

  /** `target_file.lower().endswith(...)` for the three kinds of attachment. */
  predicate IsImageName(name: string) { EndsWith(Lower(name), ".jpg") || EndsWith(Lower(name), ".png") }

  predicate IsDocumentName(name: string)
  {
    EndsWith(Lower(name), ".pdf") || EndsWith(Lower(name), ".docx") || EndsWith(Lower(name), ".txt")
  }

  predicate IsDataName(name: string) { EndsWith(Lower(name), ".xlsx") || EndsWith(Lower(name), ".csv") }

  datatype Listing = DocumentList | ImageList | DataList

  predicate Recognised(kind: Listing, name: string)
  {
    match kind
    case DocumentList => IsDocumentName(name)
    case ImageList => IsImageName(name)
    case DataList => IsDataName(name)
  }

  /** The attachments of one kind, in order. */
  function Listed(atts: seq<FileReference>, kind: Listing): seq<FileReference>
  {
    Filter(atts, (a: FileReference) => Recognised(kind, a.target))
  }

  /** How many descriptions `random.choice` picks from for a kind. */
  function Choices(kind: Listing): nat { if kind == DataList then 4 else 5 }

  /** The description lines, each naming the attachment before its note. */
  function Description(kind: Listing, k: nat, name: string): (r: string)
    ensures StartsWith(r, "    - " + name + " (")
  {
    var note :=
      match kind
      case DocumentList =>
        if k == 0 then "contains detailed analysis"
        else if k == 1 then "confidential - handle with care"
        else if k == 2 then "requires immediate review"
        else if k == 3 then "supporting documentation"
        else "latest version - please review"
      case ImageList =>
        if k == 0 then "charts and diagrams"
        else if k == 1 then "screenshot for reference"
        else if k == 2 then "visual documentation"
        else if k == 3 then "supporting graphics"
        else "embedded in related documents"
      case DataList =>
        if k == 0 then "raw data for analysis"
        else if k == 1 then "spreadsheet with calculations"
        else if k == 2 then "database export"
        else "financial data - confidential";
    var head := "    - " + name + " (";
    var r := head + note + ")";
    assert r[..|head|] == head;
    r
  }

  /** One described line per attachment, each description drawn with `random.choice`. */
  function Describe(t: Tape, atts: seq<FileReference>, kind: Listing): (r: (seq<string>, Tape))
    ensures |r.0| == |atts|
    ensures forall i :: 0 <= i < |atts| ==> StartsWith(r.0[i], "    - " + atts[i].target + " (")
  {
    if atts == [] then ([], t)
    else
      var n := |atts|;
      var (lines, t1) := Describe(t, atts[..n - 1], kind);
      var (k, t2) := DrawBelow(t1, Choices(kind));
      (lines + [Description(kind, k, atts[n - 1].target)], t2)
  }

  /** A titled group of lines, left out when it has none. */
  function Section(title: string, lines: seq<string>): (r: seq<string>)
    ensures forall x :: x in lines ==> x in r
  {
    if lines == [] then [] else [title] + lines
  }

  /** The "Attachments included:" block: documents, then images, then data files. */
  function AttachmentListing(t: Tape, atts: seq<FileReference>): (r: (seq<string>, Tape))
  {
    if atts == [] then ([], t)
    else
      var (docs, t1) := Describe(t, Listed(atts, DocumentList), DocumentList);
      var (images, t2) := Describe(t1, Listed(atts, ImageList), ImageList);
      var (data, t3) := Describe(t2, Listed(atts, DataList), DataList);
      (["Attachments included:"] + Section("  Documents:", docs) + Section("  Visual Materials:", images)
       + Section("  Data Files:", data) + [""], t3)
  }

  /** The opening sentence, chosen by which kinds of attachment there are. */
  function Opening(atts: seq<FileReference>, filler: string): string
  {
    var images := Listed(atts, ImageList) != [];
    var docs := Listed(atts, DocumentList) != [];
    if images && docs then "I've attached the requested documents along with supporting visual materials."
    else if images then "Please review the attached images and visual documentation."
    else if docs then "The attached documents contain the information we discussed."
    else filler
  }

  const OtherReferences: seq<string> := [
    "Additional related files may be found in the shared directory.",
    "See previous email thread for context on these attachments.",
    "Some images are embedded within the attached documents.",
    "Please ensure all files are reviewed together for complete understanding.",
    "Cross-reference these files with our project documentation."
  ]

  const Actions: seq<string> := [
    "Please confirm receipt and review by end of week.",
    "Your feedback on the attached materials is requested.",
    "These files require your approval before proceeding.",
    "Please coordinate with the team on the attached documentation."
  ]

  /** `if random.random() < p: parts += [random.choice(options), ""]`. */
  function Aside(t: Tape, percent: nat, options: seq<string>): (r: (seq<string>, Tape))
    requires |options| > 0
    ensures r.0 == [] || (|r.0| == 2 && r.0[0] in options && r.0[1] == "")
  {
    var (yes, t1) := DrawChance(t, percent);
    if yes then
      var (k, t2) := DrawBelow(t1, |options|);
      ([options[k], ""], t2)
    else ([], t1)
  }

  /** The "Security Notes:" block, one line per password reference. */
  function SecurityNotes(passwordRefs: seq<FileReference>): (r: seq<string>)
    ensures forall i :: 0 <= i < |passwordRefs| ==> "  - " + passwordRefs[i].context in r
  {
    if passwordRefs == [] then []
    else
      var lines := seq(|passwordRefs|, i requires 0 <= i < |passwordRefs| => "  - " + passwordRefs[i].context);
      var r := ["Security Notes:"] + lines + [""];
      assert forall i :: 0 <= i < |passwordRefs| ==> "  - " + passwordRefs[i].context in r by {
        forall i | 0 <= i < |passwordRefs| ensures "  - " + passwordRefs[i].context in r {
          assert r[i + 1] == lines[i];
        }
      }
      r
  }

  /** The Faker values one regenerated email uses. */
  datatype EmailFakes = EmailFakes(
    sender: string, recipient: string,
    subject: nat -> string,              // the candidate subject lines, by position
    date: string, firstName: string,
    filler: string,                      // `fake.text(max_nb_chars=200)`
    closingName: string, fromName: string, toName: string, uuid: string,
    signatureName: string, job: string, company: string, phone: string)

  /** The body parts, in the order the source appends them. */
  function BodyParts(t: Tape, f: EmailFakes, atts: seq<FileReference>, passwordRefs: seq<FileReference>): (r: (seq<string>, Tape))
  {
    var (listing, t1) := AttachmentListing(t, atts);
    var (other, t2) := Aside(t1, 60, OtherReferences);
    var (action, t3) := Aside(t2, 40, Actions);
    (["Dear " + f.firstName + ",", "", Opening(atts, f.filler), ""]
     + listing + SecurityNotes(passwordRefs) + other + action
     + ["Best regards,", f.closingName], t3)
  }

  /** The header lines of the message, before the blank line. */
  function HeaderLines(f: EmailFakes, subject: string, domain: string, count: nat): seq<string>
  {
    ["From: " + f.fromName + " <" + f.sender + ">",
     "To: " + f.toName + " <" + f.recipient + ">",
     "Subject: " + subject,
     "Date: " + f.date,
     "Message-ID: <" + f.uuid + "@" + domain + ">",
     "MIME-Version: 1.0",
     "Content-Type: " + ContentType(count) + "; charset=utf-8",
     "Content-Transfer-Encoding: 8bit",
     "X-Priority: Normal",
     "X-Attachments: " + NatToString(count) + " file(s)"]
  }

  function ContentType(count: nat): string
  {
    if count > 0 then "multipart/mixed" else "text/plain"
  }

  /**
   * `_generate_email_with_references`. The body parts are joined with the
   * two characters backslash and `n` (the source writes `"\\n".join`), so
   * the whole body is a single line. The Message-ID domain is
   * `sender.split('@')[1]`, an IndexError for a sender without '@'.
   */
  function GenerateEmail(t: Tape, f: EmailFakes, atts: seq<FileReference>,
                         passwordRefs: seq<FileReference>): (r: Result<(string, Tape), NetworkError>)
    ensures r.Err? <==> '@' !in f.sender
    ensures r.Err? ==> r.error == SenderWithoutDomain(f.sender)
  {
    var (s, t1) := DrawBelow(t, 8);
    var (parts, t2) := BodyParts(t1, f, atts, passwordRefs);
    var pieces := Split(f.sender, '@');
    if |pieces| < 2 then Err(SenderWithoutDomain(f.sender))
    else
      Ok((EmailText(HeaderLines(f, f.subject(s), pieces[1], |atts|), Join(parts, "\\n"), f), t2))
  }

  /** The headers, a blank line, the body, and the signature block. */
  function EmailText(headers: seq<string>, body: string, f: EmailFakes): string
  {
    Join(headers, "\n") + "\n\n" + body + Signature(f)
  }

  function Signature(f: EmailFakes): string
  {
    "\n\n--\n" + f.signatureName + "\n" + f.job + "\n" + f.company + "\n" + f.phone + "\n"
  }

  lemma EmailTextBody(headers: seq<string>, body: string, f: EmailFakes, p: string)
    requires Contains(body, p)
    ensures Contains(EmailText(headers, body, f), p)
  {
    ContainsExtend(Join(headers, "\n") + "\n\n", body, Signature(f), p);
  }

  lemma EmailTextHeader(headers: seq<string>, body: string, f: EmailFakes, line: string, p: string)
    requires line in headers && Contains(line, p)
    ensures Contains(EmailText(headers, body, f), p)
  {
    JoinContains(headers, "\n", line, p);
    ContainsExtend([], Join(headers, "\n"), "\n\n" + body + Signature(f), p);
    assert [] + Join(headers, "\n") + ("\n\n" + body + Signature(f)) == EmailText(headers, body, f);
  }

  /** Whatever one of the body parts contains, the email contains. */
  lemma BodyContains(t: Tape, f: EmailFakes, atts: seq<FileReference>, passwordRefs: seq<FileReference>,
                     part: string, p: string)
    requires '@' in f.sender
    requires part in BodyParts(DrawBelow(t, 8).1, f, atts, passwordRefs).0 && Contains(part, p)
    ensures Contains(GenerateEmail(t, f, atts, passwordRefs).value.0, p)
  {
    var s := DrawBelow(t, 8).0;
    var parts := BodyParts(DrawBelow(t, 8).1, f, atts, passwordRefs).0;
    var headers := HeaderLines(f, f.subject(s), Split(f.sender, '@')[1], |atts|);
    JoinContains(parts, "\\n", part, p);
    EmailTextBody(headers, Join(parts, "\\n"), f, p);
  }

  /** Whatever one of the header lines contains, the email contains. */
  lemma HeaderContains(t: Tape, f: EmailFakes, atts: seq<FileReference>, passwordRefs: seq<FileReference>,
                       line: string, p: string)
    requires '@' in f.sender
    requires line in HeaderLines(f, f.subject(DrawBelow(t, 8).0), Split(f.sender, '@')[1], |atts|)
    requires Contains(line, p)
    ensures Contains(GenerateEmail(t, f, atts, passwordRefs).value.0, p)
  {
    var s := DrawBelow(t, 8).0;
    var parts := BodyParts(DrawBelow(t, 8).1, f, atts, passwordRefs).0;
    var headers := HeaderLines(f, f.subject(s), Split(f.sender, '@')[1], |atts|);
    EmailTextHeader(headers, Join(parts, "\\n"), f, line, p);
  }

  /** X-Attachments gives the number of attachment references. */
  lemma EmailAttachmentCount(t: Tape, f: EmailFakes, atts: seq<FileReference>, passwordRefs: seq<FileReference>)
    requires '@' in f.sender
    ensures Contains(GenerateEmail(t, f, atts, passwordRefs).value.0, "X-Attachments: " + NatToString(|atts|) + " file(s)")
  {
    var lines := HeaderLines(f, f.subject(DrawBelow(t, 8).0), Split(f.sender, '@')[1], |atts|);
    assert lines[9] == "X-Attachments: " + NatToString(|atts|) + " file(s)";
    HeaderLineIn(t, f, atts, passwordRefs, 9);
  }

  /** The message is multipart exactly when it has attachments. */
  lemma EmailContentType(t: Tape, f: EmailFakes, atts: seq<FileReference>, passwordRefs: seq<FileReference>)
    requires '@' in f.sender
    ensures Contains(GenerateEmail(t, f, atts, passwordRefs).value.0,
                     "Content-Type: " + (if atts != [] then "multipart/mixed" else "text/plain") + "; charset=utf-8")
  {
    var lines := HeaderLines(f, f.subject(DrawBelow(t, 8).0), Split(f.sender, '@')[1], |atts|);
    assert lines[6] == "Content-Type: " + ContentType(|atts|) + "; charset=utf-8";
    HeaderLineIn(t, f, atts, passwordRefs, 6);
  }

  /** The Message-ID is the uuid at the sender's domain. */
  lemma EmailMessageId(t: Tape, f: EmailFakes, atts: seq<FileReference>, passwordRefs: seq<FileReference>)
    requires '@' in f.sender
    ensures Contains(GenerateEmail(t, f, atts, passwordRefs).value.0,
                     "Message-ID: <" + f.uuid + "@" + Split(f.sender, '@')[1] + ">")
  {
    var lines := HeaderLines(f, f.subject(DrawBelow(t, 8).0), Split(f.sender, '@')[1], |atts|);
    assert lines[4] == "Message-ID: <" + f.uuid + "@" + Split(f.sender, '@')[1] + ">";
    HeaderLineIn(t, f, atts, passwordRefs, 4);
  }

  lemma HeaderLineIn(t: Tape, f: EmailFakes, atts: seq<FileReference>, passwordRefs: seq<FileReference>, k: nat)
    requires '@' in f.sender && k < 10
    ensures Contains(GenerateEmail(t, f, atts, passwordRefs).value.0,
                     HeaderLines(f, f.subject(DrawBelow(t, 8).0), Split(f.sender, '@')[1], |atts|)[k])
  {
    var line := HeaderLines(f, f.subject(DrawBelow(t, 8).0), Split(f.sender, '@')[1], |atts|)[k];
    ContainsPrefix(line, line);
    HeaderContains(t, f, atts, passwordRefs, line, line);
  }

  /** Every attachment with a recognised suffix is listed by name. */
  lemma EmailListsAttachments(t: Tape, f: EmailFakes, atts: seq<FileReference>, passwordRefs: seq<FileReference>,
                              kind: Listing, i: nat)
    requires '@' in f.sender
    requires i < |atts| && Recognised(kind, atts[i].target)
    ensures Contains(GenerateEmail(t, f, atts, passwordRefs).value.0, "    - " + atts[i].target + " (")
  {
    var t1 := DrawBelow(t, 8).1;
    var a := atts[i];
    var listed := Listed(atts, kind);
    assert a in listed;
    var j :| 0 <= j < |listed| && listed[j] == a;
    var docs := Describe(t1, Listed(atts, DocumentList), DocumentList);
    var images := Describe(docs.1, Listed(atts, ImageList), ImageList);
    var data := Describe(images.1, Listed(atts, DataList), DataList);
    var lines := match kind case DocumentList => docs.0 case ImageList => images.0 case DataList => data.0;
    var title := match kind case DocumentList => "  Documents:" case ImageList => "  Visual Materials:"
      case DataList => "  Data Files:";
    var line := lines[j];
    assert line in Section(title, lines);
    var listing := AttachmentListing(t1, atts).0;
    assert listing == ["Attachments included:"] + Section("  Documents:", docs.0)
      + Section("  Visual Materials:", images.0) + Section("  Data Files:", data.0) + [""];
    assert line in listing;
    var parts := BodyParts(t1, f, atts, passwordRefs).0;
    assert line in parts;
    ContainsPrefix(line, "    - " + a.target + " (");
    BodyContains(t, f, atts, passwordRefs, line, "    - " + a.target + " (");
  }

  /** Every password reference from the email is spelled out under "Security Notes:". */
  lemma EmailListsPasswords(t: Tape, f: EmailFakes, atts: seq<FileReference>, passwordRefs: seq<FileReference>, i: nat)
    requires '@' in f.sender && i < |passwordRefs|
    ensures Contains(GenerateEmail(t, f, atts, passwordRefs).value.0, "  - " + passwordRefs[i].context)
  {
    hide GenerateEmail, AttachmentListing, Aside, Opening, HeaderLines, SecurityNotes, DrawBelow;
    var t1 := DrawBelow(t, 8).1;
    var line := "  - " + passwordRefs[i].context;
    var notes := SecurityNotes(passwordRefs);
    assert line in notes;
    var (listing, t2) := AttachmentListing(t1, atts);
    var (other, t3) := Aside(t2, 60, OtherReferences);
    var (action, t4) := Aside(t3, 40, Actions);
    var parts := ["Dear " + f.firstName + ",", "", Opening(atts, f.filler), ""]
      + listing + notes + other + action + ["Best regards,", f.closingName];
    assert BodyParts(t1, f, atts, passwordRefs).0 == parts;
    assert line in parts;
    ContainsPrefix(line, line);
    BodyContains(t, f, atts, passwordRefs, line, line);
  }

  // ---------------------------------------------------------------------
  // _update_email_content_with_references

  /**
   * One email with references of its own gets a fresh `EMLTemplate` (whose
   * construction draws the age band and the date inside it) and is rewritten
   * with its attachment and password references; any other file is kept.
   */
  function UpdatedEmail(t: Tape, f: EmailFakes, file: EncodedFile, edges: seq<FileReference>): (r: Result<(EncodedFile, Tape), NetworkError>)
    ensures r.Err? <==> file.plan.fileType == "eml" && From(edges, file.plan.filename) != [] && '@' !in f.sender
    ensures r.Ok? ==> (r.value.0.plan == file.plan && r.value.0.encoding == file.encoding
                       && r.value.0.password == file.password && r.value.0.key == file.key)
  {
    var refs := From(edges, file.plan.filename);
    if file.plan.fileType == "eml" && refs != [] then
      var t1 := Rest(Templates.DrawAge(t).1);
      match GenerateEmail(t1, f, OfType(refs, "attachment"), OfType(refs, "password"))
      case Err(e) => Err(e)
      case Ok(v) => Ok((file.(content := Utf8.Encode(v.0)), v.1))
    else Ok((file, t))
  }

  /** The loop over all files; the email at position `i` uses `fakes(i)`. */
  function UpdateEmails(t: Tape, fakes: nat -> EmailFakes, files: seq<EncodedFile>,
                        edges: seq<FileReference>): (r: Result<(seq<EncodedFile>, Tape), NetworkError>)
    ensures files == [] ==> r == Ok(([], t))
    ensures r.Ok? ==> (|r.value.0| == |files|
                       && forall i :: 0 <= i < |files| ==>
                            r.value.0[i].plan == files[i].plan && r.value.0[i].encoding == files[i].encoding)
  {
    if files == [] then Ok(([], t))
    else
      var n := |files|;
      match UpdateEmails(t, fakes, files[..n - 1], edges)
      case Err(e) => Err(e)
      case Ok(prev) =>
        match UpdatedEmail(prev.1, fakes(n - 1), files[n - 1], edges)
        case Err(e) => Err(e)
        case Ok(v) => Ok((prev.0 + [v.0], v.1))
  }

  /** One more file: the loop so far, then the file at position `i` with `fakes(i)`. */
  lemma UpdateEmailsSnoc(t: Tape, fakes: nat -> EmailFakes, files: seq<EncodedFile>, edges: seq<FileReference>, i: nat)
    requires i < |files| && UpdateEmails(t, fakes, files[..i], edges).Ok?
    ensures var prev := UpdateEmails(t, fakes, files[..i], edges).value;
      var u := UpdatedEmail(prev.1, fakes(i), files[i], edges);
      UpdateEmails(t, fakes, files[..i + 1], edges) == if u.Err? then Err(u.error) else Ok((prev.0 + [u.value.0], u.value.1))
  {
    assert files[..i + 1][..i] == files[..i];
  }

  /** A failure part-way through the loop is a failure of the whole loop. */
  lemma {:induction false} UpdateEmailsFailure(t: Tape, fakes: nat -> EmailFakes, files: seq<EncodedFile>,
                                               edges: seq<FileReference>, k: nat)
    requires k <= |files| && UpdateEmails(t, fakes, files[..k], edges).Err?
    ensures UpdateEmails(t, fakes, files, edges).Err?
    decreases |files| - k
  {
    if k < |files| {
      assert files[..k + 1][..k] == files[..k];
      UpdateEmailsFailure(t, fakes, files, edges, k + 1);
    } else {
      assert files[..k] == files;
    }
  }

  /** A rewritten email lists each password reference from it, and decodes to the generated text. */
  lemma UpdatedEmailMentions(t: Tape, f: EmailFakes, file: EncodedFile, edges: seq<FileReference>, e: FileReference)
    requires file.plan.fileType == "eml" && '@' in f.sender
    requires e in edges && e.source == file.plan.filename && e.refType == "password"
    ensures Contains(Utf8.DecodeIgnore(UpdatedEmail(t, f, file, edges).value.0.content), "  - " + e.context)
  {
    var refs := From(edges, file.plan.filename);
    assert e in refs;
    var pw := OfType(refs, "password");
    assert e in pw;
    var i :| 0 <= i < |pw| && pw[i] == e;
    var t1 := Rest(Templates.DrawAge(t).1);
    var atts := OfType(refs, "attachment");
    EmailListsPasswords(t1, f, atts, pw, i);
    Utf8.DecodeEncode(GenerateEmail(t1, f, atts, pw).value.0);
  }

  // ---------------------------------------------------------------------
  // _update_document_content_with_references

  /** `"- {context}\n"` for each reference, concatenated. */
  function ContextLines(refs: seq<FileReference>): (r: string)
  {
    if refs == [] then [] else ContextLines(refs[..|refs| - 1]) + "- " + refs[|refs| - 1].context + "\n"
  }

  function ReferenceBlock(refs: seq<FileReference>): string
  {
    "\n\nREFERENCED FILES:\n" + ContextLines(refs)
  }

  /**
   * A txt file with references of its own gets the block appended to its
   * bytes decoded with errors ignored; a docx file, like every other file,
   * is left as it is.
   */
  function UpdatedDocument(file: EncodedFile, edges: seq<FileReference>): (r: EncodedFile)
    ensures r.plan == file.plan && r.encoding == file.encoding && r.password == file.password
    ensures file.plan.fileType != "txt" || From(edges, file.plan.filename) == [] ==> r == file
  {
    var refs := From(edges, file.plan.filename);
    if file.plan.fileType in ["txt", "docx"] && refs != [] && file.plan.fileType == "txt" then
      file.(content := Utf8.Encode(Utf8.DecodeIgnore(file.content) + ReferenceBlock(refs)))
    else file
  }

  function UpdateDocuments(files: seq<EncodedFile>, edges: seq<FileReference>): (r: seq<EncodedFile>)
    ensures |r| == |files|
    ensures forall i :: 0 <= i < |files| ==> r[i].plan == files[i].plan && r[i].encoding == files[i].encoding
  {
    seq(|files|, i requires 0 <= i < |files| => UpdatedDocument(files[i], edges))
  }

  /** Every reference's context appears in the block, in its own line item. */
  lemma {:induction false} ContextLinesContain(refs: seq<FileReference>, i: nat)
    requires i < |refs|
    ensures Contains(ContextLines(refs), "- " + refs[i].context + "\n")
    decreases |refs|
  {
    var n := |refs|;
    var item := "- " + refs[n - 1].context + "\n";
    if i == n - 1 {
      ContainsMiddle(ContextLines(refs[..n - 1]), item, []);
      assert ContextLines(refs[..n - 1]) + item + [] == ContextLines(refs);
    } else {
      ContextLinesContain(refs[..n - 1], i);
      ContainsExtend([], ContextLines(refs[..n - 1]), item, "- " + refs[i].context + "\n");
      assert [] + ContextLines(refs[..n - 1]) + item == ContextLines(refs);
    }
  }

  /**
   * A txt file that holds UTF-8 text keeps that text and gains the block, in
   * which every reference from it is listed.
   */
  lemma DocumentGainsBlock(file: EncodedFile, edges: seq<FileReference>, s: string, e: FileReference)
    requires file.plan.fileType == "txt" && file.content == Utf8.Encode(s)
    requires e in edges && e.source == file.plan.filename
    ensures UpdatedDocument(file, edges).content == Utf8.Encode(s + ReferenceBlock(From(edges, file.plan.filename)))
    ensures Contains(Utf8.DecodeIgnore(UpdatedDocument(file, edges).content), "- " + e.context + "\n")
  {
    var refs := From(edges, file.plan.filename);
    assert e in refs;
    BlockContains(s, refs, e);
    Utf8.DecodeEncode(s);
    Utf8.DecodeEncode(s + ReferenceBlock(refs));
  }

  /** Text followed by the block holds the line item of each of the block's references. */
  lemma BlockContains(s: string, refs: seq<FileReference>, e: FileReference)
    requires e in refs
    ensures Contains(s + ReferenceBlock(refs), "- " + e.context + "\n")
  {
    var i :| 0 <= i < |refs| && refs[i] == e;
    ContextLinesContain(refs, i);
    ContainsExtend(s + "\n\nREFERENCED FILES:\n", ContextLines(refs), [], "- " + e.context + "\n");
    assert s + "\n\nREFERENCED FILES:\n" + ContextLines(refs) + [] == s + ReferenceBlock(refs);
  }

  /**
   * The `except: pass` meant for encoded content never fires: the decode
   * ignores errors, so a byte that starts no UTF-8 sequence (as the salt and
   * ciphertext of an encrypted file may hold) is silently lost.
   */
  lemma DocumentDropsInvalidByte(file: EncodedFile, edges: seq<FileReference>, b: byte, rest: seq<byte>)
    requires file.plan.fileType == "txt" && From(edges, file.plan.filename) != []
    requires file.content == [b] + rest && Utf8.NeverLead(b)
    ensures UpdatedDocument(file, edges).content == UpdatedDocument(file.(content := rest), edges).content
  {
    Utf8.DecodeDropsInvalid(b, rest);
  }

  // ---------------------------------------------------------------------
  // _update_spreadsheet_content_with_references

  /** The comment lines put before the data: a title, one line per reference, an empty line. */
  function CommentLines(refs: seq<FileReference>): (r: seq<string>)
    ensures |r| == |refs| + 2 && r[0] == "# REFERENCED FILES:" && r[|r| - 1] == ""
    ensures forall i :: 0 <= i < |refs| ==> r[i + 1] == "# " + refs[i].context
  {
    ["# REFERENCED FILES:"]
    + seq(|refs|, i requires 0 <= i < |refs| => "# " + refs[i].context)
    + [""]
  }

  /** A csv file with references of its own gets the comment lines in front of its decoded lines. */
  function UpdatedSheet(file: EncodedFile, edges: seq<FileReference>): (r: EncodedFile)
    ensures r.plan == file.plan && r.encoding == file.encoding && r.password == file.password
    ensures file.plan.fileType != "csv" || From(edges, file.plan.filename) == [] ==> r == file
  {
    var refs := From(edges, file.plan.filename);
    if file.plan.fileType == "csv" && refs != [] then
      var lines := Split(Utf8.DecodeIgnore(file.content), '\n');
      file.(content := Utf8.Encode(Join(CommentLines(refs) + lines, "\n")))
    else file
  }

  function UpdateSheets(files: seq<EncodedFile>, edges: seq<FileReference>): (r: seq<EncodedFile>)
    ensures |r| == |files|
    ensures forall i :: 0 <= i < |files| ==> r[i].plan == files[i].plan && r[i].encoding == files[i].encoding
  {
    seq(|files|, i requires 0 <= i < |files| => UpdatedSheet(files[i], edges))
  }

  /** The CSV text is kept whole after the comment block. */
  lemma SheetGainsComments(file: EncodedFile, edges: seq<FileReference>, s: string)
    requires file.plan.fileType == "csv" && file.content == Utf8.Encode(s)
    requires From(edges, file.plan.filename) != []
    ensures var c := CommentLines(From(edges, file.plan.filename));
      UpdatedSheet(file, edges).content == Utf8.Encode(Join(c, "\n") + "\n" + s)
  {
    var c := CommentLines(From(edges, file.plan.filename));
    Utf8.DecodeEncode(s);
    JoinAppend(c, Split(s, '\n'), "\n");
    JoinSplit(s, '\n');
  }

  /**
   * Read back line by line, the rewritten file is the comment lines followed
   * by the original lines, as long as no context holds a newline.
   */
  lemma SheetLinesKept(file: EncodedFile, edges: seq<FileReference>, s: string)
    requires file.plan.fileType == "csv" && file.content == Utf8.Encode(s)
    requires From(edges, file.plan.filename) != []
    requires forall e :: e in edges ==> '\n' !in e.context
    ensures var c := CommentLines(From(edges, file.plan.filename));
      Split(Utf8.DecodeIgnore(UpdatedSheet(file, edges).content), '\n') == c + Split(s, '\n')
  {
    var refs := From(edges, file.plan.filename);
    var all := CommentLines(refs) + Split(s, '\n');
    Utf8.DecodeEncode(s);
    LinesWithoutNewline(refs, s);
    hide CommentLines, Split, Join, Utf8.Encode, Utf8.DecodeIgnore;
    SplitJoin(all, '\n');
    Utf8.DecodeEncode(Join(all, "\n"));
  }

  /** No line of the rewritten file holds a newline when no context does. */
  lemma LinesWithoutNewline(refs: seq<FileReference>, s: string)
    requires forall i :: 0 <= i < |refs| ==> '\n' !in refs[i].context
    ensures forall k :: 0 <= k < |CommentLines(refs) + Split(s, '\n')| ==> '\n' !in (CommentLines(refs) + Split(s, '\n'))[k]
  {
    var c := CommentLines(refs);
    var all := c + Split(s, '\n');
    forall k | 0 <= k < |all| ensures '\n' !in all[k] {
      if k < |c| {
        if 0 < k < |c| - 1 {
          assert all[k] == "# " + refs[k - 1].context;
        }
      } else {
        assert all[k] == Split(s, '\n')[k - |c|];
      }
    }
  }

  // ---------------------------------------------------------------------
  // _distribute_password_hints

  /** The five hint formats; whichever is drawn, it spells out the password. */
  function HintText(k: nat, name: string, password: string): (r: string)
    ensures Contains(r, password)
  {
    if k == 0 then
      ContainsMiddle("Note: Archive password for " + name + ": ", password, []);
      assert "Note: Archive password for " + name + ": " + password + [] == "Note: Archive password for " + name + ": " + password;
      "Note: Archive password for " + name + ": " + password
    else if k == 1 then
      ContainsMiddle("Backup access code: ", password, " (for " + name + ")");
      assert "Backup access code: " + password + (" (for " + name + ")") == "Backup access code: " + password + " (for " + name + ")";
      "Backup access code: " + password + " (for " + name + ")"
    else if k == 2 then
      ContainsMiddle("Decryption key: ", password, []);
      assert "Decryption key: " + password + [] == "Decryption key: " + password;
      "Decryption key: " + password
    else if k == 3 then
      ContainsMiddle("Access credentials - File: " + name + ", Pass: ", password, []);
      assert "Access credentials - File: " + name + ", Pass: " + password + [] == "Access credentials - File: " + name + ", Pass: " + password;
      "Access credentials - File: " + name + ", Pass: " + password
    else
      ContainsMiddle("Security memo: " + name + " requires password '", password, "'");
      "Security memo: " + name + " requires password '" + password + "'"
  }

  /** The positions of the txt and docx files, in order. */
  function TextPositions(files: seq<EncodedFile>): (r: seq<nat>)
    ensures forall i :: 0 <= i < |r| ==> r[i] < |files| && files[r[i]].plan.fileType in ["txt", "docx"]
    ensures forall i, j :: 0 <= i < j < |r| ==> r[i] < r[j]
    ensures forall k :: 0 <= k < |files| && files[k].plan.fileType in ["txt", "docx"] ==> k in r
  {
    if files == [] then []
    else
      var n := |files|;
      var rest := TextPositions(files[..n - 1]);
      if files[n - 1].plan.fileType in ["txt", "docx"] then rest + [n - 1] else rest
  }

  /**
   * A hint appended to a txt file after the two characters backslash and `n`
   * twice, and followed by one more such pair (the source writes `"\\n"`);
   * a docx file is left as it is.
   */
  function WithHint(file: EncodedFile, hint: string): (r: EncodedFile)
    ensures r.plan == file.plan && r.encoding == file.encoding && r.password == file.password
    ensures file.plan.fileType != "txt" ==> r == file
  {
    if file.plan.fileType == "txt" then
      file.(content := Utf8.Encode(Utf8.DecodeIgnore(file.content) + "\\n\\n" + hint + "\\n"))
    else file
  }

  /** The first `n` shuffled passwords, the `i`-th hinted in the `i`-th text file. */
  function PlaceHints(t: Tape, files: seq<EncodedFile>, positions: seq<nat>,
                      pairs: seq<(string, string)>, n: nat): (r: (seq<EncodedFile>, Tape))
    requires n <= |pairs| && n <= |positions|
    requires forall i :: 0 <= i < |positions| ==> positions[i] < |files|
    ensures |r.0| == |files|
    ensures forall j :: 0 <= j < |files| ==> r.0[j].plan == files[j].plan && r.0[j].encoding == files[j].encoding
  {
    if n == 0 then (files, t)
    else
      var (fs, t1) := PlaceHints(t, files, positions, pairs, n - 1);
      var (k, t2) := DrawBelow(t1, 5);
      var p := positions[n - 1];
      (fs[p := WithHint(fs[p], HintText(k, pairs[n - 1].0, pairs[n - 1].1))], t2)
  }

  /** No hints placed: the files and the tape as they were. */
  lemma PlaceHintsNone(t: Tape, files: seq<EncodedFile>, positions: seq<nat>, pairs: seq<(string, string)>)
    requires forall i :: 0 <= i < |positions| ==> positions[i] < |files|
    ensures PlaceHints(t, files, positions, pairs, 0) == (files, t)
  {
  }

  /** One more hint: the `n`-th target gets the `n`-th password in the format drawn next. */
  lemma PlaceHintsStep(t: Tape, files: seq<EncodedFile>, positions: seq<nat>,
                       pairs: seq<(string, string)>, n: nat)
    requires n < |pairs| && n < |positions|
    requires forall i :: 0 <= i < |positions| ==> positions[i] < |files|
    ensures var (fs, t1) := PlaceHints(t, files, positions, pairs, n);
      var (k, t2) := DrawBelow(t1, 5);
      var p := positions[n];
      PlaceHints(t, files, positions, pairs, n + 1) == (fs[p := WithHint(fs[p], HintText(k, pairs[n].0, pairs[n].1))], t2)
  {
  }

  /** How many hints are placed: `all_passwords[:len(text_files)//2]`. */
  function HintCount(passwords: Dict<string, string>, files: seq<EncodedFile>): nat
  {
    Min(|passwords|, |TextPositions(files)| / 2)
  }

  /** `_distribute_password_hints`: shuffle the (file, password) pairs, then hint the first ones. */
  function DistributeHints(t: Tape, files: seq<EncodedFile>, passwords: Dict<string, string>): (r: (seq<EncodedFile>, Tape))
    ensures |r.0| == |files|
    ensures forall j :: 0 <= j < |files| ==> r.0[j].plan == files[j].plan && r.0[j].encoding == files[j].encoding
  {
    var (pairs, t1) := DrawShuffle(t, passwords);
    var positions := TextPositions(files);
    PlaceHints(t1, files, positions, pairs, Min(|pairs|, |positions| / 2))
  }

  /** The shuffle comes first, then the hints, one per pair up to half the text files. */
  lemma DistributeHintsUnfold(t: Tape, files: seq<EncodedFile>, passwords: Dict<string, string>)
    ensures var (pairs, t1) := DrawShuffle(t, passwords);
      var positions := TextPositions(files);
      Min(|pairs|, |positions| / 2) <= |pairs| && Min(|pairs|, |positions| / 2) <= |positions|
      && DistributeHints(t, files, passwords) == PlaceHints(t1, files, positions, pairs, Min(|pairs|, |positions| / 2))
  {
  }

  /**
   * A file that is not among the first `n` targets is left as it was, and so
   * is a target that is not a txt file (the docx branch does nothing).
   */
  lemma {:induction false} HintUntouched(t: Tape, files: seq<EncodedFile>, positions: seq<nat>,
                                         pairs: seq<(string, string)>, n: nat, j: nat)
    requires n <= |pairs| && n <= |positions|
    requires forall i :: 0 <= i < |positions| ==> positions[i] < |files|
    requires j < |files| && (j !in positions[..n] || files[j].plan.fileType != "txt")
    ensures PlaceHints(t, files, positions, pairs, n).0[j] == files[j]
    decreases n
  {
    if n > 0 {
      assert positions[..n][n - 1] == positions[n - 1];
      assert positions[..n - 1] == positions[..n][..n - 1];
      HintUntouched(t, files, positions, pairs, n - 1, j);
    }
  }

  /** A txt file read back after its hint holds whatever the hint holds. */
  lemma WithHintHolds(file: EncodedFile, hint: string, p: string)
    requires file.plan.fileType == "txt" && Contains(hint, p)
    ensures Contains(Utf8.DecodeIgnore(WithHint(file, hint).content), p)
  {
    var before := Utf8.DecodeIgnore(file.content);
    ContainsExtend(before + "\\n\\n", hint, "\\n", p);
    Utf8.DecodeEncode(before + "\\n\\n" + hint + "\\n");
  }

  /** The `i`-th target, when it is a txt file, spells out the `i`-th password. */
  lemma {:induction false} HintHeld(t: Tape, files: seq<EncodedFile>, positions: seq<nat>,
                                    pairs: seq<(string, string)>, n: nat, i: nat)
    requires n <= |pairs| && n <= |positions|
    requires forall k :: 0 <= k < |positions| ==> positions[k] < |files|
    requires forall k, l :: 0 <= k < l < |positions| ==> positions[k] < positions[l]
    requires i < n && files[positions[i]].plan.fileType == "txt"
    ensures Contains(Utf8.DecodeIgnore(PlaceHints(t, files, positions, pairs, n).0[positions[i]].content), pairs[i].1)
    decreases n
  {
    hide WithHint, HintText, Utf8.DecodeIgnore, Utf8.Encode, DrawBelow;
    var prev := PlaceHints(t, files, positions, pairs, n - 1);
    var k := DrawBelow(prev.1, 5).0;
    var p := positions[n - 1];
    var hinted := WithHint(prev.0[p], HintText(k, pairs[n - 1].0, pairs[n - 1].1));
    assert PlaceHints(t, files, positions, pairs, n).0 == prev.0[p := hinted];
    if i == n - 1 {
      WithHintHolds(prev.0[p], HintText(k, pairs[i].0, pairs[i].1), pairs[i].1);
    } else {
      assert positions[i] < p;
      HintHeld(t, files, positions, pairs, n - 1, i);
    }
  }

  /**
   * The whole pass: the `i`-th password of the shuffled list (for `i` below
   * the hint count) is spelled out in the `i`-th text file when that is a
   * txt file, and no other file changes: neither a file outside the first
   * targets nor a docx target.
   */
  lemma DistributeHintsSound(t: Tape, files: seq<EncodedFile>, passwords: Dict<string, string>)
    ensures var (pairs, t1) := DrawShuffle(t, passwords);
      var positions := TextPositions(files);
      var fs := DistributeHints(t, files, passwords).0;
      (forall j :: 0 <= j < |files| && files[j].plan.fileType !in ["txt", "docx"] ==> fs[j] == files[j])
      && (forall j :: 0 <= j < |files| && (files[j].plan.fileType != "txt" || j !in positions[..Min(|pairs|, |positions| / 2)]) ==>
            fs[j] == files[j])
      && (forall i :: 0 <= i < Min(|pairs|, |positions| / 2) && files[positions[i]].plan.fileType == "txt" ==>
            Contains(Utf8.DecodeIgnore(fs[positions[i]].content), pairs[i].1))
  {
    var (pairs, t1) := DrawShuffle(t, passwords);
    var positions := TextPositions(files);
    var n := Min(|pairs|, |positions| / 2);
    forall j | 0 <= j < |files| && files[j].plan.fileType !in ["txt", "docx"]
      ensures DistributeHints(t, files, passwords).0[j] == files[j]
    {
      assert forall i :: 0 <= i < n ==> positions[..n][i] != j;
      HintUntouched(t1, files, positions, pairs, n, j);
    }
    forall j | 0 <= j < |files| && (files[j].plan.fileType != "txt" || j !in positions[..n])
      ensures DistributeHints(t, files, passwords).0[j] == files[j]
    {
      HintUntouched(t1, files, positions, pairs, n, j);
    }
    forall i | 0 <= i < n && files[positions[i]].plan.fileType == "txt"
      ensures Contains(Utf8.DecodeIgnore(DistributeHints(t, files, passwords).0[positions[i]].content), pairs[i].1)
    {
      HintHeld(t1, files, positions, pairs, n, i);
    }
  }
}

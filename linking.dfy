/**
 * `FileLinkingManager`: the object whose lists `create_file_network` fills
 * in place. Each method appends to or rewrites its fields and draws from the
 * shared `Random`, and is proved to leave exactly the state and the tape the
 * functions of modules `Passes`, `Groups`, `Rewrite` and `Network` compute.
 */
module Linking {
  import opened Common
  import opened Oracle
  import opened Encoding
  import opened Templates
  import opened Refs
  import opened Passes
  import opened Groups
  import opened Rewrite
  import opened Network

  /** `random.sample(pool, random.randint(lo, min(cap, len(pool))))`. */
  method PickTargets(rng: Random, lo: nat, cap: nat, pool: seq<Plan>) returns (chosen: seq<Plan>)
    requires 1 <= lo <= cap && lo <= |pool|
    modifies rng
    ensures (chosen, rng.tape) == DrawTargets(old(rng.tape), lo, cap, pool)
  {
    var k := rng.RandInt(lo, Min(cap, |pool|));
    var idx := rng.Sample(|pool|, k);
    assert forall i :: 0 <= i < |idx| ==> idx[i] in idx;
    chosen := Chosen(pool, idx);
  }

  class FileLinkingManager {
    var fileReferences: seq<FileReference>
    var passwords: Dict<string, string>
    var keys: Dict<string, string>
    var encodedFiles: seq<EncodedFile>

    /** The four lists as one value. */
    function State(): Manager
      reads this
    {
      Manager(fileReferences, passwords, keys, encodedFiles)
    }

    constructor ()
      ensures State() == Manager([], [], [], [])
    {
      fileReferences, passwords, keys, encodedFiles := [], [], [], [];
    }

    /** `get_file_references_for_file`: the references whose source is `filename`, in order. */
    function GetFileReferencesForFile(filename: string): (r: seq<FileReference>)
      reads this
      ensures forall e :: e in r <==> e in fileReferences && e.source == filename
    {
      From(fileReferences, filename)
    }

    /** One reference from `src` to each target, each labelled by a choice among `m` contexts. */
    method AddLabelled(rng: Random, src: string, targets: seq<Plan>, refType: string,
                       m: nat, ctx: (nat, Plan) -> string)
      modifies this, rng
      ensures fileReferences == old(fileReferences) + Labelled(old(rng.tape), src, targets, refType, m, ctx).0
      ensures rng.tape == Labelled(old(rng.tape), src, targets, refType, m, ctx).1
      ensures passwords == old(passwords) && keys == old(keys) && encodedFiles == old(encodedFiles)
    {
      ghost var t0, refs0 := rng.tape, fileReferences;
      var i := 0;
      while i < |targets|
        invariant 0 <= i <= |targets|
        invariant fileReferences == refs0 + Labelled(t0, src, targets[..i], refType, m, ctx).0 && rng.tape == Labelled(t0, src, targets[..i], refType, m, ctx).1
        invariant passwords == old(passwords) && keys == old(keys) && encodedFiles == old(encodedFiles)
      {
        ghost var prev := Labelled(t0, src, targets[..i], refType, m, ctx);
        var k := 0;
        if m != 0 {
          k := rng.RandBelow(m);
        }
        var e := FileReference(src, targets[i].filename, refType, ctx(k, targets[i]));
        fileReferences := fileReferences + [e];
        assert targets[..i + 1][..i] == targets[..i];
        assert Labelled(t0, src, targets[..i + 1], refType, m, ctx) == (prev.0 + [e], rng.tape);
        assert fileReferences == refs0 + (prev.0 + [e]);
        i := i + 1;
      }
      assert targets[..i] == targets;
    }

    // -------------------------------------------------------------------
    // _create_email_references

    /** One attachment: a context choice, then a 30% chance of the reverse edge. */
    method Attach(rng: Random, email: Plan, att: Plan)
      modifies this, rng
      ensures fileReferences == old(fileReferences) + AttachStep(old(rng.tape), email, att).0
      ensures rng.tape == AttachStep(old(rng.tape), email, att).1
      ensures passwords == old(passwords) && keys == old(keys) && encodedFiles == old(encodedFiles)
    {
      var k := rng.RandBelow(8);
      fileReferences := fileReferences + [FileReference(email.filename, att.filename, "attachment", AttachmentContext(k, att))];
      var back := rng.Chance(30);
      if back {
        fileReferences := fileReferences + [EmailSource(email, att)];
      }
    }

    /** The attachments of one email, in the order they were sampled. */
    method LinkEmail(rng: Random, email: Plan, others: seq<Plan>)
      modifies this, rng
      ensures fileReferences == old(fileReferences) + EmailStep(old(rng.tape), email, others).0
      ensures rng.tape == EmailStep(old(rng.tape), email, others).1
      ensures passwords == old(passwords) && keys == old(keys) && encodedFiles == old(encodedFiles)
    {
      hide AttachStep;
      hide DrawTargets;
      if |others| > 0 {
        var atts := PickTargets(rng, 1, 6, others);
        ghost var t1, refs1 := rng.tape, fileReferences;
        var i := 0;
        while i < |atts|
          invariant 0 <= i <= |atts|
          invariant fileReferences == refs1 + AttachEdges(t1, email, atts[..i]).0 && rng.tape == AttachEdges(t1, email, atts[..i]).1
          invariant passwords == old(passwords) && keys == old(keys) && encodedFiles == old(encodedFiles)
        {
          ghost var prev := AttachEdges(t1, email, atts[..i]);
          ghost var step := AttachStep(prev.1, email, atts[i]);
          Attach(rng, email, atts[i]);
          assert atts[..i + 1][..i] == atts[..i];
          assert AttachEdges(t1, email, atts[..i + 1]) == (prev.0 + step.0, step.1);
          assert fileReferences == refs1 + (prev.0 + step.0);
          i := i + 1;
        }
        assert atts[..i] == atts;
      }
    }

    method CreateEmailReferences(rng: Random, emails: seq<Plan>, others: seq<Plan>)
      modifies this, rng
      ensures fileReferences == old(fileReferences) + EmailEdges(old(rng.tape), emails, others).0
      ensures rng.tape == EmailEdges(old(rng.tape), emails, others).1
      ensures passwords == old(passwords) && keys == old(keys) && encodedFiles == old(encodedFiles)
    {
      hide EmailStep;
      ghost var t0, refs0 := rng.tape, fileReferences;
      var i := 0;
      while i < |emails|
        invariant 0 <= i <= |emails|
        invariant fileReferences == refs0 + EmailEdges(t0, emails[..i], others).0 && rng.tape == EmailEdges(t0, emails[..i], others).1
        invariant passwords == old(passwords) && keys == old(keys) && encodedFiles == old(encodedFiles)
      {
        ghost var prev := EmailEdges(t0, emails[..i], others);
        ghost var step := EmailStep(prev.1, emails[i], others);
        LinkEmail(rng, emails[i], others);
        assert emails[..i + 1][..i] == emails[..i];
        assert EmailEdges(t0, emails[..i + 1], others) == (prev.0 + step.0, step.1);
        assert fileReferences == refs0 + (prev.0 + step.0);
        i := i + 1;
      }
      assert emails[..i] == emails;
    }

    // -------------------------------------------------------------------
    // _create_embedded_references

    /** One document: a 60% chance of embedding 1 to 3 of the images. */
    method LinkEmbedded(rng: Random, doc: Plan, images: seq<Plan>)
      modifies this, rng
      ensures fileReferences == old(fileReferences) + EmbedStep(old(rng.tape), doc, images).0
      ensures rng.tape == EmbedStep(old(rng.tape), doc, images).1
      ensures passwords == old(passwords) && keys == old(keys) && encodedFiles == old(encodedFiles)
    {
      hide DrawTargets;
      hide Labelled;
      hide EmbedContext;
      var embed := rng.Chance(60);
      if embed && |images| > 0 {
        var chosen := PickTargets(rng, 1, 3, images);
        AddLabelled(rng, doc.filename, chosen, "embedded_image", 0, EmbedContext);
      }
    }

    method CreateEmbeddedReferences(rng: Random, docs: seq<Plan>, images: seq<Plan>)
      modifies this, rng
      ensures fileReferences == old(fileReferences) + EmbedEdges(old(rng.tape), docs, images).0
      ensures rng.tape == EmbedEdges(old(rng.tape), docs, images).1
      ensures passwords == old(passwords) && keys == old(keys) && encodedFiles == old(encodedFiles)
    {
      hide EmbedStep;
      ghost var t0, refs0 := rng.tape, fileReferences;
      var i := 0;
      while i < |docs|
        invariant 0 <= i <= |docs|
        invariant fileReferences == refs0 + EmbedEdges(t0, docs[..i], images).0 && rng.tape == EmbedEdges(t0, docs[..i], images).1
        invariant passwords == old(passwords) && keys == old(keys) && encodedFiles == old(encodedFiles)
      {
        ghost var prev := EmbedEdges(t0, docs[..i], images);
        ghost var step := EmbedStep(prev.1, docs[i], images);
        LinkEmbedded(rng, docs[i], images);
        assert docs[..i + 1][..i] == docs[..i];
        assert EmbedEdges(t0, docs[..i + 1], images) == (prev.0 + step.0, step.1);
        assert fileReferences == refs0 + (prev.0 + step.0);
        i := i + 1;
      }
      assert docs[..i] == docs;
    }

    // -------------------------------------------------------------------
    // _create_document_references

    /** One document: 1 to 3 of the other documents, each with one of six contexts. */
    method LinkDocument(rng: Random, doc: Plan, docs: seq<Plan>)
      modifies this, rng
      ensures fileReferences == old(fileReferences) + DocStep(old(rng.tape), doc, docs).0
      ensures rng.tape == DocStep(old(rng.tape), doc, docs).1
      ensures passwords == old(passwords) && keys == old(keys) && encodedFiles == old(encodedFiles)
    {
      hide DrawTargets;
      hide Labelled;
      hide DocumentContext;
      var others := Others(docs, doc.filename);
      if |others| > 0 {
        var chosen := PickTargets(rng, 1, 3, others);
        AddLabelled(rng, doc.filename, chosen, "document_reference", 6, DocumentContext);
      }
    }

    method CreateDocumentReferences(rng: Random, docs: seq<Plan>)
      modifies this, rng
      ensures fileReferences == old(fileReferences) + DocEdges(old(rng.tape), docs, docs).0
      ensures rng.tape == DocEdges(old(rng.tape), docs, docs).1
      ensures passwords == old(passwords) && keys == old(keys) && encodedFiles == old(encodedFiles)
    {
      hide DocStep;
      ghost var t0, refs0 := rng.tape, fileReferences;
      var i := 0;
      while i < |docs|
        invariant 0 <= i <= |docs|
        invariant fileReferences == refs0 + DocEdges(t0, docs[..i], docs).0 && rng.tape == DocEdges(t0, docs[..i], docs).1
        invariant passwords == old(passwords) && keys == old(keys) && encodedFiles == old(encodedFiles)
      {
        ghost var prev := DocEdges(t0, docs[..i], docs);
        ghost var step := DocStep(prev.1, docs[i], docs);
        LinkDocument(rng, docs[i], docs);
        assert docs[..i + 1][..i] == docs[..i];
        assert DocEdges(t0, docs[..i + 1], docs) == (prev.0 + step.0, step.1);
        assert fileReferences == refs0 + (prev.0 + step.0);
        i := i + 1;
      }
      assert docs[..i] == docs;
    }

    // -------------------------------------------------------------------
    // _create_spreadsheet_references

    /** One spreadsheet with a pool of at least two files: 2 to 4 of them, each with one of six contexts. */
    method LinkSpreadsheet(rng: Random, sheet: Plan, others: seq<Plan>)
      requires |others| != 1
      modifies this, rng
      ensures SheetStep(old(rng.tape), sheet, others).Ok?
      ensures fileReferences == old(fileReferences) + SheetStep(old(rng.tape), sheet, others).value.0
      ensures rng.tape == SheetStep(old(rng.tape), sheet, others).value.1
      ensures passwords == old(passwords) && keys == old(keys) && encodedFiles == old(encodedFiles)
    {
      hide DrawTargets;
      hide Labelled;
      hide SheetContext;
      if |others| > 0 {
        var chosen := PickTargets(rng, 2, 4, others);
        AddLabelled(rng, sheet.filename, chosen, "data_source", 6, SheetContext);
      }
    }

    /** Fails, as `randint(2, 1)` does, when the pool holds exactly one file. */
    method CreateSpreadsheetReferences(rng: Random, sheets: seq<Plan>, others: seq<Plan>)
      returns (r: Result<(), NetworkError>)
      modifies this, rng
      ensures r.Err? <==> SheetEdges(old(rng.tape), sheets, others).Err?
      ensures r.Err? ==> r.error == EmptyRandintRange
      ensures r.Ok? ==> fileReferences == old(fileReferences) + SheetEdges(old(rng.tape), sheets, others).value.0
      ensures r.Ok? ==> rng.tape == SheetEdges(old(rng.tape), sheets, others).value.1
      ensures passwords == old(passwords) && keys == old(keys) && encodedFiles == old(encodedFiles)
    {
      hide SheetStep;
      hide DrawTargets;
      hide Labelled;
      hide SheetContext;
      ghost var t0, refs0 := rng.tape, fileReferences;
      SheetEdgesFail(t0, sheets, others);
      var i := 0;
      while i < |sheets|
        invariant 0 <= i <= |sheets|
        invariant SheetEdges(t0, sheets[..i], others).Ok?
        invariant fileReferences == refs0 + SheetEdges(t0, sheets[..i], others).value.0 && rng.tape == SheetEdges(t0, sheets[..i], others).value.1
        invariant passwords == old(passwords) && keys == old(keys) && encodedFiles == old(encodedFiles)
      {
        if |others| == 1 {
          return Err(EmptyRandintRange);
        }
        ghost var prev := SheetEdges(t0, sheets[..i], others).value;
        LinkSpreadsheet(rng, sheets[i], others);
        ghost var step := SheetStep(prev.1, sheets[i], others).value;
        assert sheets[..i + 1][..i] == sheets[..i];
        assert SheetEdges(t0, sheets[..i + 1], others) == Ok((prev.0 + step.0, step.1));
        assert fileReferences == refs0 + (prev.0 + step.0);
        i := i + 1;
      }
      assert sheets[..i] == sheets;
      return Ok(());
    }

    // -------------------------------------------------------------------
    // _create_password_references

    /** One protected file: a 70% chance of hiding its password in one of the containers. */
    method LinkPassword(rng: Random, f: EncodedFile, files: seq<Plan>)
      requires f.password.Some?
      modifies this, rng
      ensures fileReferences == old(fileReferences) + PasswordStep(old(rng.tape), f, files).0
      ensures rng.tape == PasswordStep(old(rng.tape), f, files).1
      ensures passwords == old(passwords) && keys == old(keys) && encodedFiles == old(encodedFiles)
    {
      hide PasswordContext;
      hide Containers;
      var stash := rng.Chance(70);
      var containers := Containers(files, f.plan.filename);
      if stash && |containers| > 0 {
        var k := rng.RandBelow(|containers|);
        fileReferences := fileReferences + [FileReference(containers[k].filename, f.plan.filename, "password",
                                                          PasswordContext(f.plan.filename, f.password.value))];
      }
    }

    method CreatePasswordReferences(rng: Random, files: seq<Plan>)
      modifies this, rng
      ensures fileReferences == old(fileReferences) + PasswordEdges(old(rng.tape), ProtectedFiles(old(encodedFiles), files), files).0
      ensures rng.tape == PasswordEdges(old(rng.tape), ProtectedFiles(old(encodedFiles), files), files).1
      ensures passwords == old(passwords) && keys == old(keys) && encodedFiles == old(encodedFiles)
    {
      hide PasswordStep;
      hide ProtectedFiles;
      hide PasswordContext;
      hide Containers;
      var protected := ProtectedFiles(encodedFiles, files);
      assert forall j :: 0 <= j < |protected| ==> protected[j] in protected;
      ghost var t0, refs0 := rng.tape, fileReferences;
      var i := 0;
      while i < |protected|
        invariant 0 <= i <= |protected|
        invariant fileReferences == refs0 + PasswordEdges(t0, protected[..i], files).0 && rng.tape == PasswordEdges(t0, protected[..i], files).1
        invariant passwords == old(passwords) && keys == old(keys) && encodedFiles == old(encodedFiles)
      {
        ghost var prev := PasswordEdges(t0, protected[..i], files);
        ghost var step := PasswordStep(prev.1, protected[i], files);
        LinkPassword(rng, protected[i], files);
        assert protected[..i + 1][..i] == protected[..i];
        assert PasswordEdges(t0, protected[..i + 1], files) == (prev.0 + step.0, step.1);
        assert fileReferences == refs0 + (prev.0 + step.0);
        i := i + 1;
      }
      assert protected[..i] == protected;
    }

    // -------------------------------------------------------------------
    // _create_backup_references and _create_data_references

    /** For each source, when the pool is non-empty, one `random.choice` of it. */
    method AddPicks(rng: Random, sources: seq<Plan>, pool: seq<Plan>, refType: string, prefix: string)
      modifies this, rng
      ensures fileReferences == old(fileReferences) + PickOne(old(rng.tape), sources, pool, refType, prefix).0
      ensures rng.tape == PickOne(old(rng.tape), sources, pool, refType, prefix).1
      ensures passwords == old(passwords) && keys == old(keys) && encodedFiles == old(encodedFiles)
    {
      ghost var t0, refs0 := rng.tape, fileReferences;
      var i := 0;
      while i < |sources|
        invariant 0 <= i <= |sources|
        invariant fileReferences == refs0 + PickOne(t0, sources[..i], pool, refType, prefix).0 && rng.tape == PickOne(t0, sources[..i], pool, refType, prefix).1
        invariant passwords == old(passwords) && keys == old(keys) && encodedFiles == old(encodedFiles)
      {
        ghost var prev := PickOne(t0, sources[..i], pool, refType, prefix);
        if pool != [] {
          var k := rng.RandBelow(|pool|);
          var e := FileReference(sources[i].filename, pool[k].filename, refType, prefix + pool[k].filename);
          fileReferences := fileReferences + [e];
          assert sources[..i + 1][..i] == sources[..i];
          assert PickOne(t0, sources[..i + 1], pool, refType, prefix) == (prev.0 + [e], rng.tape);
          assert fileReferences == refs0 + (prev.0 + [e]);
        }
        i := i + 1;
      }
      assert sources[..i] == sources;
    }

    method CreateBackupReferences(rng: Random, docs: seq<Plan>, sheets: seq<Plan>)
      modifies this, rng
      ensures fileReferences == old(fileReferences) + BackupEdges(old(rng.tape), docs, sheets).0
      ensures rng.tape == BackupEdges(old(rng.tape), docs, sheets).1
      ensures passwords == old(passwords) && keys == old(keys) && encodedFiles == old(encodedFiles)
    {
      AddPicks(rng, docs[..|docs| / 3], sheets, "backup", "Backup data stored in: ");
    }

    method CreateDataReferences(rng: Random, sheets: seq<Plan>, docs: seq<Plan>)
      modifies this, rng
      ensures fileReferences == old(fileReferences) + DataEdges(old(rng.tape), sheets, docs).0
      ensures rng.tape == DataEdges(old(rng.tape), sheets, docs).1
      ensures passwords == old(passwords) && keys == old(keys) && encodedFiles == old(encodedFiles)
    {
      AddPicks(rng, sheets[..|sheets| / 2], docs, "data", "Data source: ");
    }

    // -------------------------------------------------------------------
    // _create_project_references

    /** One file of a project: 1 or 2 of the project's other files. */
    method LinkProjectFile(rng: Random, project: string, file: Plan, members: seq<Plan>)
      modifies this, rng
      ensures fileReferences == old(fileReferences) + ProjectFileStep(old(rng.tape), project, file, members).0
      ensures rng.tape == ProjectFileStep(old(rng.tape), project, file, members).1
      ensures passwords == old(passwords) && keys == old(keys) && encodedFiles == old(encodedFiles)
    {
      hide DrawTargets;
      hide Labelled;
      hide ProjectContext;
      var others := Others(members, file.filename);
      if |others| > 0 {
        var chosen := PickTargets(rng, 1, 2, others);
        AddLabelled(rng, file.filename, chosen, "project_reference", 0, ProjectContext(project));
      }
    }

    method LinkProjectGroup(rng: Random, project: string, members: seq<Plan>)
      modifies this, rng
      ensures fileReferences == old(fileReferences) + ProjectGroupEdges(old(rng.tape), project, members, members).0
      ensures rng.tape == ProjectGroupEdges(old(rng.tape), project, members, members).1
      ensures passwords == old(passwords) && keys == old(keys) && encodedFiles == old(encodedFiles)
    {
      hide ProjectFileStep;
      ghost var t0, refs0 := rng.tape, fileReferences;
      var i := 0;
      while i < |members|
        invariant 0 <= i <= |members|
        invariant fileReferences == refs0 + ProjectGroupEdges(t0, project, members[..i], members).0
        invariant rng.tape == ProjectGroupEdges(t0, project, members[..i], members).1
        invariant passwords == old(passwords) && keys == old(keys) && encodedFiles == old(encodedFiles)
      {
        ghost var prev := ProjectGroupEdges(t0, project, members[..i], members);
        ghost var step := ProjectFileStep(prev.1, project, members[i], members);
        LinkProjectFile(rng, project, members[i], members);
        assert members[..i + 1][..i] == members[..i];
        assert ProjectGroupEdges(t0, project, members[..i + 1], members) == (prev.0 + step.0, step.1);
        assert fileReferences == refs0 + (prev.0 + step.0);
        i := i + 1;
      }
      assert members[..i] == members;
    }

    /** Each file joins a random project with probability 70%; then the files of each project are linked. */
    method CreateProjectReferences(rng: Random, files: seq<Plan>)
      modifies this, rng
      ensures fileReferences == old(fileReferences) + ProjectReferences(old(rng.tape), files).0
      ensures rng.tape == ProjectReferences(old(rng.tape), files).1
      ensures passwords == old(passwords) && keys == old(keys) && encodedFiles == old(encodedFiles)
    {
      hide ProjectGroupEdges;
      hide ProjectEdges;
      hide AddMember;
      ghost var t0, refs0 := rng.tape, fileReferences;
      var groups: Grouping := [];
      var i := 0;
      while i < |files|
        invariant 0 <= i <= |files|
        invariant (groups, rng.tape) == AssignProjects(t0, files[..i])
        invariant fileReferences == refs0
        invariant passwords == old(passwords) && keys == old(keys) && encodedFiles == old(encodedFiles)
      {
        assert files[..i + 1][..i] == files[..i];
        var joins := rng.Chance(70);
        if joins {
          var k := rng.RandBelow(8);
          groups := AddMember(groups, ProjectNames[k], files[i]);
        }
        i := i + 1;
      }
      assert files[..i] == files;
      ghost var t1 := rng.tape;
      var j := 0;
      while j < |groups|
        invariant 0 <= j <= |groups|
        invariant fileReferences == refs0 + ProjectEdges(t1, groups[..j]).0 && rng.tape == ProjectEdges(t1, groups[..j]).1
        invariant passwords == old(passwords) && keys == old(keys) && encodedFiles == old(encodedFiles)
      {
        ghost var prev := ProjectEdges(t1, groups[..j]);
        var (project, members) := groups[j];
        ghost var e2 := if |members| > 1 then ProjectGroupEdges(prev.1, project, members, members).0 else [];
        ghost var t2 := if |members| > 1 then ProjectGroupEdges(prev.1, project, members, members).1 else prev.1;
        if |members| > 1 {
          LinkProjectGroup(rng, project, members);
        }
        assert fileReferences == refs0 + prev.0 + e2 && rng.tape == t2;
        ProjectEdgesSnoc(t1, groups, j);
        assert fileReferences == refs0 + (prev.0 + e2);
        j := j + 1;
      }
      assert groups[..j] == groups;
    }

    // -------------------------------------------------------------------
    // _create_version_references

    /** One file of a version group: an edge to every member with another name. */
    method LinkVersionFile(rng: Random, file: Plan, members: seq<Plan>)
      modifies this, rng
      ensures fileReferences == old(fileReferences) + VersionFileEdges(old(rng.tape), file, members).0
      ensures rng.tape == VersionFileEdges(old(rng.tape), file, members).1
      ensures passwords == old(passwords) && keys == old(keys) && encodedFiles == old(encodedFiles)
    {
      hide Labelled;
      hide VersionContext;
      AddLabelled(rng, file.filename, Others(members, file.filename), "version_reference", 5, VersionContext);
    }

    method LinkVersionGroup(rng: Random, members: seq<Plan>)
      modifies this, rng
      ensures fileReferences == old(fileReferences) + VersionGroupEdges(old(rng.tape), members, members).0
      ensures rng.tape == VersionGroupEdges(old(rng.tape), members, members).1
      ensures passwords == old(passwords) && keys == old(keys) && encodedFiles == old(encodedFiles)
    {
      hide VersionFileEdges;
      ghost var t0, refs0 := rng.tape, fileReferences;
      var i := 0;
      while i < |members|
        invariant 0 <= i <= |members|
        invariant fileReferences == refs0 + VersionGroupEdges(t0, members[..i], members).0
        invariant rng.tape == VersionGroupEdges(t0, members[..i], members).1
        invariant passwords == old(passwords) && keys == old(keys) && encodedFiles == old(encodedFiles)
      {
        ghost var prev := VersionGroupEdges(t0, members[..i], members);
        ghost var step := VersionFileEdges(prev.1, members[i], members);
        LinkVersionFile(rng, members[i], members);
        assert members[..i + 1][..i] == members[..i];
        assert VersionGroupEdges(t0, members[..i + 1], members) == (prev.0 + step.0, step.1);
        assert fileReferences == refs0 + (prev.0 + step.0);
        i := i + 1;
      }
      assert members[..i] == members;
    }

    /** Files are grouped by their name with the version markers and the extension removed, then linked. */
    method CreateVersionReferences(rng: Random, files: seq<Plan>)
      modifies this, rng
      ensures fileReferences == old(fileReferences) + VersionReferences(old(rng.tape), files).0
      ensures rng.tape == VersionReferences(old(rng.tape), files).1
      ensures passwords == old(passwords) && keys == old(keys) && encodedFiles == old(encodedFiles)
    {
      hide VersionGroupEdges;
      hide VersionEdges;
      hide AddMember;
      hide VersionBase;
      var groups: Grouping := [];
      var i := 0;
      while i < |files|
        invariant 0 <= i <= |files|
        invariant groups == GroupByBase(files[..i])
      {
        assert files[..i + 1][..i] == files[..i];
        groups := AddMember(groups, VersionBase(files[i].filename), files[i]);
        i := i + 1;
      }
      assert files[..i] == files;
      ghost var t0, refs0 := rng.tape, fileReferences;
      var j := 0;
      while j < |groups|
        invariant 0 <= j <= |groups|
        invariant fileReferences == refs0 + VersionEdges(t0, groups[..j]).0 && rng.tape == VersionEdges(t0, groups[..j]).1
        invariant passwords == old(passwords) && keys == old(keys) && encodedFiles == old(encodedFiles)
      {
        ghost var prev := VersionEdges(t0, groups[..j]);
        var members := groups[j].1;
        ghost var e2 := if |members| > 1 then VersionGroupEdges(prev.1, members, members).0 else [];
        ghost var t2 := if |members| > 1 then VersionGroupEdges(prev.1, members, members).1 else prev.1;
        if |members| > 1 {
          LinkVersionGroup(rng, members);
        }
        assert fileReferences == refs0 + prev.0 + e2 && rng.tape == t2;
        VersionEdgesSnoc(t0, groups, j);
        assert fileReferences == refs0 + (prev.0 + e2);
        j := j + 1;
      }
      assert groups[..j] == groups;
    }

    // -------------------------------------------------------------------
    // Rewriting the encoded files

    /** `_update_email_content_with_references`: the email at position `i` is regenerated with `fakes(i)`. */
    method UpdateEmailFiles(rng: Random, fakes: nat -> EmailFakes) returns (r: Result<(), NetworkError>)
      modifies this, rng
      ensures r.Err? <==> UpdateEmails(old(rng.tape), fakes, old(encodedFiles), fileReferences).Err?
      ensures r.Ok? ==> encodedFiles == UpdateEmails(old(rng.tape), fakes, old(encodedFiles), fileReferences).value.0
      ensures r.Ok? ==> rng.tape == UpdateEmails(old(rng.tape), fakes, old(encodedFiles), fileReferences).value.1
      ensures fileReferences == old(fileReferences) && passwords == old(passwords) && keys == old(keys)
    {
      hide UpdatedEmail, UpdateEmails;
      ghost var t0, files0, edges := rng.tape, encodedFiles, fileReferences;
      var i := 0;
      while i < |encodedFiles|
        invariant 0 <= i <= |files0| == |encodedFiles|
        invariant UpdateEmails(t0, fakes, files0[..i], edges).Ok?
        invariant encodedFiles[..i] == UpdateEmails(t0, fakes, files0[..i], edges).value.0
        invariant encodedFiles[i..] == files0[i..]
        invariant rng.tape == UpdateEmails(t0, fakes, files0[..i], edges).value.1
        invariant fileReferences == edges && passwords == old(passwords) && keys == old(keys)
      {
        ghost var prev := UpdateEmails(t0, fakes, files0[..i], edges).value;
        assert encodedFiles[i] == files0[i] by { assert encodedFiles[i..][0] == files0[i..][0]; }
        var u := UpdatedEmail(rng.tape, fakes(i), encodedFiles[i], fileReferences);
        UpdateEmailsSnoc(t0, fakes, files0, edges, i);
        if u.Err? {
          UpdateEmailsFailure(t0, fakes, files0, edges, i + 1);
          return Err(u.error);
        }
        ghost var before := encodedFiles;
        encodedFiles := encodedFiles[i := u.value.0];
        rng.tape := u.value.1;
        assert encodedFiles[..i + 1] == before[..i] + [u.value.0];
        assert encodedFiles[i + 1..] == before[i + 1..];
        i := i + 1;
      }
      assert files0[..i] == files0 && encodedFiles[..i] == encodedFiles;
      return Ok(());
    }

    /** `_update_document_content_with_references`: each text document gets its reference block. */
    method UpdateDocumentFiles()
      modifies this
      ensures encodedFiles == UpdateDocuments(old(encodedFiles), fileReferences)
      ensures fileReferences == old(fileReferences) && passwords == old(passwords) && keys == old(keys)
    {
      var i := 0;
      while i < |encodedFiles|
        invariant 0 <= i <= |encodedFiles| == |old(encodedFiles)|
        invariant forall k :: 0 <= k < |encodedFiles| ==>
          encodedFiles[k] == if k < i then UpdatedDocument(old(encodedFiles)[k], fileReferences) else old(encodedFiles)[k]
        invariant fileReferences == old(fileReferences) && passwords == old(passwords) && keys == old(keys)
      {
        encodedFiles := encodedFiles[i := UpdatedDocument(encodedFiles[i], fileReferences)];
        i := i + 1;
      }
    }

    /** `_update_spreadsheet_content_with_references`: each CSV file gets its comment lines. */
    method UpdateSpreadsheetFiles()
      modifies this
      ensures encodedFiles == UpdateSheets(old(encodedFiles), fileReferences)
      ensures fileReferences == old(fileReferences) && passwords == old(passwords) && keys == old(keys)
    {
      var i := 0;
      while i < |encodedFiles|
        invariant 0 <= i <= |encodedFiles| == |old(encodedFiles)|
        invariant forall k :: 0 <= k < |encodedFiles| ==>
          encodedFiles[k] == if k < i then UpdatedSheet(old(encodedFiles)[k], fileReferences) else old(encodedFiles)[k]
        invariant fileReferences == old(fileReferences) && passwords == old(passwords) && keys == old(keys)
      {
        encodedFiles := encodedFiles[i := UpdatedSheet(encodedFiles[i], fileReferences)];
        i := i + 1;
      }
    }

    /** `_distribute_password_hints`: shuffle the stored passwords, then hint one in each of the first text files. */
    method DistributePasswordHints(rng: Random)
      modifies this, rng
      ensures (encodedFiles, rng.tape) == DistributeHints(old(rng.tape), old(encodedFiles), passwords)
      ensures fileReferences == old(fileReferences) && passwords == old(passwords) && keys == old(keys)
    {
      hide DistributeHints, PlaceHints, DrawShuffle, TextPositions;
      DistributeHintsUnfold(rng.tape, encodedFiles, passwords);
      var positions := TextPositions(encodedFiles);
      var pairs := rng.Shuffle(passwords);
      ghost var t1 := rng.tape;
      var files := encodedFiles;
      var n := Min(|pairs|, |positions| / 2);
      assert n <= |pairs| && n <= |positions|;
      PlaceHintsNone(t1, encodedFiles, positions, pairs);
      var i := 0;
      while i < n
        invariant 0 <= i <= n <= |pairs| && n <= |positions|
        invariant forall k :: 0 <= k < |positions| ==> positions[k] < |encodedFiles|
        invariant (files, rng.tape) == PlaceHints(t1, encodedFiles, positions, pairs, i)
        invariant encodedFiles == old(encodedFiles)
        invariant fileReferences == old(fileReferences) && passwords == old(passwords) && keys == old(keys)
      {
        hide WithHint, HintText, DrawBelow;
        PlaceHintsStep(t1, encodedFiles, positions, pairs, i);
        var k := rng.RandBelow(5);
        var p := positions[i];
        files := files[p := WithHint(files[p], HintText(k, pairs[i].0, pairs[i].1))];
        i := i + 1;
      }
      encodedFiles := files;
    }

    // -------------------------------------------------------------------
    // Encoding, the summary, and the whole network

    /** The encoding loop of `create_file_network`: encode each plan with `enc`, then record the file. */
    method EncodeFiles(rng: Random, plans: seq<Plan>, enc: EncodeStep) returns (r: Result<(), NetworkError>)
      requires StepContract(enc)
      modifies this, rng
      ensures r.Err? <==> !AllSupported(plans)
      ensures r.Ok? ==> State() == EncodePlans(old(rng.tape), old(State()), plans, enc).value.0
      ensures r.Ok? ==> rng.tape == EncodePlans(old(rng.tape), old(State()), plans, enc).value.1
      ensures fileReferences == old(fileReferences)
    {
      hide EncodePlans, Supported;
      ghost var t0, s0 := rng.tape, State();
      var i := 0;
      while i < |plans|
        invariant 0 <= i <= |plans|
        invariant EncodePlans(t0, s0, plans[..i], enc).Ok?
        invariant State() == EncodePlans(t0, s0, plans[..i], enc).value.0
        invariant rng.tape == EncodePlans(t0, s0, plans[..i], enc).value.1
        invariant fileReferences == old(fileReferences)
      {
        ghost var prev := EncodePlans(t0, s0, plans[..i], enc).value;
        EncodePlansSnoc(t0, s0, plans, enc, i);
        var v := enc(rng.tape, plans[i], i);
        if v.Err? {
          assert !Supported(plans[i]);
          return Err(v.error);
        }
        var f := v.value.0;
        assert f.key.None?;
        ghost var next := Record(prev.0, f);
        assert EncodePlans(t0, s0, plans[..i + 1], enc) == Ok((next, v.value.1));
        encodedFiles := encodedFiles + [f];
        if f.password.Some? && f.password.value != [] {
          passwords := DictPut(passwords, f.plan.filename, f.password.value);
        }
        // No encoding reports a key (`EncodeFileNoKey`), so the key table is never written.
        rng.tape := v.value.1;
        assert State() == next;
        i := i + 1;
      }
      assert plans[..i] == plans;
      return Ok(());
    }

    /** `get_encoding_summary`: how many encoded files use each method, keyed by the method's value. */
    method GetEncodingSummary() returns (summary: Dict<string, nat>)
      ensures summary == Tally(MethodValues(encodedFiles))
      ensures KeysDistinct(summary) && SumValues(summary) == |encodedFiles|
      ensures forall v :: DictGet(summary, v, 0) == Occurrences(MethodValues(encodedFiles), v)
    {
      summary := [];
      var i := 0;
      while i < |encodedFiles|
        invariant 0 <= i <= |encodedFiles|
        invariant summary == Tally(MethodValues(encodedFiles[..i]))
      {
        assert MethodValues(encodedFiles[..i + 1]) == MethodValues(encodedFiles[..i]) + [Value(encodedFiles[i].encoding)];
        TallySnoc(MethodValues(encodedFiles[..i]), Value(encodedFiles[i].encoding));
        summary := Bump(summary, Value(encodedFiles[i].encoding));
        i := i + 1;
      }
      assert encodedFiles[..i] == encodedFiles;
      TallyCounts(MethodValues(encodedFiles));
    }

    /** The nine reference passes of `create_file_network`, in its order. */
    method CreateReferences(rng: Random, plans: seq<Plan>) returns (r: Result<(), NetworkError>)
      modifies this, rng
      ensures var n := Links(old(rng.tape), old(State()), plans);
        (r.Err? <==> n.Err?) && (r.Ok? ==> n.Ok? && State() == n.value.0 && rng.tape == n.value.1)
    {
      hide LinksToSheets, LinksAfterSheets;
      ghost var t0, s0 := rng.tape, State();
      var first := CreateReferencesToSheets(rng, plans);
      if first.Err? {
        return Err(first.error);
      }
      ghost var t1, s1 := rng.tape, State();
      CreateReferencesAfterSheets(rng, plans);
      assert fileReferences == s0.references + (s1.references[|s0.references|..] + fileReferences[|s1.references|..]);
      return Ok(());
    }

    /** The email, embedded-image, document and spreadsheet passes. */
    method CreateReferencesToSheets(rng: Random, plans: seq<Plan>) returns (r: Result<(), NetworkError>)
      modifies this, rng
      ensures var n := LinksToSheets(old(rng.tape), plans);
        (r.Err? <==> n.Err?)
        && (r.Ok? ==> fileReferences == old(fileReferences) + n.value.0 && rng.tape == n.value.1)
      ensures passwords == old(passwords) && keys == old(keys) && encodedFiles == old(encodedFiles)
    {
      hide EmailEdges, EmbedEdges, DocEdges, SheetEdges;
      var emails, docs, sheets, images := Emails(plans), Documents(plans), Spreadsheets(plans), Images(plans);
      ghost var t1, s1 := rng.tape, State();
      CreateEmailReferences(rng, emails, docs + sheets + images);
      ghost var added := EmailEdges(t1, emails, docs + sheets + images).0;
      ghost var t2 := rng.tape;
      CreateEmbeddedReferences(rng, docs, images);
      added := added + EmbedEdges(t2, docs, images).0;
      assert fileReferences == s1.references + added;
      ghost var t3 := rng.tape;
      CreateDocumentReferences(rng, docs);
      added := added + DocEdges(t3, docs, docs).0;
      assert fileReferences == s1.references + added;
      ghost var t4 := rng.tape;
      var sheetResult := CreateSpreadsheetReferences(rng, sheets, docs + images);
      if sheetResult.Err? {
        return Err(sheetResult.error);
      }
      added := added + SheetEdges(t4, sheets, docs + images).value.0;
      assert fileReferences == s1.references + added;
      return Ok(());
    }

    /** The password, backup, data-source, project and version passes. */
    method CreateReferencesAfterSheets(rng: Random, plans: seq<Plan>)
      modifies this, rng
      ensures var (n, t) := LinksAfterSheets(old(rng.tape), old(encodedFiles), plans);
        fileReferences == old(fileReferences) + n && rng.tape == t
      ensures passwords == old(passwords) && keys == old(keys) && encodedFiles == old(encodedFiles)
    {
      hide PasswordEdges, BackupEdges, DataEdges, ProjectReferences, VersionReferences, ProtectedFiles;
      var docs, sheets := Documents(plans), Spreadsheets(plans);
      ghost var s1 := State();
      ghost var t5 := rng.tape;
      CreatePasswordReferences(rng, plans);
      ghost var added := PasswordEdges(t5, ProtectedFiles(s1.files, plans), plans).0;
      ghost var t6 := rng.tape;
      CreateBackupReferences(rng, docs, sheets);
      added := added + BackupEdges(t6, docs, sheets).0;
      assert fileReferences == s1.references + added;
      ghost var t7 := rng.tape;
      CreateDataReferences(rng, sheets, docs);
      added := added + DataEdges(t7, sheets, docs).0;
      assert fileReferences == s1.references + added;
      ghost var t8 := rng.tape;
      CreateProjectReferences(rng, plans);
      added := added + ProjectReferences(t8, plans).0;
      assert fileReferences == s1.references + added;
      ghost var t9 := rng.tape;
      CreateVersionReferences(rng, plans);
      added := added + VersionReferences(t9, plans).0;
      assert fileReferences == s1.references + added;
    }

    /** The rewriting steps of `create_file_network`: emails, documents, spreadsheets, then the hints. */
    method UpdateContents(rng: Random, env: Environment) returns (r: Result<(), NetworkError>)
      modifies this, rng
      ensures var n := Rewrites(old(rng.tape), old(State()), env);
        (r.Err? <==> n.Err?) && (r.Ok? ==> n.Ok? && State() == n.value.0 && rng.tape == n.value.1)
    {
      hide UpdateEmails, UpdateDocuments, UpdateSheets, DistributeHints;
      var u := UpdateEmailFiles(rng, env.mail);
      if u.Err? {
        return Err(u.error);
      }
      UpdateDocumentFiles();
      UpdateSpreadsheetFiles();
      DistributePasswordHints(rng);
      return Ok(());
    }

    /**
     * `create_file_network`: encode every plan, run the nine reference
     * passes, rewrite the files, scatter the hints, and return the files.
     */
    method CreateFileNetwork(rng: Random, plans: seq<Plan>, env: Environment) returns (r: Result<seq<EncodedFile>, NetworkError>)
      modifies this, rng
      ensures var n := CreateNetwork(old(rng.tape), old(State()), plans, env);
        (r.Err? <==> n.Err?) && (r.Ok? ==> n.Ok? && State() == n.value.0 && rng.tape == n.value.1 && r.value == encodedFiles)
    {
      hide EncodePlans, Links, Rewrites, Supported, Encoder;
      var docs, sheets, images := Documents(plans), Spreadsheets(plans), Images(plans);
      var e := EncodeFiles(rng, plans, Encoder(images, docs + sheets, env));
      if e.Err? {
        return Err(e.error);
      }
      var l := CreateReferences(rng, plans);
      if l.Err? {
        return Err(l.error);
      }
      var u := UpdateContents(rng, env);
      if u.Err? {
        return Err(u.error);
      }
      return Ok(encodedFiles);
    }
  }

  /** The value of each file's encoding method, in order. */
  function MethodValues(files: seq<EncodedFile>): seq<string>
  {
    seq(|files|, i requires 0 <= i < |files| => Value(files[i].encoding))
  }
}

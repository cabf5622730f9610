/**
 * `FileLinkingManager.create_file_network` as a function of the manager's
 * state, the plans and the tape: the encoding loop, the nine reference
 * passes in the source's order, and the four rewriting steps. The class in
 * module `Linking` performs the same steps in place and is proved to end in
 * the state computed here.
 *
 * The template's own rendering is outside the model: `render` receives the
 * template, the plan and the image and attachment names handed to it, and
 * returns the bytes and the tape it leaves.
 */
module Network {
  import opened Common
  import opened Oracle
  import opened Encoding
  import opened Templates
  import opened Refs
  import opened Passes
  import opened Groups
  import opened Rewrite

  /** The manager's four lists: references, passwords and keys by file name, encoded files. */
  datatype Manager = Manager(
    references: seq<FileReference>,
    passwords: Dict<string, string>,
    keys: Dict<string, string>,
    files: seq<EncodedFile>)

  /** `template.generate(size_bytes, filename)`, given the names it was told about. */
  type Renderer = (Template, Plan, seq<string>, seq<string>, Tape) -> (seq<byte>, Tape)

  /**
   * Everything the network takes from outside `random`: the crypto and zip
   * primitives, the encoder's inputs for the `i`-th plan, the renderer, and
   * the Faker values for the email at position `i` of the encoded files.
   */
  datatype Environment = Environment(
    prim: Primitives,
    encoder: nat -> EncoderInputs,
    render: Renderer,
    mail: nat -> EmailFakes)

  /** `metadata.get(key)`. */
  function MetaGet(metadata: Dict<string, string>, key: string): (r: Option<string>)
    ensures r.Some? <==> DictFind(metadata, key).Some?
    ensures r.Some? ==> r.value == DictGet(metadata, key, "")
  {
    match DictFind(metadata, key)
    case None => None
    case Some(i) => Some(metadata[i].1)
  }

  /**
   * The images and attachments a template is told about: 1 to min(3, n)
   * images for a pdf or docx file; for an eml file 1 to min(4, n) images and
   * then 1 to min(5, n) documents or spreadsheets; nothing for the others.
   */
  function TemplateTargets(t: Tape, fileType: string, images: seq<Plan>, attachable: seq<Plan>): (r: (seq<Plan>, seq<Plan>, Tape))
    ensures forall x :: x in r.0 ==> x in images
    ensures forall x :: x in r.1 ==> x in attachable
    ensures |r.0| <= 4 && |r.1| <= 5
    ensures fileType !in ["pdf", "docx", "eml"] ==> r == ([], [], t)
  {
    if fileType in ["pdf", "docx"] then
      if images != [] then
        var (imgs, t1) := DrawTargets(t, 1, 3, images);
        (imgs, [], t1)
      else ([], [], t)
    else if fileType == "eml" then
      var (imgs, t1) := if images != [] then DrawTargets(t, 1, 4, images) else ([], t);
      var (atts, t2) := if attachable != [] then DrawTargets(t1, 1, 5, attachable) else ([], t1);
      (imgs, atts, t2)
    else ([], [], t)
  }

  /**
   * One pass of the encoding loop: choose a method, build the template (a
   * ValueError for an unknown type), hand it its images and attachments,
   * render, and encode without a password.
   */
  function EncodePlan(t: Tape, plan: Plan, images: seq<Plan>, attachable: seq<Plan>,
                      env: Environment, i: nat): (r: Result<(EncodedFile, Tape), NetworkError>)
    ensures r.Err? <==> !Supported(plan)
    ensures r.Err? ==> r.error == UnsupportedFileType(plan.fileType)
    ensures r.Ok? ==> r.value.0.plan == plan && r.value.0.references == []
    ensures r.Ok? ==> (Protected(r.value.0.encoding) <==> r.value.0.password.Some?)
    ensures r.Ok? && r.value.0.password.Some? ==> r.value.0.password.value != []
    ensures r.Ok? ==> r.value.0.key.None?
  {
    var (m, t1) := ChooseEncodingMethod(t, plan.fileType);
    match CreateTemplate(t1, plan.fileType, plan.language)
    case Err(_) => Err(UnsupportedFileType(plan.fileType))
    case Ok(v) =>
      var (imgs, atts, t3) := TemplateTargets(v.1, plan.fileType, images, attachable);
      var (content, t4) := env.render(v.0, plan, Names(imgs), Names(atts), t3);
      var e := EncodeFile(env.prim, env.encoder(i), t4, content, m, None);
      EncodePassword(env.prim, env.encoder(i), t4, content, m, None);
      EncodeFileNoKey(env.prim, env.encoder(i), t4, content, m, None);
      Ok((EncodedFile(plan, e.content, m, MetaGet(e.metadata, "password"), MetaGet(e.metadata, "key"),
                      MetaGet(e.metadata, "salt"), []), e.tape))
  }

  /** No method reports a key, so `metadata.get("key")` is always `None`. */
  lemma EncodeFileNoKey(prim: Primitives, env: EncoderInputs, t: Tape,
                        content: seq<byte>, m: EncodingMethod, password: Option<string>)
    ensures DictFind(EncodeFile(prim, env, t, content, m, password).metadata, "key").None?
  {
    hide ChosenPassword, MediumPassword, StrongPassword, ZipEncryptedEntries, AsciiText, FernetKey;
    var d := EncodeFile(prim, env, t, content, m, password).metadata;
    assert forall i :: 0 <= i < |d| ==> d[i].0 != "key";
  }

  /** Recording one encoded file: appended, and its password and key stored when non-empty. */
  function Record(s: Manager, f: EncodedFile): (r: Manager)
    ensures r.references == s.references && r.files == s.files + [f]
    ensures f.key.None? ==> r.keys == s.keys
  {
    var passwords := if f.password.Some? && f.password.value != [] then DictPut(s.passwords, f.plan.filename, f.password.value) else s.passwords;
    var keys := if f.key.Some? && f.key.value != [] then DictPut(s.keys, f.plan.filename, f.key.value) else s.keys;
    Manager(s.references, passwords, keys, s.files + [f])
  }

  /** One pass of the encoding loop, for the plan at a given position. */
  type EncodeStep = (Tape, Plan, nat) -> Result<(EncodedFile, Tape), NetworkError>

  /** A step that fails exactly on the types the template factory does not know, and keeps the plan. */
  ghost predicate StepContract(step: EncodeStep)
  {
    forall t, p, i {:trigger step(t, p, i)} ::
      (step(t, p, i).Err? <==> !Supported(p))
      && (step(t, p, i).Ok? ==> step(t, p, i).value.0.plan == p && step(t, p, i).value.0.key.None?)
  }

  /** `EncodePlan` with the groups and environment of one network fixed. */
  function Encoder(images: seq<Plan>, attachable: seq<Plan>, env: Environment): (r: EncodeStep)
    ensures StepContract(r)
  {
    (t: Tape, p: Plan, i: nat) => EncodePlan(t, p, images, attachable, env, i)
  }

  /** The template factory knows the plan's file type. */
  predicate Supported(p: Plan)
  {
    Lower(p.fileType) in GetSupportedTypes()
  }

  predicate AllSupported(plans: seq<Plan>)
  {
    forall i :: 0 <= i < |plans| ==> Supported(plans[i])
  }

  /** Every plan is supported exactly when all but the last are and the last one is. */
  lemma AllSupportedSnoc(plans: seq<Plan>)
    requires plans != []
    ensures AllSupported(plans) <==> AllSupported(plans[..|plans| - 1]) && Supported(plans[|plans| - 1])
  {
    hide Supported;
    var n := |plans|;
    if AllSupported(plans[..n - 1]) && Supported(plans[n - 1]) {
      forall i | 0 <= i < n ensures Supported(plans[i]) {
        if i < n - 1 { assert plans[..n - 1][i] == plans[i]; }
      }
    }
  }

  /** The encoding loop over the plans; the plan at position `i` is encoded with index `i`. */
  function EncodePlans(t: Tape, s: Manager, plans: seq<Plan>, step: EncodeStep): (r: Result<(Manager, Tape), NetworkError>)
    requires StepContract(step)
    ensures plans == [] ==> r == Ok((s, t))
    ensures r.Err? <==> !AllSupported(plans)
    ensures r.Ok? ==> r.value.0.references == s.references && |r.value.0.files| == |s.files| + |plans|
  {
    if plans == [] then Ok((s, t))
    else
      var n := |plans|;
      AllSupportedSnoc(plans);
      match EncodePlans(t, s, plans[..n - 1], step)
      case Err(x) => Err(x)
      case Ok(prev) =>
        match step(prev.1, plans[n - 1], n - 1)
        case Err(x) => Err(x)
        case Ok(v) => Ok((Record(prev.0, v.0), v.1))
  }

  /** One more plan: the loop so far, then the plan at position `i` encoded and recorded. */
  lemma EncodePlansSnoc(t: Tape, s: Manager, plans: seq<Plan>, step: EncodeStep, i: nat)
    requires StepContract(step) && i < |plans| && EncodePlans(t, s, plans[..i], step).Ok?
    ensures var prev := EncodePlans(t, s, plans[..i], step).value;
      var v := step(prev.1, plans[i], i);
      EncodePlans(t, s, plans[..i + 1], step) == if v.Err? then Err(v.error) else Ok((Record(prev.0, v.value.0), v.value.1))
  {
    hide Record, Supported;
    assert plans[..i + 1][..i] == plans[..i];
  }

  /** No encoded file reports a key, so the key table is left as it was. */
  lemma {:induction false} EncodedKeys(t: Tape, s: Manager, plans: seq<Plan>, step: EncodeStep)
    requires StepContract(step)
    requires EncodePlans(t, s, plans, step).Ok?
    ensures EncodePlans(t, s, plans, step).value.0.keys == s.keys
    decreases |plans|
  {
    hide Supported;
    if plans != [] {
      EncodedKeys(t, s, plans[..|plans| - 1], step);
    }
  }

  /** The files held before stay in front. */
  lemma {:induction false} EncodedPrefix(t: Tape, s: Manager, plans: seq<Plan>, step: EncodeStep)
    requires StepContract(step)
    requires EncodePlans(t, s, plans, step).Ok?
    ensures EncodePlans(t, s, plans, step).value.0.files[..|s.files|] == s.files
    decreases |plans|
  {
    hide Supported;
    if plans != [] {
      var n := |plans|;
      EncodedPrefix(t, s, plans[..n - 1], step);
      var prev := EncodePlans(t, s, plans[..n - 1], step).value.0.files;
      var files := EncodePlans(t, s, plans, step).value.0.files;
      assert files[..|prev|] == prev;
    }
  }

  /** The `i`-th new file is the `i`-th plan's. */
  lemma {:induction false} EncodedPlan(t: Tape, s: Manager, plans: seq<Plan>, step: EncodeStep, i: nat)
    requires StepContract(step)
    requires EncodePlans(t, s, plans, step).Ok? && i < |plans|
    ensures EncodePlans(t, s, plans, step).value.0.files[|s.files| + i].plan == plans[i]
    decreases |plans|
  {
    hide Supported;
    var n := |plans|;
    AllSupportedSnoc(plans);
    var prev := EncodePlans(t, s, plans[..n - 1], step).value;
    var v := step(prev.1, plans[n - 1], n - 1).value;
    var files := Record(prev.0, v.0).files;
    assert EncodePlans(t, s, plans, step).value.0.files == files;
    if i < n - 1 {
      EncodedPlan(t, s, plans[..n - 1], step, i);
      assert plans[..n - 1][i] == plans[i];
      assert files[|s.files| + i] == prev.0.files[|s.files| + i];
    }
  }

  /** Recording a file stores its password under its name when it has one, and changes nothing else. */
  lemma RecordPassword(s: Manager, f: EncodedFile, k: string)
    requires KeysDistinct(s.passwords)
    ensures KeysDistinct(Record(s, f).passwords)
    ensures DictGet(Record(s, f).passwords, k, "") ==
      if f.password.Some? && f.password.value != [] && k == f.plan.filename then f.password.value
      else DictGet(s.passwords, k, "")
  {
    if f.password.Some? && f.password.value != [] {
      DictGetPut(s.passwords, f.plan.filename, f.password.value, k, "");
    }
  }

  /** The loop keeps the password table free of repeated names. */
  lemma {:induction false} EncodedPasswordsDistinct(t: Tape, s: Manager, plans: seq<Plan>, step: EncodeStep)
    requires StepContract(step) && KeysDistinct(s.passwords)
    requires EncodePlans(t, s, plans, step).Ok?
    ensures KeysDistinct(EncodePlans(t, s, plans, step).value.0.passwords)
    decreases |plans|
  {
    hide Supported;
    if plans != [] {
      var n := |plans|;
      EncodedPasswordsDistinct(t, s, plans[..n - 1], step);
      var prev := EncodePlans(t, s, plans[..n - 1], step).value;
      var v := step(prev.1, plans[n - 1], n - 1).value;
      RecordPassword(prev.0, v.0, []);
    }
  }

  /** A name that no plan has keeps the password stored under it. */
  lemma {:induction false} EncodedPasswordsElsewhere(t: Tape, s: Manager, plans: seq<Plan>, step: EncodeStep, k: string)
    requires StepContract(step) && KeysDistinct(s.passwords) && k !in Names(plans)
    requires EncodePlans(t, s, plans, step).Ok?
    ensures DictGet(EncodePlans(t, s, plans, step).value.0.passwords, k, "") == DictGet(s.passwords, k, "")
    decreases |plans|
  {
    hide Supported;
    if plans != [] {
      var n := |plans|;
      assert Names(plans[..n - 1]) == Names(plans)[..n - 1];
      assert Names(plans)[n - 1] == plans[n - 1].filename;
      EncodedPasswordsElsewhere(t, s, plans[..n - 1], step, k);
      EncodedPasswordsDistinct(t, s, plans[..n - 1], step);
      var prev := EncodePlans(t, s, plans[..n - 1], step).value;
      var v := step(prev.1, plans[n - 1], n - 1).value;
      RecordPassword(prev.0, v.0, k);
    }
  }

  /**
   * With distinct file names, after the loop the password stored under a
   * plan's name is its file's password when it got one, and what was stored
   * before otherwise.
   */
  lemma {:induction false} EncodedPasswords(t: Tape, s: Manager, plans: seq<Plan>, step: EncodeStep, i: nat)
    requires StepContract(step) && KeysDistinct(s.passwords) && Distinct(Names(plans))
    requires EncodePlans(t, s, plans, step).Ok? && i < |plans|
    ensures var r := EncodePlans(t, s, plans, step).value.0;
      var f := r.files[|s.files| + i];
      DictGet(r.passwords, plans[i].filename, "") ==
        if f.password.Some? && f.password.value != [] then f.password.value else DictGet(s.passwords, plans[i].filename, "")
    decreases |plans|
  {
    hide Supported;
    var n := |plans|;
    AllSupportedSnoc(plans);
    var prev := EncodePlans(t, s, plans[..n - 1], step).value;
    var v := step(prev.1, plans[n - 1], n - 1).value;
    var r := Record(prev.0, v.0);
    assert EncodePlans(t, s, plans, step).value.0 == r;
    assert Names(plans[..n - 1]) == Names(plans)[..n - 1];
    EncodedPasswordsDistinct(t, s, plans[..n - 1], step);
    RecordPassword(prev.0, v.0, plans[i].filename);
    if i < n - 1 {
      EncodedPasswords(t, s, plans[..n - 1], step, i);
      assert plans[..n - 1][i] == plans[i];
      assert r.files[|s.files| + i] == prev.0.files[|s.files| + i];
      assert Names(plans)[i] != Names(plans)[n - 1];
    } else {
      assert plans[n - 1].filename !in Names(plans[..n - 1]) by {
        var before := plans[..n - 1];
        forall j | 0 <= j < |before| ensures before[j].filename != plans[n - 1].filename {
          assert Names(plans)[j] != Names(plans)[n - 1];
        }
      }
      EncodedPasswordsElsewhere(t, s, plans[..n - 1], step, plans[n - 1].filename);
      assert r.files[|s.files| + i] == v.0;
    }
  }

  /** The first four reference passes: emails, embedded images, documents, then spreadsheets, which may fail. */
  function LinksToSheets(t: Tape, plans: seq<Plan>): (r: Result<(seq<FileReference>, Tape), NetworkError>)
    ensures r.Err? <==> Spreadsheets(plans) != [] && |Documents(plans) + Images(plans)| == 1
    ensures r.Err? ==> r.error == EmptyRandintRange
  {
    var emails, docs, sheets, images := Emails(plans), Documents(plans), Spreadsheets(plans), Images(plans);
    var (e1, t1) := EmailEdges(t, emails, docs + sheets + images);
    var (e2, t2) := EmbedEdges(t1, docs, images);
    var (e3, t3) := DocEdges(t2, docs, docs);
    SheetEdgesFail(t3, sheets, docs + images);
    match SheetEdges(t3, sheets, docs + images)
    case Err(x) => Err(x)
    case Ok(v) => Ok((e1 + e2 + e3 + v.0, v.1))
  }

  /** The last five passes: passwords, backups, data sources, projects and versions. */
  function LinksAfterSheets(t: Tape, files: seq<EncodedFile>, plans: seq<Plan>): (r: (seq<FileReference>, Tape))
  {
    var docs, sheets := Documents(plans), Spreadsheets(plans);
    var protected := ProtectedFiles(files, plans);
    assert forall i :: 0 <= i < |protected| ==> protected[i] in protected;
    var (e5, t5) := PasswordEdges(t, protected, plans);
    var (e6, t6) := BackupEdges(t5, docs, sheets);
    var (e7, t7) := DataEdges(t6, sheets, docs);
    var (e8, t8) := ProjectReferences(t7, plans);
    var (e9, t9) := VersionReferences(t8, plans);
    (e5 + e6 + e7 + e8 + e9, t9)
  }

  /** The nine reference passes, in the order `create_file_network` runs them, each appending to the list. */
  function Links(t: Tape, s: Manager, plans: seq<Plan>): (r: Result<(Manager, Tape), NetworkError>)
    ensures r.Err? <==> Spreadsheets(plans) != [] && |Documents(plans) + Images(plans)| == 1
    ensures r.Err? ==> r.error == EmptyRandintRange
    ensures r.Ok? ==> (r.value.0.files == s.files && r.value.0.passwords == s.passwords
                       && |r.value.0.references| >= |s.references| && r.value.0.references[..|s.references|] == s.references)
  {
    match LinksToSheets(t, plans)
    case Err(x) => Err(x)
    case Ok(v) =>
      var (later, t9) := LinksAfterSheets(v.1, s.files, plans);
      var refs := s.references + (v.0 + later);
      assert refs[..|s.references|] == s.references;
      Ok((s.(references := refs), t9))
  }

  /** The rewriting steps: emails, documents, spreadsheets, then the password hints. */
  function Rewrites(t: Tape, s: Manager, env: Environment): (r: Result<(Manager, Tape), NetworkError>)
    ensures r.Ok? ==> (r.value.0.references == s.references && r.value.0.passwords == s.passwords
                       && |r.value.0.files| == |s.files|
                       && forall i :: 0 <= i < |s.files| ==>
                            r.value.0.files[i].plan == s.files[i].plan && r.value.0.files[i].encoding == s.files[i].encoding)
  {
    match UpdateEmails(t, env.mail, s.files, s.references)
    case Err(x) => Err(x)
    case Ok(v) =>
      var f2 := UpdateDocuments(v.0, s.references);
      var f3 := UpdateSheets(f2, s.references);
      var (f4, t2) := DistributeHints(v.1, f3, s.passwords);
      Ok((s.(files := f4), t2))
  }

  /** `create_file_network`, from the manager's state before the call. */
  function CreateNetwork(t: Tape, s: Manager, plans: seq<Plan>, env: Environment): (r: Result<(Manager, Tape), NetworkError>)
    ensures !AllSupported(plans) ==> r.Err?
    ensures r.Ok? ==> |r.value.0.files| == |s.files| + |plans|
  {
    hide EncodePlans, Links, Rewrites, Supported, EncodePlan;
    var docs, sheets, images := Documents(plans), Spreadsheets(plans), Images(plans);
    match EncodePlans(t, s, plans, Encoder(images, docs + sheets, env))
    case Err(x) => Err(x)
    case Ok(v1) =>
      match Links(v1.1, v1.0, plans)
      case Err(x) => Err(x)
      case Ok(v2) => Rewrites(v2.1, v2.0, env)
  }

  /**
   * A network that is built keeps the references the manager held in
   * front, and adds one encoded file per plan, in order.
   */
  lemma NetworkFiles(t: Tape, s: Manager, plans: seq<Plan>, env: Environment)
    requires CreateNetwork(t, s, plans, env).Ok?
    ensures var r := CreateNetwork(t, s, plans, env).value.0;
      |r.files| == |s.files| + |plans|
      && r.references[..|s.references|] == s.references
      && forall i :: 0 <= i < |plans| ==> r.files[|s.files| + i].plan == plans[i]
  {
    hide EncodePlans, Links, Rewrites, Supported, EncodePlan;
    var docs, sheets, images := Documents(plans), Spreadsheets(plans), Images(plans);
    var v1 := EncodePlans(t, s, plans, Encoder(images, docs + sheets, env)).value;
    var v2 := Links(v1.1, v1.0, plans).value;
    var v3 := Rewrites(v2.1, v2.0, env).value;
    assert v3.0.references[..|s.references|] == v2.0.references[..|s.references|];
    forall i | 0 <= i < |plans| ensures v3.0.files[|s.files| + i].plan == plans[i] {
      EncodedPlan(t, s, plans, Encoder(images, docs + sheets, env), i);
      assert v3.0.files[|s.files| + i].plan == v2.0.files[|s.files| + i].plan;
    }
  }

  /** The only ways the call fails: an unsupported type, the spreadsheet pass's empty range, or a sender without '@'. */
  lemma NetworkErrors(t: Tape, s: Manager, plans: seq<Plan>, env: Environment)
    ensures var r := CreateNetwork(t, s, plans, env);
      r.Err? ==> (r.error.UnsupportedFileType? || r.error.EmptyRandintRange? || r.error.SenderWithoutDomain?)
    ensures !AllSupported(plans) ==> CreateNetwork(t, s, plans, env).Err?
    ensures (AllSupported(plans) && Spreadsheets(plans) != [] && |Documents(plans) + Images(plans)| == 1) ==>
      CreateNetwork(t, s, plans, env) == Err(EmptyRandintRange)
  {
    hide EncodePlans, Links, Rewrites, Supported, EncodePlan;
    var docs, sheets, images := Documents(plans), Spreadsheets(plans), Images(plans);
    var r1 := EncodePlans(t, s, plans, Encoder(images, docs + sheets, env));
    if r1.Ok? {
      var r2 := Links(r1.value.1, r1.value.0, plans);
      if r2.Ok? {
        var r3 := Rewrites(r2.value.1, r2.value.0, env);
        assert CreateNetwork(t, s, plans, env) == r3;
      } else {
        assert CreateNetwork(t, s, plans, env) == Err(EmptyRandintRange);
      }
    }
  }
}

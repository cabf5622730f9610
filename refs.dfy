/**
 * The records the linking manager produces and the two building blocks all
 * of its passes share: picking a random set of target files with
 * `randint` and `sample`, and turning a list of targets into one labelled
 * reference each.
 */
module Refs {
  import opened Common
  import opened Oracle
  import opened Settings
  import opened Encoding

  /** `FileReference`: a directed, typed edge between two file names. */
  datatype FileReference = FileReference(source: string, target: string, refType: string, context: string)

  /**
   * `EncodedFile`. The salt is the base64 text the encoder reports in its
   * metadata (a `str`, although the field is annotated as bytes); the
   * manager's own `references` list is never filled.
   */
  datatype EncodedFile = EncodedFile(
    plan: FileGenerationPlan,
    content: seq<byte>,
    encoding: EncodingMethod,
    password: Option<string>,
    key: Option<string>,
    salt: Option<string>,
    references: seq<FileReference>)

  type Plan = FileGenerationPlan

  /** The exceptions that end `create_file_network`. */
  datatype NetworkError =
    | UnsupportedFileType(fileType: string)   // ValueError from the template factory
    | EmptyRandintRange                       // ValueError from `randint(2, 1)`
    | SenderWithoutDomain(sender: string)     // IndexError from `sender.split('@')[1]`

  /** `[p for p in plans if p.file_type in types]`. */
  function Where(plans: seq<Plan>, types: seq<string>): (r: seq<Plan>)
    ensures |r| <= |plans|
    ensures forall p :: p in r <==> p in plans && p.fileType in types
  {
    if plans == [] then []
    else
      var rest := Where(plans[..|plans| - 1], types);
      var last := plans[|plans| - 1];
      assert plans == plans[..|plans| - 1] + [last];
      if last.fileType in types then rest + [last] else rest
  }

  /** The groups `create_file_network` forms. */
  function Emails(plans: seq<Plan>): seq<Plan> { Where(plans, ["eml"]) }
  function Documents(plans: seq<Plan>): seq<Plan> { Where(plans, ["pdf", "docx", "txt"]) }
  function Spreadsheets(plans: seq<Plan>): seq<Plan> { Where(plans, ["xlsx", "csv"]) }
  function Images(plans: seq<Plan>): seq<Plan> { Where(plans, ["jpg", "png"]) }

  /** The file names of a list of plans, in order. */
  function Names(plans: seq<Plan>): (r: seq<string>)
    ensures |r| == |plans| && forall i :: 0 <= i < |plans| ==> r[i] == plans[i].filename
  {
    seq(|plans|, i requires 0 <= i < |plans| => plans[i].filename)
  }

  /** The names of a non-empty list: those of all but the last, then the last one's. */
  lemma NamesSnoc(plans: seq<Plan>)
    requires plans != []
    ensures Names(plans) == Names(plans[..|plans| - 1]) + [plans[|plans| - 1].filename]
  {
  }

  /** `[p for p in plans if p.filename != name]`. */
  function Others(plans: seq<Plan>, name: string): (r: seq<Plan>)
    ensures |r| <= |plans|
    ensures forall p :: p in r <==> p in plans && p.filename != name
  {
    if plans == [] then []
    else
      var rest := Others(plans[..|plans| - 1], name);
      var last := plans[|plans| - 1];
      assert plans == plans[..|plans| - 1] + [last];
      if last.filename != name then rest + [last] else rest
  }

  /** The plans at the sampled positions, in the order they were drawn. */
  function Chosen(pool: seq<Plan>, idx: seq<nat>): (r: seq<Plan>)
    requires forall i :: 0 <= i < |idx| ==> idx[i] < |pool|
    ensures |r| == |idx| && forall i :: 0 <= i < |idx| ==> r[i] == pool[idx[i]]
  {
    seq(|idx|, i requires 0 <= i < |idx| => pool[idx[i]])
  }

  lemma ChosenDistinct(pool: seq<Plan>, idx: seq<nat>)
    requires forall i :: 0 <= i < |idx| ==> idx[i] < |pool|
    requires Distinct(idx)
    ensures Distinct(Names(pool)) ==> Distinct(Names(Chosen(pool, idx)))
  {
    var c := Chosen(pool, idx);
    if Distinct(Names(pool)) {
      forall i, j | 0 <= i < j < |c| ensures Names(c)[i] != Names(c)[j] {
        assert idx[i] != idx[j];
        assert Names(pool)[idx[i]] != Names(pool)[idx[j]];
      }
    }
  }

  /**
   * `random.sample(pool, random.randint(lo, min(cap, len(pool))))`: between
   * `lo` and `min(cap, len(pool))` plans of the pool, none twice.
   */
  function DrawTargets(t: Tape, lo: nat, cap: nat, pool: seq<Plan>): (r: (seq<Plan>, Tape))
    requires 1 <= lo <= cap && lo <= |pool|
    ensures lo <= |r.0| <= Min(cap, |pool|)
    ensures forall x :: x in r.0 ==> x in pool
    ensures Distinct(Names(pool)) ==> Distinct(Names(r.0))
  {
    var (k, t1) := DrawInt(t, lo, Min(cap, |pool|));
    var (idx, t2) := DrawSample(t1, |pool|, k);
    assert forall i :: 0 <= i < |idx| ==> idx[i] in idx;
    ChosenDistinct(pool, idx);
    var c := Chosen(pool, idx);
    assert forall x :: x in c ==> x in pool by {
      forall x | x in c ensures x in pool {
        var i :| 0 <= i < |c| && c[i] == x;
        assert pool[idx[i]] == x;
      }
    }
    (c, t2)
  }

  /**
   * One reference from `src` to each target, in order, labelled with one of
   * `m` contexts drawn by `random.choice`; with `m == 0` the context is fixed
   * and nothing is drawn.
   */
  function Labelled(t: Tape, src: string, targets: seq<Plan>, refType: string,
                    m: nat, ctx: (nat, Plan) -> string): (r: (seq<FileReference>, Tape))
    ensures |r.0| == |targets|
    ensures forall i :: 0 <= i < |targets| ==>
      r.0[i].source == src && r.0[i].target == targets[i].filename && r.0[i].refType == refType
  {
    if targets == [] then ([], t)
    else
      var (e, t1) := Labelled(t, src, targets[..|targets| - 1], refType, m, ctx);
      var last := targets[|targets| - 1];
      var (k, t2) := if m == 0 then (0, t1) else DrawBelow(t1, m);
      (e + [FileReference(src, last.filename, refType, ctx(k, last))], t2)
  }

  /** Each label is one of the `m` contexts offered for its target (the fixed one when `m == 0`). */
  lemma {:induction false} LabelledContexts(t: Tape, src: string, targets: seq<Plan>, refType: string,
                                            m: nat, ctx: (nat, Plan) -> string, i: nat)
    requires i < |targets|
    ensures var e := Labelled(t, src, targets, refType, m, ctx).0;
      exists k :: 0 <= k < Max(m, 1) && e[i].context == ctx(k, targets[i])
    decreases |targets|
  {
    var n := |targets|;
    if i < n - 1 {
      LabelledContexts(t, src, targets[..n - 1], refType, m, ctx, i);
      assert targets[..n - 1][i] == targets[i];
    }
  }

  /** The targets of the references of one type, in order. */
  function TargetsOfType(edges: seq<FileReference>, refType: string): (r: seq<string>)
    ensures |r| <= |edges|
  {
    if edges == [] then []
    else
      var rest := TargetsOfType(edges[..|edges| - 1], refType);
      var last := edges[|edges| - 1];
      if last.refType == refType then rest + [last.target] else rest
  }

  lemma {:induction false} TargetsOfTypeAppend(a: seq<FileReference>, b: seq<FileReference>, refType: string)
    ensures TargetsOfType(a + b, refType) == TargetsOfType(a, refType) + TargetsOfType(b, refType)
    decreases |b|
  {
    if b == [] {
      assert a + b == a;
    } else {
      var n := |b|;
      assert (a + b)[..|a + b| - 1] == a + b[..n - 1];
      TargetsOfTypeAppend(a, b[..n - 1], refType);
    }
  }

  /** Labelled edges of one type list exactly the targets' names. */
  lemma {:induction false} LabelledTargets(t: Tape, src: string, targets: seq<Plan>, refType: string,
                                           m: nat, ctx: (nat, Plan) -> string)
    ensures TargetsOfType(Labelled(t, src, targets, refType, m, ctx).0, refType) == Names(targets)
    decreases |targets|
  {
    if targets != [] {
      var n := |targets|;
      LabelledTargets(t, src, targets[..n - 1], refType, m, ctx);
      var e := Labelled(t, src, targets[..n - 1], refType, m, ctx).0;
      var r := Labelled(t, src, targets, refType, m, ctx).0;
      assert r[..n - 1] == e;
      assert Names(targets) == Names(targets[..n - 1]) + [targets[n - 1].filename];
    }
  }

  /** The references whose source is `name`, in order: `get_file_references_for_file`. */
  function From(edges: seq<FileReference>, name: string): (r: seq<FileReference>)
    ensures |r| <= |edges|
    ensures forall e :: e in r <==> e in edges && e.source == name
  {
    if edges == [] then []
    else
      var rest := From(edges[..|edges| - 1], name);
      var last := edges[|edges| - 1];
      assert edges == edges[..|edges| - 1] + [last];
      if last.source == name then rest + [last] else rest
  }

  /** The references of one type, in order. */
  function OfType(edges: seq<FileReference>, refType: string): (r: seq<FileReference>)
    ensures |r| <= |edges|
    ensures forall e :: e in r <==> e in edges && e.refType == refType
  {
    if edges == [] then []
    else
      var rest := OfType(edges[..|edges| - 1], refType);
      var last := edges[|edges| - 1];
      assert edges == edges[..|edges| - 1] + [last];
      if last.refType == refType then rest + [last] else rest
  }

  /**
   * Filtering a concatenation filters each part and keeps them in order, so
   * the references of a file keep the order and the repetitions they were
   * created with.
   */
  lemma {:induction false} FromAppend(a: seq<FileReference>, b: seq<FileReference>, name: string)
    ensures From(a + b, name) == From(a, name) + From(b, name)
    decreases |b|
  {
    if b == [] {
      assert a + b == a;
    } else {
      var n := |b|;
      assert (a + b)[..|a + b| - 1] == a + b[..n - 1];
      assert (a + b)[|a + b| - 1] == b[n - 1];
      FromAppend(a, b[..n - 1], name);
    }
  }

  /** The same for the references of one type. */
  lemma {:induction false} OfTypeAppend(a: seq<FileReference>, b: seq<FileReference>, refType: string)
    ensures OfType(a + b, refType) == OfType(a, refType) + OfType(b, refType)
    decreases |b|
  {
    if b == [] {
      assert a + b == a;
    } else {
      var n := |b|;
      assert (a + b)[..|a + b| - 1] == a + b[..n - 1];
      assert (a + b)[|a + b| - 1] == b[n - 1];
      OfTypeAppend(a, b[..n - 1], refType);
    }
  }

  /** Every reference of a file, as many times as it was created. */
  lemma {:induction false} FromCounts(edges: seq<FileReference>, name: string, e: FileReference)
    requires e.source == name
    ensures multiset(From(edges, name))[e] == multiset(edges)[e]
    decreases |edges|
  {
    if edges != [] {
      var init := edges[..|edges| - 1];
      FromCounts(init, name, e);
      assert edges == init + [edges[|edges| - 1]];
    }
  }

  /** Every reference of a type, as many times as it was created. */
  lemma {:induction false} OfTypeCounts(edges: seq<FileReference>, refType: string, e: FileReference)
    requires e.refType == refType
    ensures multiset(OfType(edges, refType))[e] == multiset(edges)[e]
    decreases |edges|
  {
    if edges != [] {
      var init := edges[..|edges| - 1];
      OfTypeCounts(init, refType, e);
      assert edges == init + [edges[|edges| - 1]];
    }
  }
}

/**
 * The two reference passes that first sort files into groups kept in an
 * insertion-ordered dict and then link files inside each group: project
 * references (a random project per file) and version references (files whose
 * names agree once version markers and the extension are removed).
 */
module Groups {
  import opened Common
  import opened Oracle
  import opened Refs

  /** A `dict` from a group name to its files, in insertion order. */
  type Grouping = Dict<string, seq<Plan>>

  /** `groups.setdefault(key, []).append(p)`, written as the source does it. */
  function AddMember(g: Grouping, key: string, p: Plan): Grouping
  {
    DictPut(g, key, DictGet(g, key, []) + [p])
  }

  /** Every file of every group satisfies `P`. */
  ghost predicate AllMembers(g: Grouping, P: (string, Plan) -> bool)
  {
    forall j, x :: 0 <= j < |g| && x in g[j].1 ==> P(g[j].0, x)
  }

  /** Adding a member keeps the keys distinct and adds exactly that member under its key. */
  lemma AddMemberKeeps(g: Grouping, key: string, p: Plan, P: (string, Plan) -> bool)
    requires KeysDistinct(g) && AllMembers(g, P) && P(key, p)
    ensures KeysDistinct(AddMember(g, key, p)) && AllMembers(AddMember(g, key, p), P)
  {
    var r := AddMember(g, key, p);
    var old_ := DictGet(g, key, []);
    assert forall x :: x in old_ ==> P(key, x) by {
      match DictFind(g, key)
      case None =>
      case Some(i) =>
    }
    forall j, x | 0 <= j < |r| && x in r[j].1 ensures P(r[j].0, x) {
      match DictFind(g, key)
      case None =>
        if j < |g| { assert r[j] == g[j]; }
      case Some(i) =>
        if j != i { assert r[j] == g[j]; }
    }
  }

  /** After adding `p` under `key`, `p` is among the files read back for `key`. */
  lemma AddMemberFinds(g: Grouping, key: string, p: Plan, q: Plan, k: string)
    requires KeysDistinct(g)
    requires (q == p && k == key) || q in DictGet(g, k, [])
    ensures q in DictGet(AddMember(g, key, p), k, [])
  {
    DictGetPut(g, key, DictGet(g, key, []) + [p], k, []);
  }

  // ---------------------------------------------------------------------
  // _create_project_references

  const ProjectNames: seq<string> := ["Alpha", "Beta", "Gamma", "Delta", "Phoenix", "Titan", "Nova", "Apex"]

  /** Phase one: each file joins a random project with probability 70%. */
  function AssignProjects(t: Tape, files: seq<Plan>): (r: (Grouping, Tape))
    ensures KeysDistinct(r.0)
    ensures AllMembers(r.0, (name, x) => name in ProjectNames && x in files)
  {
    if files == [] then ([], t)
    else
      var n := |files|;
      var (g, t1) := AssignProjects(t, files[..n - 1]);
      var (joins, t2) := DrawChance(t1, 70);
      assert forall x :: x in files[..n - 1] ==> x in files;
      if joins then
        var (k, t3) := DrawBelow(t2, 8);
        AddMemberKeeps(g, ProjectNames[k], files[n - 1], (name, x) => name in ProjectNames && x in files);
        (AddMember(g, ProjectNames[k], files[n - 1]), t3)
      else (g, t2)
  }

  function ProjectContext(project: string): (nat, Plan) -> string
  {
    (k: nat, p: Plan) => "Project " + project + " file: " + p.filename
  }

  /** One file of a project: 1 or 2 of the project's files with another name. */
  function ProjectFileStep(t: Tape, project: string, file: Plan, members: seq<Plan>): (r: (seq<FileReference>, Tape))
  {
    var others := Others(members, file.filename);
    if |others| > 0 then
      var (chosen, t1) := DrawTargets(t, 1, 2, others);
      Labelled(t1, file.filename, chosen, "project_reference", 0, ProjectContext(project))
    else ([], t)
  }

  function ProjectGroupEdges(t: Tape, project: string, sources: seq<Plan>, members: seq<Plan>): (r: (seq<FileReference>, Tape))
  {
    if sources == [] then ([], t)
    else
      var (e, t1) := ProjectGroupEdges(t, project, sources[..|sources| - 1], members);
      var (e2, t2) := ProjectFileStep(t1, project, sources[|sources| - 1], members);
      (e + e2, t2)
  }

  /** Phase two: the groups in insertion order, skipping those with a single file. */
  function ProjectEdges(t: Tape, groups: Grouping): (r: (seq<FileReference>, Tape))
    ensures groups == [] ==> r == ([], t)
  {
    if groups == [] then ([], t)
    else
      var (e, t1) := ProjectEdges(t, groups[..|groups| - 1]);
      var (name, files) := groups[|groups| - 1];
      if |files| > 1 then
        var (e2, t2) := ProjectGroupEdges(t1, name, files, files);
        (e + e2, t2)
      else (e, t1)
  }

  /** One more project, in insertion order: linked only when it holds more than one file. */
  lemma ProjectEdgesSnoc(t: Tape, groups: Grouping, j: nat)
    requires j < |groups|
    ensures var prev := ProjectEdges(t, groups[..j]);
      var (project, files) := groups[j];
      ProjectEdges(t, groups[..j + 1])
        == if |files| > 1 then (prev.0 + ProjectGroupEdges(prev.1, project, files, files).0,
                                ProjectGroupEdges(prev.1, project, files, files).1)
           else prev
  {
    assert groups[..j + 1][..j] == groups[..j];
  }

  /** `_create_project_references`. */
  function ProjectReferences(t: Tape, files: seq<Plan>): (r: (seq<FileReference>, Tape))
    ensures files == [] ==> r == ([], t)
  {
    var (g, t1) := AssignProjects(t, files);
    ProjectEdges(t1, g)
  }

  /** An edge that links two different files of the same project, and says which project. */
  ghost predicate ProjectLink(e: FileReference, project: string, members: seq<Plan>)
  {
    e.source != e.target && e.refType == "project_reference"
    && e.source in Names(members) && e.target in Names(members)
    && e.context == "Project " + project + " file: " + e.target
  }

  /** A file of a project references 1 or 2 other files of it. */
  lemma ProjectFileFanOut(t: Tape, project: string, file: Plan, members: seq<Plan>)
    requires file in members
    ensures var e := ProjectFileStep(t, project, file, members).0;
      var others := Others(members, file.filename);
      (others != [] ==> 1 <= |e| <= Min(2, |others|))
      && (forall i :: 0 <= i < |e| ==> e[i].source == file.filename && ProjectLink(e[i], project, members))
  {
    var others := Others(members, file.filename);
    var fi :| 0 <= fi < |members| && members[fi] == file;
    assert Names(members)[fi] == file.filename;
    if |others| > 0 {
      var (chosen, t1) := DrawTargets(t, 1, 2, others);
      var e := Labelled(t1, file.filename, chosen, "project_reference", 0, ProjectContext(project)).0;
      forall i | 0 <= i < |e| ensures ProjectLink(e[i], project, members) {
        LabelledContexts(t1, file.filename, chosen, "project_reference", 0, ProjectContext(project), i);
        assert chosen[i] in others;
        var j :| 0 <= j < |members| && members[j] == chosen[i];
        assert Names(members)[j] == e[i].target;
      }
    }
  }

  lemma {:induction false} ProjectGroupLinks(t: Tape, project: string, sources: seq<Plan>, members: seq<Plan>)
    requires forall x :: x in sources ==> x in members
    ensures var e := ProjectGroupEdges(t, project, sources, members).0;
      forall i :: 0 <= i < |e| ==> ProjectLink(e[i], project, members)
    decreases |sources|
  {
    if sources != [] {
      var n := |sources|;
      ProjectGroupLinks(t, project, sources[..n - 1], members);
      assert var e0 := ProjectGroupEdges(t, project, sources[..n - 1], members).0;
        forall i :: 0 <= i < |e0| ==> ProjectLink(e0[i], project, members);
      var prev := ProjectGroupEdges(t, project, sources[..n - 1], members);
      var e, e2 := prev.0, ProjectFileStep(prev.1, project, sources[n - 1], members).0;
      ProjectFileFanOut(prev.1, project, sources[n - 1], members);
      var all := ProjectGroupEdges(t, project, sources, members).0;
      assert all == e + e2;
      forall i | 0 <= i < |all| ensures ProjectLink(all[i], project, members) {
        if i < |e| { assert all[i] == e[i]; } else { assert all[i] == e2[i - |e|]; }
      }
    }
  }

  /** The edge links two different files of one group, under that group's name. */
  ghost predicate WithinSomeGroup(e: FileReference, groups: Grouping)
  {
    exists j :: 0 <= j < |groups| && ProjectLink(e, groups[j].0, groups[j].1)
  }

  /** Every project edge links two different files of one project. */
  lemma {:induction false} ProjectEdgesWithinGroups(t: Tape, groups: Grouping, i: nat)
    requires i < |ProjectEdges(t, groups).0|
    ensures WithinSomeGroup(ProjectEdges(t, groups).0[i], groups)
    decreases |groups|
  {
    var n := |groups|;
    var prev := ProjectEdges(t, groups[..n - 1]);
    var name, files := groups[n - 1].0, groups[n - 1].1;
    var e2 := if |files| > 1 then ProjectGroupEdges(prev.1, name, files, files).0 else [];
    assert ProjectEdges(t, groups).0 == prev.0 + e2;
    if i < |prev.0| {
      ProjectEdgesWithinGroups(t, groups[..n - 1], i);
      WithinWider(prev.0[i], groups);
    } else {
      assert |files| > 1;
      ProjectGroupLinks(prev.1, name, files, files);
      assert var e0 := ProjectGroupEdges(prev.1, name, files, files).0;
        forall k :: 0 <= k < |e0| ==> ProjectLink(e0[k], name, files);
      assert ProjectLink(e2[i - |prev.0|], name, files);
      WithinLast(e2[i - |prev.0|], groups);
    }
  }

  lemma WithinLast(e: FileReference, groups: Grouping)
    requires groups != [] && ProjectLink(e, groups[|groups| - 1].0, groups[|groups| - 1].1)
    ensures WithinSomeGroup(e, groups)
  {
  }

  lemma WithinWider(e: FileReference, groups: Grouping)
    requires groups != [] && WithinSomeGroup(e, groups[..|groups| - 1])
    ensures WithinSomeGroup(e, groups)
  {
    var g := groups[..|groups| - 1];
    var j :| 0 <= j < |g| && ProjectLink(e, g[j].0, g[j].1);
    assert g[j] == groups[j];
  }

  /** The whole pass: no self-reference, and every edge stays inside one project of the files. */
  lemma ProjectReferencesSound(t: Tape, files: seq<Plan>)
    ensures var e := ProjectReferences(t, files).0;
      forall i :: 0 <= i < |e| ==>
        e[i].source != e[i].target && e[i].refType == "project_reference"
        && e[i].source in Names(files) && e[i].target in Names(files)
  {
    var (g, t1) := AssignProjects(t, files);
    var e := ProjectEdges(t1, g).0;
    forall i | 0 <= i < |e|
      ensures e[i].source != e[i].target && e[i].refType == "project_reference"
      ensures e[i].source in Names(files) && e[i].target in Names(files)
    {
      ProjectEdgesWithinGroups(t1, g, i);
      var j :| 0 <= j < |g| && ProjectLink(e[i], g[j].0, g[j].1);
      NamesWithin(g[j].1, files, e[i].source);
      NamesWithin(g[j].1, files, e[i].target);
    }
  }

  lemma NamesWithin(part: seq<Plan>, whole: seq<Plan>, name: string)
    requires forall x :: x in part ==> x in whole
    requires name in Names(part)
    ensures name in Names(whole)
  {
    var i :| 0 <= i < |part| && Names(part)[i] == name;
    assert part[i] in whole;
    var j :| 0 <= j < |whole| && whole[j] == part[i];
    assert Names(whole)[j] == name;
  }

  // ---------------------------------------------------------------------
  // _create_version_references

  const VersionIndicators: seq<string> := ["_v2", "_v3", "_final", "_draft", "_copy", "_backup", "_old"]

  /** Each indicator in turn removed everywhere with `str.replace`. */
  function StripIndicators(name: string, indicators: seq<string>): string
    requires forall i :: 0 <= i < |indicators| ==> |indicators[i]| > 0
    decreases |indicators|
  {
    if indicators == [] then name
    else StripIndicators(ReplaceAll(name, indicators[0], ""), indicators[1..])
  }

  /** `base_name.split('.')[0]` after the indicators are removed. */
  function VersionBase(name: string): (r: string)
    ensures '.' !in r
  {
    Split(StripIndicators(name, VersionIndicators), '.')[0]
  }

  /** The groups of files that share a version base, in order of first appearance. */
  function GroupByBase(files: seq<Plan>): (r: Grouping)
    ensures KeysDistinct(r)
    ensures AllMembers(r, (key: string, x: Plan) => key == VersionBase(x.filename) && x in files)
  {
    if files == [] then []
    else
      var n := |files|;
      var g := GroupByBase(files[..n - 1]);
      assert forall x :: x in files[..n - 1] ==> x in files;
      AddMemberKeeps(g, VersionBase(files[n - 1].filename), files[n - 1],
                     (key: string, x: Plan) => key == VersionBase(x.filename) && x in files);
      AddMember(g, VersionBase(files[n - 1].filename), files[n - 1])
  }

  /** Every file is filed under its own version base. */
  lemma {:induction false} GroupByBaseFinds(files: seq<Plan>, p: Plan)
    requires p in files
    ensures p in DictGet(GroupByBase(files), VersionBase(p.filename), [])
    decreases |files|
  {
    var n := |files|;
    var last := files[n - 1];
    if p != last {
      assert files == files[..n - 1] + [last];
      GroupByBaseFinds(files[..n - 1], p);
    }
    AddMemberFinds(GroupByBase(files[..n - 1]), VersionBase(last.filename), last, p, VersionBase(p.filename));
  }

  function VersionContext(k: nat, p: Plan): string
  {
    var f := p.filename;
    if k == 0 then "Previous version: " + f
    else if k == 1 then "Updated version of: " + f
    else if k == 2 then "See also version: " + f
    else if k == 3 then "Replaces: " + f
    else "Related version: " + f
  }

  /** One file of a version group: an edge to every member with another name, each with a context choice. */
  function VersionFileEdges(t: Tape, file: Plan, members: seq<Plan>): (r: (seq<FileReference>, Tape))
  {
    Labelled(t, file.filename, Others(members, file.filename), "version_reference", 5, VersionContext)
  }

  function VersionGroupEdges(t: Tape, sources: seq<Plan>, members: seq<Plan>): (r: (seq<FileReference>, Tape))
  {
    if sources == [] then ([], t)
    else
      var (e, t1) := VersionGroupEdges(t, sources[..|sources| - 1], members);
      var (e2, t2) := VersionFileEdges(t1, sources[|sources| - 1], members);
      (e + e2, t2)
  }

  function VersionEdges(t: Tape, groups: Grouping): (r: (seq<FileReference>, Tape))
    ensures groups == [] ==> r == ([], t)
  {
    if groups == [] then ([], t)
    else
      var (e, t1) := VersionEdges(t, groups[..|groups| - 1]);
      var files := groups[|groups| - 1].1;
      if |files| > 1 then
        var (e2, t2) := VersionGroupEdges(t1, files, files);
        (e + e2, t2)
      else (e, t1)
  }

  /** One more group, in insertion order: linked only when it holds more than one file. */
  lemma VersionEdgesSnoc(t: Tape, groups: Grouping, j: nat)
    requires j < |groups|
    ensures var prev := VersionEdges(t, groups[..j]);
      var files := groups[j].1;
      VersionEdges(t, groups[..j + 1])
        == if |files| > 1 then (prev.0 + VersionGroupEdges(prev.1, files, files).0, VersionGroupEdges(prev.1, files, files).1)
           else prev
  {
    assert groups[..j + 1][..j] == groups[..j];
  }

  /** `_create_version_references`. */
  function VersionReferences(t: Tape, files: seq<Plan>): (r: (seq<FileReference>, Tape))
    ensures files == [] ==> r == ([], t)
  {
    VersionEdges(t, GroupByBase(files))
  }

  /** Some version edge goes from `src` to `dst`. */
  ghost predicate VersionLinked(e: seq<FileReference>, src: string, dst: string)
  {
    exists i :: 0 <= i < |e| && e[i].source == src && e[i].target == dst && e[i].refType == "version_reference"
  }

  lemma LinkedAppend(a: seq<FileReference>, b: seq<FileReference>, src: string, dst: string)
    requires VersionLinked(a, src, dst) || VersionLinked(b, src, dst)
    ensures VersionLinked(a + b, src, dst)
  {
    if VersionLinked(a, src, dst) {
      var i :| 0 <= i < |a| && a[i].source == src && a[i].target == dst && a[i].refType == "version_reference";
      assert (a + b)[i] == a[i];
    } else {
      var i :| 0 <= i < |b| && b[i].source == src && b[i].target == dst && b[i].refType == "version_reference";
      assert (a + b)[|a| + i] == b[i];
    }
  }

  /** A file of a group links to every member with another name. */
  lemma VersionFileLinks(t: Tape, file: Plan, members: seq<Plan>, other: Plan)
    requires other in members && other.filename != file.filename
    ensures VersionLinked(VersionFileEdges(t, file, members).0, file.filename, other.filename)
  {
    var others := Others(members, file.filename);
    var e := VersionFileEdges(t, file, members).0;
    LabelledTargets(t, file.filename, others, "version_reference", 5, VersionContext);
    var j :| 0 <= j < |others| && others[j] == other;
    assert e[j].target == other.filename;
  }

  lemma {:induction false} VersionGroupLinks(t: Tape, sources: seq<Plan>, members: seq<Plan>, a: Plan, b: Plan)
    requires a in sources && b in members && a.filename != b.filename
    ensures VersionLinked(VersionGroupEdges(t, sources, members).0, a.filename, b.filename)
    decreases |sources|
  {
    var n := |sources|;
    var prev := VersionGroupEdges(t, sources[..n - 1], members);
    var last := VersionFileEdges(prev.1, sources[n - 1], members).0;
    assert VersionGroupEdges(t, sources, members).0 == prev.0 + last;
    if a == sources[n - 1] {
      VersionFileLinks(prev.1, a, members, b);
    } else {
      InPrefix(sources, a);
      VersionGroupLinks(t, sources[..n - 1], members, a, b);
    }
    LinkedAppend(prev.0, last, a.filename, b.filename);
  }

  lemma {:induction false} VersionEdgesLinks(t: Tape, groups: Grouping, j: nat, a: Plan, b: Plan)
    requires j < |groups| && a in groups[j].1 && b in groups[j].1 && a.filename != b.filename
    ensures VersionLinked(VersionEdges(t, groups).0, a.filename, b.filename)
    decreases |groups|
  {
    var n := |groups|;
    var prev := VersionEdges(t, groups[..n - 1]);
    var files := groups[n - 1].1;
    if j == n - 1 {
      assert |files| > 1 by {
        var ia :| 0 <= ia < |files| && files[ia] == a;
        var ib :| 0 <= ib < |files| && files[ib] == b;
        assert ia != ib;
      }
      VersionGroupLinks(prev.1, files, files, a, b);
      LinkedAppend(prev.0, VersionGroupEdges(prev.1, files, files).0, a.filename, b.filename);
    } else {
      assert groups[..n - 1][j] == groups[j];
      VersionEdgesLinks(t, groups[..n - 1], j, a, b);
      if |files| > 1 {
        LinkedAppend(prev.0, VersionGroupEdges(prev.1, files, files).0, a.filename, b.filename);
      }
    }
  }

  /**
   * All ordered pairs are linked: two files with different names and the
   * same version base get an edge from each to the other.
   */
  lemma VersionPairsLinked(t: Tape, files: seq<Plan>, a: Plan, b: Plan)
    requires a in files && b in files
    requires VersionBase(a.filename) == VersionBase(b.filename) && a.filename != b.filename
    ensures VersionLinked(VersionReferences(t, files).0, a.filename, b.filename)
  {
    var g := GroupByBase(files);
    var key := VersionBase(a.filename);
    GroupByBaseFinds(files, a);
    GroupByBaseFinds(files, b);
    assert DictFind(g, key).Some?;
    var j := DictFind(g, key).value;
    VersionEdgesLinks(t, g, j, a, b);
  }

  /** The edge links two different files of one version group. */
  ghost predicate VersionLink(e: FileReference, members: seq<Plan>)
  {
    e.source != e.target && e.refType == "version_reference"
    && e.source in Names(members) && e.target in Names(members)
  }

  /** A file of a group links only to other members. */
  lemma VersionFileSound(t: Tape, file: Plan, members: seq<Plan>)
    requires file in members
    ensures var e := VersionFileEdges(t, file, members).0;
      forall i :: 0 <= i < |e| ==> VersionLink(e[i], members)
  {
    var others := Others(members, file.filename);
    var e := VersionFileEdges(t, file, members).0;
    var fi :| 0 <= fi < |members| && members[fi] == file;
    assert Names(members)[fi] == file.filename;
    forall i | 0 <= i < |e| ensures VersionLink(e[i], members) {
      assert others[i] in others;
      var j :| 0 <= j < |members| && members[j] == others[i];
      assert Names(members)[j] == e[i].target;
    }
  }

  lemma {:induction false} VersionGroupSound(t: Tape, sources: seq<Plan>, members: seq<Plan>)
    requires forall x :: x in sources ==> x in members
    ensures var e := VersionGroupEdges(t, sources, members).0;
      forall i :: 0 <= i < |e| ==> VersionLink(e[i], members)
    decreases |sources|
  {
    if sources != [] {
      var n := |sources|;
      VersionGroupSound(t, sources[..n - 1], members);
      assert var e0 := VersionGroupEdges(t, sources[..n - 1], members).0;
        forall i :: 0 <= i < |e0| ==> VersionLink(e0[i], members);
      var prev := VersionGroupEdges(t, sources[..n - 1], members);
      var e2 := VersionFileEdges(prev.1, sources[n - 1], members).0;
      VersionFileSound(prev.1, sources[n - 1], members);
      assert VersionGroupEdges(t, sources, members).0 == prev.0 + e2;
      VersionLinksAppend(prev.0, e2, members);
    }
  }

  lemma VersionLinksAppend(a: seq<FileReference>, b: seq<FileReference>, members: seq<Plan>)
    requires forall i :: 0 <= i < |a| ==> VersionLink(a[i], members)
    requires forall i :: 0 <= i < |b| ==> VersionLink(b[i], members)
    ensures forall i :: 0 <= i < |a + b| ==> VersionLink((a + b)[i], members)
  {
    forall i | 0 <= i < |a + b| ensures VersionLink((a + b)[i], members) {
      if i < |a| { assert (a + b)[i] == a[i]; } else { assert (a + b)[i] == b[i - |a|]; }
    }
  }

  /** The edge links two different files of one of the groups. */
  ghost predicate InSomeVersionGroup(e: FileReference, groups: Grouping)
  {
    exists j :: 0 <= j < |groups| && VersionLink(e, groups[j].1)
  }

  /** Every version edge links two different files of one group. */
  lemma {:induction false} VersionEdgesWithinGroups(t: Tape, groups: Grouping, i: nat)
    requires i < |VersionEdges(t, groups).0|
    ensures InSomeVersionGroup(VersionEdges(t, groups).0[i], groups)
    decreases |groups|
  {
    var n := |groups|;
    var prev := VersionEdges(t, groups[..n - 1]);
    var files := groups[n - 1].1;
    var e2 := if |files| > 1 then VersionGroupEdges(prev.1, files, files).0 else [];
    assert VersionEdges(t, groups).0 == prev.0 + e2;
    if i < |prev.0| {
      VersionEdgesWithinGroups(t, groups[..n - 1], i);
      VersionWithinWider(prev.0[i], groups);
    } else {
      assert |files| > 1;
      VersionGroupSound(prev.1, files, files);
      assert var e0 := VersionGroupEdges(prev.1, files, files).0;
        forall k :: 0 <= k < |e0| ==> VersionLink(e0[k], files);
      assert VersionLink(e2[i - |prev.0|], files);
      VersionWithinLast(e2[i - |prev.0|], groups);
    }
  }

  lemma VersionWithinLast(e: FileReference, groups: Grouping)
    requires groups != [] && VersionLink(e, groups[|groups| - 1].1)
    ensures InSomeVersionGroup(e, groups)
  {
  }

  lemma VersionWithinWider(e: FileReference, groups: Grouping)
    requires groups != [] && InSomeVersionGroup(e, groups[..|groups| - 1])
    ensures InSomeVersionGroup(e, groups)
  {
    var g := groups[..|groups| - 1];
    var j :| 0 <= j < |g| && VersionLink(e, g[j].1);
    assert g[j] == groups[j];
  }

  /**
   * The converse of `VersionPairsLinked`: every edge of the pass joins two
   * different files of the list that share a version base.
   */
  lemma VersionReferencesSound(t: Tape, files: seq<Plan>)
    ensures var e := VersionReferences(t, files).0;
      forall i :: 0 <= i < |e| ==>
        e[i].source != e[i].target && e[i].refType == "version_reference"
        && e[i].source in Names(files) && e[i].target in Names(files)
        && VersionBase(e[i].source) == VersionBase(e[i].target)
  {
    var g := GroupByBase(files);
    var e := VersionEdges(t, g).0;
    forall i | 0 <= i < |e|
      ensures e[i].source != e[i].target && e[i].refType == "version_reference"
      ensures e[i].source in Names(files) && e[i].target in Names(files)
      ensures VersionBase(e[i].source) == VersionBase(e[i].target)
    {
      VersionEdgesWithinGroups(t, g, i);
      var j :| 0 <= j < |g| && VersionLink(e[i], g[j].1);
      var members := g[j].1;
      var a :| 0 <= a < |members| && Names(members)[a] == e[i].source;
      var b :| 0 <= b < |members| && Names(members)[b] == e[i].target;
      assert members[a] in members && members[b] in members;
      assert VersionBase(members[a].filename) == g[j].0 == VersionBase(members[b].filename);
      NamesWithin(members, files, e[i].source);
      NamesWithin(members, files, e[i].target);
    }
  }
}

/** Cargo manifests as the scripts see them, and the crates of a workspace. */
module Manifests {
  import opened Basics
  import opened Graphs

  datatype Kind = Direct | Dev | Build

  /** The value of a dependency entry: a bare version string, or a table of fields. */
  datatype Info = Plain(text: string) | Fields(fields: map<string, string>)

  /** One dependency table, in file order. A table that the manifest does not have is empty. */
  datatype Table = Table(names: seq<Name>, infos: map<Name, Info>) {
    ghost predicate Valid() {
      NoDup(names) && (forall n :: n in names <==> n in infos)
    }
  }

  datatype Section = Section(direct: Table, dev: Table, build: Table) {
    ghost predicate Valid() {
      direct.Valid() && dev.Valid() && build.Valid()
    }

    function Of(k: Kind): Table {
      match k case Direct => direct case Dev => dev case Build => build
    }

    function With(k: Kind, t: Table): Section {
      match k case Direct => this.(direct := t) case Dev => this.(dev := t) case Build => this.(build := t)
    }
  }

  /** `package.version`: missing, given here, or a table with a `workspace` flag. */
  datatype PackageVersion = NoVersion | Literal(text: string) | Inherited(workspace: bool)

  datatype Manifest = Manifest(
    name: Name,
    publish: Option<bool>,
    version: PackageVersion,
    section: Section,
    targetNames: seq<string>,
    targets: map<string, Section>)
  {
    ghost predicate Valid() {
      && section.Valid()
      && NoDup(targetNames) && (forall t :: t in targetNames <==> t in targets)
      && forall t | t in targets :: targets[t].Valid()
    }
  }

  /** `manifest_key`: the path to a dependency entry. */
  datatype Key = Key(target: Option<string>, kind: Kind, name: Name)

  function KeysIn(target: Option<string>, kind: Kind, names: seq<Name>): seq<Key> {
    seq(|names|, i requires 0 <= i < |names| => Key(target, kind, names[i]))
  }

  /** `get_deps_in` */
  function DepsIn(s: Section, target: Option<string>): seq<Key> {
    KeysIn(target, Direct, s.direct.names) + KeysIn(target, Dev, s.dev.names) + KeysIn(target, Build, s.build.names)
  }

  function TargetSection(m: Manifest, t: string): Section {
    if t in m.targets then m.targets[t] else Section(Table([], map[]), Table([], map[]), Table([], map[]))
  }

  function TargetDeps(m: Manifest, ts: seq<string>): seq<Key> {
    if ts == [] then [] else
      TargetDeps(m, ts[..|ts| - 1]) + DepsIn(TargetSection(m, ts[|ts| - 1]), Some(ts[|ts| - 1]))
  }

  /** `crate_deps`: all dependency entries, the top-level tables first, then target by target. */
  function CrateDeps(m: Manifest): seq<Key> {
    DepsIn(m.section, None) + TargetDeps(m, m.targetNames)
  }

  // ---- reading through a key ----

  /** The table that a key points into exists. */
  predicate HasSection(m: Manifest, target: Option<string>) {
    target.Some? ==> target.value in m.targets
  }

  function SectionAt(m: Manifest, target: Option<string>): Section
    requires HasSection(m, target)
  {
    if target.Some? then m.targets[target.value] else m.section
  }

  predicate HasEntry(m: Manifest, k: Key) {
    HasSection(m, k.target) && k.name in SectionAt(m, k.target).Of(k.kind).infos
  }

  /** `get_info_in_manifest` */
  function Lookup(m: Manifest, k: Key): Info
    requires HasEntry(m, k)
  {
    SectionAt(m, k.target).Of(k.kind).infos[k.name]
  }

  lemma KeysInMember(target: Option<string>, kind: Kind, names: seq<Name>, k: Key)
    ensures k in KeysIn(target, kind, names) <==> k.target == target && k.kind == kind && k.name in names
  {
    var ks := KeysIn(target, kind, names);
    forall i | 0 <= i < |names|
      ensures ks[i] == Key(target, kind, names[i])
    {
    }
    if k.target == target && k.kind == kind && k.name in names {
      var i :| 0 <= i < |names| && names[i] == k.name;
      assert ks[i] == k;
    }
  }

  lemma DepsInMember(s: Section, target: Option<string>, k: Key)
    requires s.Valid()
    ensures k in DepsIn(s, target) <==> k.target == target && k.name in s.Of(k.kind).infos
  {
    hide KeysIn;
    KeysInMember(target, Direct, s.direct.names, k);
    KeysInMember(target, Dev, s.dev.names, k);
    KeysInMember(target, Build, s.build.names, k);
  }

  lemma {:induction false} TargetDepsMember(m: Manifest, ts: seq<string>, k: Key)
    requires m.Valid() && forall t | t in ts :: t in m.targets
    ensures k in TargetDeps(m, ts) <==> k.target.Some? && k.target.value in ts && HasEntry(m, k)
  {
    hide DepsIn, Table.Valid;
    if ts != [] {
      var r, t := ts[..|ts| - 1], ts[|ts| - 1];
      assert ts == r + [t];
      TargetDepsMember(m, r, k);
      DepsInMember(TargetSection(m, t), Some(t), k);
    }
  }

  /** `crate_deps` yields every entry of every table, target-specific tables included, and nothing else. */
  lemma CrateDepsComplete(m: Manifest, k: Key)
    requires m.Valid()
    ensures k in CrateDeps(m) <==> HasEntry(m, k)
  {
    hide DepsIn, Table.Valid;
    TargetDepsMember(m, m.targetNames, k);
    DepsInMember(m.section, None, k);
  }

  lemma NoDupJoin(a: seq<Key>, b: seq<Key>)
    requires NoDup(a) && NoDup(b) && forall k | k in a :: k !in b
    ensures NoDup(a + b)
  {
    forall i, j | 0 <= i < j < |a + b|
      ensures (a + b)[i] != (a + b)[j]
    {
      if i < |a| && j >= |a| { assert a[i] in a && b[j - |a|] in b; }
    }
  }

  lemma DepsInNoDup(s: Section, target: Option<string>)
    requires s.Valid()
    ensures NoDup(DepsIn(s, target))
  {
    var a, b := KeysIn(target, Direct, s.direct.names), KeysIn(target, Dev, s.dev.names);
    var c := KeysIn(target, Build, s.build.names);
    assert NoDup(a) && NoDup(b) && NoDup(c);
    forall k
      ensures k in a ==> k !in b
      ensures k in a + b ==> k !in c
    {
      KeysInMember(target, Direct, s.direct.names, k);
      KeysInMember(target, Dev, s.dev.names, k);
      KeysInMember(target, Build, s.build.names, k);
    }
    hide KeysIn, NoDup;
    NoDupJoin(a, b);
    NoDupJoin(a + b, c);
  }

  lemma {:induction false} TargetDepsNoDup(m: Manifest, ts: seq<string>)
    requires m.Valid() && NoDup(ts) && forall t | t in ts :: t in m.targets
    ensures NoDup(TargetDeps(m, ts))
  {
    hide DepsIn, Section.Valid;
    if ts != [] {
      var r, t := ts[..|ts| - 1], ts[|ts| - 1];
      assert ts == r + [t] && t !in r;
      TargetDepsNoDup(m, r);
      DepsInNoDup(TargetSection(m, t), Some(t));
      forall k
        ensures k in TargetDeps(m, r) ==> k !in DepsIn(TargetSection(m, t), Some(t))
      {
        TargetDepsMember(m, r, k);
        DepsInMember(TargetSection(m, t), Some(t), k);
      }
      NoDupJoin(TargetDeps(m, r), DepsIn(TargetSection(m, t), Some(t)));
    }
  }

  /** No entry is yielded twice. (A name may be: entries of different tables are different entries.) */
  lemma CrateDepsNoDup(m: Manifest)
    requires m.Valid()
    ensures NoDup(CrateDeps(m))
  {
    hide DepsIn, TargetDeps, Section.Valid;
    DepsInNoDup(m.section, None);
    TargetDepsNoDup(m, m.targetNames);
    forall k
      ensures k in DepsIn(m.section, None) ==> k !in TargetDeps(m, m.targetNames)
    {
      TargetDepsMember(m, m.targetNames, k);
      DepsInMember(m.section, None, k);
    }
    NoDupJoin(DepsIn(m.section, None), TargetDeps(m, m.targetNames));
  }

  // ---- workspaces ----

  /** `get_workspace_crates`: manifests by package name, in workspace order. */
  datatype Workspace = Workspace(order: seq<Name>, crates: map<Name, Manifest>) {
    ghost predicate Valid() {
      && NoDup(order) && (forall n :: n in order <==> n in crates)
      && forall n | n in crates :: crates[n].Valid() && crates[n].name == n
    }

    function Publish(n: Name): Option<bool> {
      if n in crates then crates[n].publish else None
    }

    predicate Publishable(n: Name) {
      Publish(n) == Some(true)
    }
  }

  function KeyNames(ks: seq<Key>): seq<Name> {
    seq(|ks|, i requires 0 <= i < |ks| => ks[i].name)
  }

  /** The names `crate_deps` yields, repeats included. */
  function DepNames(m: Manifest): seq<Name> {
    KeyNames(CrateDeps(m))
  }

  /** The keys among `ks` that name `n`. */
  ghost function Naming(ks: seq<Key>, n: Name): set<Key> {
    set k | k in ks && k.name == n
  }

  lemma NamingStep(r: seq<Key>, x: Key, n: Name)
    requires x !in r
    ensures |Naming(r + [x], n)| == |Naming(r, n)| + if x.name == n then 1 else 0
  {
    if x.name == n {
      assert Naming(r + [x], n) == Naming(r, n) + {x};
    } else {
      assert Naming(r + [x], n) == Naming(r, n);
    }
  }

  lemma LastKeyIsNew(ks: seq<Key>)
    requires NoDup(ks) && ks != []
    ensures NoDup(ks[..|ks| - 1]) && ks[|ks| - 1] !in ks[..|ks| - 1]
    ensures KeyNames(ks) == KeyNames(ks[..|ks| - 1]) + [ks[|ks| - 1].name]
  {
  }

  lemma {:induction false} KeyNamesCount(ks: seq<Key>, n: Name)
    requires NoDup(ks)
    ensures multiset(KeyNames(ks))[n] == |Naming(ks, n)|
  {
    hide Naming, NoDup;
    if ks == [] {
      assert Naming(ks, n) == {} by { NamingNone(n); }
    } else {
      var r, x := ks[..|ks| - 1], ks[|ks| - 1];
      LastKeyIsNew(ks);
      KeyNamesCount(r, n);
      NamingStep(r, x, n);
      assert ks == r + [x];
    }
  }

  lemma NamingNone(n: Name)
    ensures Naming([], n) == {}
  {
  }

  /** A crate is listed once for each entry that names it, as a crate that is a normal and a dev dependency is twice. */
  lemma DepNamesCount(m: Manifest, n: Name)
    requires m.Valid()
    ensures multiset(DepNames(m))[n] == |Naming(CrateDeps(m), n)|
  {
    hide CrateDeps, Manifest.Valid;
    CrateDepsNoDup(m);
    KeyNamesCount(CrateDeps(m), n);
  }

  lemma {:induction false} WithinCount(names: seq<Name>, known: set<Name>, n: Name)
    ensures multiset(Within(names, known))[n] == if n in known then multiset(names)[n] else 0
  {
    if names != [] {
      var r, x := names[..|names| - 1], names[|names| - 1];
      assert names == r + [x];
      WithinCount(r, known, n);
    }
  }

  /** In the graph that is walked, a kept crate is listed once for each entry that names it. */
  lemma InducedCount(ws: Workspace, order: seq<Name>, a: Name, b: Name)
    requires ws.Valid() && (forall n | n in order :: n in ws.crates) && a in order && b in order
    ensures a in InducedGraph(ws, order).deps
    ensures multiset(InducedGraph(ws, order).deps[a])[b] == |Naming(CrateDeps(ws.crates[a]), b)|
  {
    hide CrateDeps, DepNames;
    WithinCount(DepNames(ws.crates[a]), Elements(order), b);
    DepNamesCount(ws.crates[a], b);
  }

  /** The manifest has an entry for `n` in some table: normal, dev or build, top-level or of a target. */
  ghost predicate DependsOn(m: Manifest, n: Name) {
    exists k :: HasEntry(m, k) && k.name == n
  }

  /** The names looked at are those of the entries, whichever table they stand in. */
  lemma DepNamesComplete(m: Manifest, n: Name)
    requires m.Valid()
    ensures n in DepNames(m) <==> DependsOn(m, n)
  {
    hide CrateDeps, HasEntry, Manifest.Valid;
    var ks := CrateDeps(m);
    if n in DepNames(m) {
      var i :| 0 <= i < |ks| && ks[i].name == n && KeyNames(ks)[i] == n;
      CrateDepsComplete(m, ks[i]);
    }
    if DependsOn(m, n) {
      var k :| HasEntry(m, k) && k.name == n;
      CrateDepsComplete(m, k);
      var i :| 0 <= i < |ks| && ks[i] == k;
      assert DepNames(m)[i] == n;
    }
  }

  function Within(names: seq<Name>, known: set<Name>): seq<Name> {
    if names == [] then [] else
      var n := names[|names| - 1];
      Within(names[..|names| - 1], known) + if n in known then [n] else []
  }

  lemma {:induction false} WithinMember(names: seq<Name>, known: set<Name>, n: Name)
    ensures n in Within(names, known) <==> n in names && n in known
  {
    if names != [] {
      var r := names[..|names| - 1];
      assert names == r + [names[|names| - 1]];
      WithinMember(r, known, n);
    }
  }

  /** The dependency lists of the crates in `order`, cut down to `order` itself. */
  function InducedGraph(ws: Workspace, order: seq<Name>): Graph
    requires forall n | n in order :: n in ws.crates
  {
    var known := Elements(order);
    Graph(order, map n | n in known :: Within(DepNames(ws.crates[n]), known))
  }

  /** `a` lists `b`, and both are crates of the workspace. */
  predicate Lists(ws: Workspace, a: Name, b: Name) {
    a in ws.crates && b in ws.crates && b in DepNames(ws.crates[a])
  }

  lemma InducedEdge(ws: Workspace, order: seq<Name>, a: Name, b: Name)
    requires forall n | n in order :: n in ws.crates
    ensures Edge(InducedGraph(ws, order), a, b) <==> a in order && b in order && Lists(ws, a, b)
  {
    var known := Elements(order);
    if a in order {
      WithinMember(DepNames(ws.crates[a]), known, b);
    }
  }

  /** In terms of the manifests: an edge is an entry of one kept crate that names another. */
  lemma InducedEdgeMeans(ws: Workspace, order: seq<Name>, a: Name, b: Name)
    requires ws.Valid() && forall n | n in order :: n in ws.crates
    ensures Edge(InducedGraph(ws, order), a, b) <==> a in order && b in order && DependsOn(ws.crates[a], b)
  {
    hide InducedGraph, DepNames, DependsOn;
    InducedEdge(ws, order, a, b);
    if a in order { DepNamesComplete(ws.crates[a], b); }
  }

  /** An induced graph never misses a node. */
  lemma InducedComplete(ws: Workspace, order: seq<Name>)
    requires NoDup(order) && forall n | n in order :: n in ws.crates
    ensures InducedGraph(ws, order).Valid() && InducedGraph(ws, order).Missing() == {}
  {
    var g := InducedGraph(ws, order);
    forall n, d | n in g.deps && d in g.deps[n]
      ensures d in g.deps
    {
      assert Edge(g, n, d);
      InducedEdge(ws, order, n, d);
    }
  }

  /** All crates of the workspace with all their workspace dependencies. */
  function WorkspaceGraph(ws: Workspace): Graph
    requires forall n | n in ws.order :: n in ws.crates
  {
    InducedGraph(ws, ws.order)
  }
}

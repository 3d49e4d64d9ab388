/** `publish` up to the walk: sort, drop what crates.io already has, build the graph of the rest. */
module Publishing {
  import opened Basics
  import opened Graphs
  import opened Manifests
  import opened Sanitize
  import opened Sorting
  import opened PublishFlags

  /** What crates.io answers when asked whether a crate exists in the version being published. */
  datatype Reply = Answer(published: bool) | RequestFailed

  ghost predicate Truthful(ask: Name -> Reply, registry: set<Name>) {
    forall n | ask(n).Answer? :: ask(n).published <==> n in registry
  }

  /** How far `publish` gets. */
  datatype Plan =
    | SelfDependencyFound            // AssertionError while sorting
    | FlagsMissing(names: seq<Name>) // `ctx.finish` exits
    | LookupFailed                   // exception from the crates.io request
    | NothingToPublish
    | Refused(verdict: Verdict)      // the DAG constructor raises
    | Walking(g: Graph)

  /** The crates of `names` outside `registry`, in order. */
  function Outside(names: seq<Name>, registry: set<Name>): seq<Name> {
    if names == [] then [] else
      var n := names[|names| - 1];
      Outside(names[..|names| - 1], registry) + if n in registry then [] else [n]
  }

  lemma {:induction false} OutsideMember(names: seq<Name>, registry: set<Name>, n: Name)
    ensures n in Outside(names, registry) <==> n in names && n !in registry
  {
    if names != [] {
      var r := names[..|names| - 1];
      assert names == r + [names[|names| - 1]];
      OutsideMember(r, registry, n);
    }
  }

  lemma {:induction false} OutsideNoDup(names: seq<Name>, registry: set<Name>)
    requires NoDup(names)
    ensures NoDup(Outside(names, registry))
  {
    if names != [] {
      var r, n := names[..|names| - 1], names[|names| - 1];
      assert names == r + [n];
      OutsideNoDup(r, registry);
      OutsideMember(r, registry, n);
    }
  }

  lemma {:induction false} OutsidePrecedes(names: seq<Name>, registry: set<Name>, b: Name, a: Name)
    requires Precedes(names, b, a) && a !in registry && b !in registry
    ensures Precedes(Outside(names, registry), b, a)
  {
    var i, j :| 0 <= i < j < |names| && names[i] == b && names[j] == a;
    var r := names[..|names| - 1];
    var f := Outside(r, registry);
    assert r[i] == b;
    if j < |r| {
      assert r[j] == a;
      OutsidePrecedes(r, registry, b, a);
      var i', j' :| 0 <= i' < j' < |f| && f[i'] == b && f[j'] == a;
      assert Outside(names, registry)[i'] == b && Outside(names, registry)[j'] == a;
    } else {
      OutsideMember(r, registry, b);
      var i' :| 0 <= i' < |f| && f[i'] == b;
      assert Outside(names, registry)[i'] == b && Outside(names, registry)[|f|] == a;
    }
  }

  /** What is left keeps its order, loses nothing but what is published, and gains nothing. */
  lemma OutsideMeans(names: seq<Name>, registry: set<Name>)
    requires NoDup(names)
    ensures NoDup(Outside(names, registry))
    ensures forall n :: n in Outside(names, registry) <==> n in names && n !in registry
    ensures forall a, b | a !in registry && b !in registry && Precedes(names, b, a) ::
              Precedes(Outside(names, registry), b, a)
  {
    hide NoDup, Precedes, Outside;
    OutsideNoDup(names, registry);
    forall n
      ensures n in Outside(names, registry) <==> n in names && n !in registry
    {
      OutsideMember(names, registry, n);
    }
    forall a, b | a !in registry && b !in registry && Precedes(names, b, a)
      ensures Precedes(Outside(names, registry), b, a)
    {
      OutsidePrecedes(names, registry, b, a);
    }
  }

  /** The filter at the start of `publish_unpublished_crates_in_parallel`. None: a request failed. */
  method CollectUnpublished(all: seq<Name>, ask: Name -> Reply, ghost registry: set<Name>)
    returns (r: Option<seq<Name>>)
    requires Truthful(ask, registry)
    ensures r.None? <==> exists n :: n in all && ask(n).RequestFailed?
    ensures r.Some? ==> r.value == Outside(all, registry)
  {
    var unpublished := [];
    for k := 0 to |all|
      invariant unpublished == Outside(all[..k], registry)
      invariant forall n | n in all[..k] :: ask(n).Answer?
    {
      var reply := ask(all[k]);
      if reply.RequestFailed? { return None; }
      assert all[..k + 1][..k] == all[..k];
      if !reply.published { unpublished := unpublished + [all[k]]; }
    }
    assert all[..|all|] == all;
    return Some(unpublished);
  }

  /** The inner loop that collects one adjacency list. */
  method DependenciesAmong(m: Manifest, order: seq<Name>) returns (dependencies: seq<Name>)
    ensures dependencies == Within(DepNames(m), Elements(order))
  {
    hide DepNames;
    var names := DepNames(m);
    dependencies := [];
    for k := 0 to |names|
      invariant dependencies == Within(names[..k], Elements(order))
    {
      assert names[..k + 1][..k] == names[..k];
      if names[k] in order { dependencies := dependencies + [names[k]]; }
    }
    assert names[..|names|] == names;
  }

  /** The dictionary that the DAG is built from: the dependencies of `order` that are themselves in `order`. */
  method BuildDependencyGraph(ws: Workspace, order: seq<Name>) returns (g: Graph)
    requires forall n | n in order :: n in ws.crates
    ensures g == InducedGraph(ws, order) && g.order == order
  {
    hide DepNames, Within;
    var deps: map<Name, seq<Name>> := map[];
    for k := 0 to |order|
      invariant forall n :: n in deps <==> n in order[..k]
      invariant forall n | n in deps :: deps[n] == Within(DepNames(ws.crates[n]), Elements(order))
    {
      var dependencies := DependenciesAmong(ws.crates[order[k]], order);
      deps := deps[order[k] := dependencies];
    }
    assert order[..|order|] == order;
    assert deps == InducedGraph(ws, order).deps;
    return Graph(order, deps);
  }

  /** `g` is what a run with this registry has to walk: the unpublished publishable crates and the edges among them. */
  ghost predicate ToPublish(ws: Workspace, registry: set<Name>, g: Graph) {
    && (forall n :: n in g.order <==> ws.Publishable(n) && n !in registry)
    && NoDup(g.order)
    && g == InducedGraph(ws, g.order)
  }

  ghost predicate BlockedByCycle(ws: Workspace, registry: set<Name>) {
    exists g :: ToPublish(ws, registry, g) && Cyclic(g)
  }

  /** `cycle` closes, and each of its crates is unpublished, publishable, and has an entry for the next one. */
  ghost predicate CycleToPublish(ws: Workspace, registry: set<Name>, cycle: seq<Name>) {
    && |cycle| >= 2 && cycle[0] == cycle[|cycle| - 1]
    && forall i | 0 <= i < |cycle| - 1 :: HopToPublish(ws, registry, cycle[i], cycle[i + 1])
  }

  ghost predicate HopToPublish(ws: Workspace, registry: set<Name>, a: Name, b: Name) {
    && ws.Publishable(a) && a !in registry && ws.Publishable(b) && b !in registry
    && DependsOn(ws.crates[a], b)
  }

  lemma CycleMeans(ws: Workspace, registry: set<Name>, g: Graph, cycle: seq<Name>)
    requires ws.Valid() && ToPublish(ws, registry, g) && SimpleCycle(g, cycle)
    ensures CycleToPublish(ws, registry, cycle)
  {
    hide InducedGraph, DependsOn, NoDup;
    forall i | 0 <= i < |cycle| - 1
      ensures HopToPublish(ws, registry, cycle[i], cycle[i + 1])
    {
      assert Linked(g, cycle, i);
      InducedEdgeMeans(ws, g.order, cycle[i], cycle[i + 1]);
    }
  }

  /** The plan is to walk unless one of the earlier exits is taken. */
  ghost predicate Ready(ws: Workspace) {
    AllFlagged(ws) && !exists n :: SelfDependent(ws, n)
  }

  ghost predicate Answered(ws: Workspace, ask: Name -> Reply) {
    forall n | ws.Publishable(n) :: ask(n).Answer?
  }

  lemma MoreEdgesMoreWalks(small: Graph, big: Graph, w: seq<Name>)
    requires forall a, b | Edge(small, a, b) :: Edge(big, a, b)
    requires Chain(small, w)
    ensures Chain(big, w)
  {
    forall i: nat | i < |w| - 1
      ensures Linked(big, w, i)
    {
      assert Linked(small, w, i);
    }
  }

  lemma CyclesGrow(small: Graph, big: Graph)
    requires forall a, b | Edge(small, a, b) :: Edge(big, a, b)
    requires Cyclic(small)
    ensures Cyclic(big)
  {
    var a :| Reaches(small, a, a);
    var w :| WalkFromTo(small, w, a, a);
    MoreEdgesMoreWalks(small, big, w);
    assert WalkFromTo(big, w, a, a);
    assert Reaches(big, a, a);
  }

  lemma SameToPublish(ws: Workspace, registry: set<Name>, g: Graph)
    requires ToPublish(ws, registry, g)
    ensures BlockedByCycle(ws, registry) <==> Cyclic(g)
  {
    hide InducedGraph, Cyclic;
    if BlockedByCycle(ws, registry) {
      var h :| ToPublish(ws, registry, h) && Cyclic(h);
      forall a, b | Edge(h, a, b)
        ensures Edge(g, a, b)
      {
        InducedEdge(ws, h.order, a, b);
        InducedEdge(ws, g.order, a, b);
      }
      CyclesGrow(h, g);
    }
  }

  lemma PlannedGraph(ws: Workspace, registry: set<Name>, output: seq<Name>)
    requires ws.Valid() && NoDup(output) && forall n :: n in output <==> ws.Publishable(n)
    ensures NoDup(Outside(output, registry))
    ensures forall n :: n in Outside(output, registry) <==> ws.Publishable(n) && n !in registry
  {
    OutsideNoDup(output, registry);
    forall n
      ensures n in Outside(output, registry) <==> ws.Publishable(n) && n !in registry
    {
      OutsideMember(output, registry, n);
    }
  }

  /** `publish` up to the walk, in its order: each exit is taken exactly under its condition. */
  method Prepare(ws: Workspace, ask: Name -> Reply, ghost registry: set<Name>) returns (p: Plan)
    requires ws.Valid() && Truthful(ask, registry)
    ensures p.SelfDependencyFound? <==> exists n :: SelfDependent(ws, n)
    ensures p.FlagsMissing? <==> !AllFlagged(ws) && !exists n :: SelfDependent(ws, n)
    ensures p.FlagsMissing? ==> forall n :: n in p.names <==> n in ws.crates && ws.crates[n].publish.None?
    ensures p.LookupFailed? <==> Ready(ws) && !Answered(ws, ask)
    ensures p.NothingToPublish? <==> Ready(ws) && Answered(ws, ask) && forall n | ws.Publishable(n) :: n in registry
    ensures p.Refused? <==> Ready(ws) && Answered(ws, ask) && BlockedByCycle(ws, registry)
    ensures p.Refused? ==> p.verdict.CycleFound? && CycleToPublish(ws, registry, p.verdict.cycle)
    ensures p.Walking? ==> ToPublish(ws, registry, p.g) && Accepted(p.g)
    ensures p.Walking? <==> Ready(ws) && Answered(ws, ask) && !BlockedByCycle(ws, registry) &&
                            exists n :: ws.Publishable(n) && n !in registry
  {
    hide SelfDependent, BlockedByCycle, Answered, AllFlagged, CycleToPublish;
    var sorted := GetSortedPublishableCrates(ws);
    if sorted.SelfDependency? { return SelfDependencyFound; }
    Flags(ws, sorted.errors);
    if sorted.errors != [] { return FlagsMissing(sorted.errors); }
    p := PrepareSorted(ws, ask, registry, sorted.output);
  }

  lemma Flags(ws: Workspace, errors: seq<Name>)
    requires forall n :: n in errors <==> n in ws.crates && ws.crates[n].publish.None?
    ensures errors == [] <==> AllFlagged(ws)
  {
    if errors != [] {
      assert errors[0] in errors;
    }
  }

  lemma PublishableAnswered(ws: Workspace, ask: Name -> Reply, output: seq<Name>)
    requires forall n :: n in output <==> ws.Publishable(n)
    ensures Answered(ws, ask) <==> !exists n :: n in output && ask(n).RequestFailed?
  {
    hide Workspace.Publishable;
  }

  /** From sorted crates on. */
  method PrepareSorted(ws: Workspace, ask: Name -> Reply, ghost registry: set<Name>, output: seq<Name>)
    returns (p: Plan)
    requires ws.Valid() && Truthful(ask, registry) && SortsOutput(ws, WorkspaceGraph(ws), output)
    ensures p.LookupFailed? <==> !Answered(ws, ask)
    ensures p.NothingToPublish? <==> Answered(ws, ask) && forall n | ws.Publishable(n) :: n in registry
    ensures p.Refused? <==> Answered(ws, ask) && BlockedByCycle(ws, registry)
    ensures p.Refused? ==> p.verdict.CycleFound? && CycleToPublish(ws, registry, p.verdict.cycle)
    ensures p.Walking? ==> ToPublish(ws, registry, p.g) && Accepted(p.g)
    ensures !p.SelfDependencyFound? && !p.FlagsMissing?
    ensures p.NothingToPublish? ==> !BlockedByCycle(ws, registry)
  {
    OutputFacts(ws, output);
    hide SortsOutput, Accepted, BlockedByCycle, CycleToPublish, ToPublish, NoDup, Outside, Answered,
        Workspace.Publishable, Workspace.Valid;
    PublishableAnswered(ws, ask, output);
    PlannedGraph(ws, registry, output);
    var unpublished := CollectUnpublished(output, ask, registry);
    if unpublished.None? { return LookupFailed; }
    if unpublished.value == [] {
      NothingLeft(ws, registry);
      return NothingToPublish;
    }
    assert unpublished.value[0] in unpublished.value;
    p := BuildAndCheck(ws, registry, unpublished.value);
  }

  /** The walk's graph is either accepted or has a cycle. */
  method BuildAndCheck(ws: Workspace, ghost registry: set<Name>, unpublished: seq<Name>) returns (p: Plan)
    requires ws.Valid() && unpublished != [] && NoDup(unpublished)
    requires forall n :: n in unpublished <==> ws.Publishable(n) && n !in registry
    ensures p.Refused? || p.Walking?
    ensures p.Refused? <==> BlockedByCycle(ws, registry)
    ensures p.Refused? ==> p.verdict.CycleFound? && CycleToPublish(ws, registry, p.verdict.cycle)
    ensures p.Walking? ==> ToPublish(ws, registry, p.g) && Accepted(p.g)
  {
    hide InducedGraph, Accepted, Cyclic, SimpleCycle, CycleToPublish, BlockedByCycle, NoDup, Graph.Valid, Graph.Missing;
    var g := BuildDependencyGraph(ws, unpublished);
    InducedComplete(ws, unpublished);
    SameToPublish(ws, registry, g);
    var verdict := SanitizeDependencyGraph(g);
    if verdict.Returns? { return Walking(g); }
    CycleMeans(ws, registry, g, verdict.cycle);
    return Refused(verdict);
  }

  lemma OutputFacts(ws: Workspace, output: seq<Name>)
    requires ws.Valid() && SortsOutput(ws, WorkspaceGraph(ws), output)
    ensures NoDup(output)
    ensures forall n :: n in output <==> ws.Publishable(n)
    ensures forall n | n in output :: n in ws.crates
  {
  }

  lemma NothingLeft(ws: Workspace, registry: set<Name>)
    requires forall n | ws.Publishable(n) :: n in registry
    ensures !BlockedByCycle(ws, registry)
  {
    if BlockedByCycle(ws, registry) {
      var g :| ToPublish(ws, registry, g) && Cyclic(g);
      forall a, b
        ensures !Edge(g, a, b)
      {
        InducedEdge(ws, g.order, a, b);
      }
      var a, b := CycleHasEdge(g);
    }
  }

  lemma CycleHasEdge(g: Graph) returns (a: Name, b: Name)
    requires Cyclic(g)
    ensures Edge(g, a, b)
  {
    a :| Reaches(g, a, a);
    b := FirstStep(g, a, a);
  }

  // ---- the check that runs in continuous integration ----

  /** `check_dependency_tree`: sort, then build the DAG of all publishable crates. None: a crate lists itself.
      Missing `publish` flags go unreported here. */
  method CheckDependencyTree(ws: Workspace) returns (v: Option<Verdict>)
    requires ws.Valid()
    ensures v.None? <==> exists n :: SelfDependent(ws, n)
    ensures v == Some(Returns) <==>
            (!exists n :: SelfDependent(ws, n)) && (exists n :: ws.Publishable(n)) && !BlockedByCycle(ws, {})
    ensures v.Some? && v.value.CycleFound? <==> (!exists n :: SelfDependent(ws, n)) && BlockedByCycle(ws, {})
    ensures v.Some? && v.value.CycleFound? ==> CycleToPublish(ws, {}, v.value.cycle)
    ensures v == Some(UnionOfNothing) <==> !exists n :: SelfDependent(ws, n) || ws.Publishable(n)
  {
    hide SelfDependent;
    var sorted := GetSortedPublishableCrates(ws);
    if sorted.SelfDependency? { return None; }
    var verdict := CheckSorted(ws, sorted.output);
    return Some(verdict);
  }

  method CheckSorted(ws: Workspace, output: seq<Name>) returns (v: Verdict)
    requires ws.Valid() && SortsOutput(ws, WorkspaceGraph(ws), output)
    ensures v.Returns? <==> (exists n :: ws.Publishable(n)) && !BlockedByCycle(ws, {})
    ensures v.CycleFound? <==> BlockedByCycle(ws, {})
    ensures v.CycleFound? ==> CycleToPublish(ws, {}, v.cycle)
    ensures v.UnionOfNothing? <==> !exists n :: ws.Publishable(n)
  {
    OutputFacts(ws, output);
    hide SortsOutput, InducedGraph, Cyclic, SimpleCycle, CycleToPublish, BlockedByCycle, NoDup, Graph.Valid,
        Graph.Missing, Workspace.Publishable;
    var g := BuildDependencyGraph(ws, output);
    InducedComplete(ws, output);
    SameToPublish(ws, {}, g);
    v := SanitizeDependencyGraph(g);
    if v.CycleFound? { CycleMeans(ws, {}, g, v.cycle); }
    if output != [] {
      assert output[0] in output;
    } else {
      NothingLeft(ws, {});
    }
  }

  lemma AllToPublish(ws: Workspace) returns (g: Graph)
    requires ws.Valid()
    ensures ToPublish(ws, {}, g)
  {
    var all := Flagged(ws, ws.order, Some(true));
    FlaggedNoDup(ws, ws.order, Some(true));
    forall n
      ensures n in all <==> ws.Publishable(n)
    {
      FlaggedMember(ws, ws.order, Some(true), n);
    }
    g := InducedGraph(ws, all);
  }

  /** Once `check_dependency_tree` passes, no publish run is ever refused, whatever has been published before. */
  lemma CheckedTreeIsNeverRefused(ws: Workspace, registry: set<Name>)
    requires ws.Valid() && !BlockedByCycle(ws, {})
    ensures !BlockedByCycle(ws, registry)
  {
    hide InducedGraph, Cyclic;
    if BlockedByCycle(ws, registry) {
      var g :| ToPublish(ws, registry, g) && Cyclic(g);
      var big := AllToPublish(ws);
      forall a, b | Edge(g, a, b)
        ensures Edge(big, a, b)
      {
        InducedEdge(ws, g.order, a, b);
        InducedEdge(ws, big.order, a, b);
      }
      CyclesGrow(g, big);
    }
  }
}

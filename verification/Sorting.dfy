/** `get_sorted_publishable_crates`: a post-order traversal that tolerates cycles. */
module Sorting {
  import opened Basics
  import opened Graphs
  import opened Manifests

  datatype SortResult =
    | SelfDependency                                  // AssertionError
    | Sorted(output: seq<Name>, errors: seq<Name>)    // `errors`: crates without `package.publish`

  predicate SelfDependent(ws: Workspace, n: Name) {
    n in ws.crates && n in DepNames(ws.crates[n])
  }

  /** In terms of the manifest: a crate with an entry for itself in some table. */
  lemma SelfDependentMeans(ws: Workspace, n: Name)
    requires ws.Valid()
    ensures SelfDependent(ws, n) <==> n in ws.crates && DependsOn(ws.crates[n], n)
  {
    if n in ws.crates { DepNamesComplete(ws.crates[n], n); }
  }

  /** `b` stands before `a` in `s`. */
  predicate Precedes(s: seq<Name>, b: Name, a: Name) {
    exists i, j :: 0 <= i < j < |s| && s[i] == b && s[j] == a
  }

  /** The elements of `s` whose `publish` flag is `flag`, in order. */
  function Flagged(ws: Workspace, s: seq<Name>, flag: Option<bool>): seq<Name> {
    if s == [] then [] else
      var n := s[|s| - 1];
      Flagged(ws, s[..|s| - 1], flag) + if ws.Publish(n) == flag then [n] else []
  }

  lemma {:induction false} FlaggedMember(ws: Workspace, s: seq<Name>, flag: Option<bool>, n: Name)
    ensures n in Flagged(ws, s, flag) <==> n in s && ws.Publish(n) == flag
  {
    if s != [] {
      var r := s[..|s| - 1];
      assert s == r + [s[|s| - 1]];
      FlaggedMember(ws, r, flag, n);
    }
  }

  lemma {:induction false} FlaggedNoDup(ws: Workspace, s: seq<Name>, flag: Option<bool>)
    requires NoDup(s)
    ensures NoDup(Flagged(ws, s, flag))
  {
    if s != [] {
      var r, n := s[..|s| - 1], s[|s| - 1];
      assert s == r + [n];
      FlaggedNoDup(ws, r, flag);
      FlaggedMember(ws, r, flag, n);
      assert n !in r;
    }
  }

  lemma {:induction false} FlaggedPrecedes(ws: Workspace, s: seq<Name>, flag: Option<bool>, b: Name, a: Name)
    requires Precedes(s, b, a) && ws.Publish(a) == flag && ws.Publish(b) == flag
    ensures Precedes(Flagged(ws, s, flag), b, a)
  {
    var i, j :| 0 <= i < j < |s| && s[i] == b && s[j] == a;
    var r, f := s[..|s| - 1], Flagged(ws, s[..|s| - 1], flag);
    assert r[i] == b;
    if j < |r| {
      assert r[j] == a;
      FlaggedPrecedes(ws, r, flag, b, a);
      var i', j' :| 0 <= i' < j' < |f| && f[i'] == b && f[j'] == a;
      assert Flagged(ws, s, flag)[i'] == b && Flagged(ws, s, flag)[j'] == a;
    } else {
      FlaggedMember(ws, r, flag, b);
      var i' :| 0 <= i' < |f| && f[i'] == b;
      assert Flagged(ws, s, flag)[i'] == b && Flagged(ws, s, flag)[|f|] == a;
    }
  }

  // ---- the traversal ----

  /** When `a` was finished, each workspace dependency was finished already, or leads back to `a`. */
  ghost predicate Settled(ws: Workspace, g: Graph, s: seq<Name>, k: nat)
    requires k < |s|
  {
    s[k] in ws.crates && !SelfDependent(ws, s[k])
    && forall b | Edge(g, s[k], b) :: b in s[..k] || Reaches(g, b, s[k])
  }

  /** `path` holds the crates whose traversal is under way, outermost first; `finished` those whose traversal is
      over. */
  ghost predicate SortState(ws: Workspace, g: Graph, visited: set<Name>, output: seq<Name>, errors: seq<Name>,
                            path: seq<Name>, finished: seq<Name>) {
    && visited <= ws.crates.Keys
    && visited == Elements(path) + Elements(finished)
    && Elements(path) !! Elements(finished)
    && NoDup(finished) && NoDup(path) && Chain(g, path)
    && (forall k | 0 <= k < |finished| :: Settled(ws, g, finished, k))
    && output == Flagged(ws, finished, Some(true))
    && errors == Flagged(ws, finished, None)
  }

  lemma EnterCrate(ws: Workspace, g: Graph, visited: set<Name>, output: seq<Name>, errors: seq<Name>, path: seq<Name>,
                   finished: seq<Name>, n: Name)
    requires SortState(ws, g, visited, output, errors, path, finished)
    requires n in ws.crates && n !in visited && (path != [] ==> Edge(g, path[|path| - 1], n))
    ensures SortState(ws, g, visited + {n}, output, errors, path + [n], finished)
  {
    assert Elements(path + [n]) == Elements(path) + {n};
    forall i | 0 <= i < |path|
      ensures Linked(g, path + [n], i)
    {
      assert i < |path| - 1 ==> Linked(g, path, i);
    }
  }

  /** A dependency still under way leads back to the crate that lists it. */
  lemma OnPathLeadsBack(g: Graph, path: seq<Name>, i: nat)
    requires Chain(g, path) && i < |path| - 1
    ensures Reaches(g, path[i], path[|path| - 1])
  {
    var w := path[i..];
    forall j | 0 <= j < |w| - 1
      ensures Linked(g, w, j)
    {
      assert Linked(g, path, i + j);
    }
    assert WalkFromTo(g, w, path[i], path[|path| - 1]);
  }

  lemma LeaveCrate(ws: Workspace, g: Graph, visited: set<Name>, output: seq<Name>, errors: seq<Name>, path: seq<Name>,
                   finished: seq<Name>, n: Name)
    requires SortState(ws, g, visited, output, errors, path + [n], finished)
    requires !SelfDependent(ws, n) && !Edge(g, n, n) && forall b | Edge(g, n, b) :: b in visited
    ensures SortState(ws, g, visited, if ws.Publish(n) == Some(true) then output + [n] else output,
                      if ws.Publish(n) == None then errors + [n] else errors, path, finished + [n])
  {
    var p, f := path + [n], finished + [n];
    assert p[|path|] == n && n in Elements(p);
    assert NoDup(path) by {
      forall i, j | 0 <= i < j < |path| ensures path[i] != path[j] { assert p[i] == path[i] && p[j] == path[j]; }
    }
    assert n !in Elements(path) by {
      forall i | 0 <= i < |path| ensures path[i] != n { assert p[i] == path[i]; }
    }
    assert Elements(p) == Elements(path) + {n};
    assert Elements(f) == Elements(finished) + {n};
    assert n !in finished by { assert n !in Elements(finished); }
    forall i | 0 <= i < |path| - 1 ensures Linked(g, path, i) { assert Linked(g, p, i); }
    forall k | 0 <= k < |f|
      ensures Settled(ws, g, f, k)
    {
      if k < |finished| {
        assert Settled(ws, g, finished, k);
        assert f[..k] == finished[..k];
      } else {
        LastSettled(ws, g, path, finished, n, visited);
      }
    }
    assert f[..|finished|] == finished;
  }

  lemma LastSettled(ws: Workspace, g: Graph, path: seq<Name>, finished: seq<Name>, n: Name, visited: set<Name>)
    requires Chain(g, path + [n]) && visited == Elements(path + [n]) + Elements(finished) && n in ws.crates
    requires !SelfDependent(ws, n) && !Edge(g, n, n) && forall b | Edge(g, n, b) :: b in visited
    ensures Settled(ws, g, finished + [n], |finished|)
  {
    var p := path + [n];
    assert (finished + [n])[..|finished|] == finished;
    forall b | Edge(g, n, b)
      ensures b in finished || Reaches(g, b, n)
    {
      if b !in finished {
        assert b in Elements(p);
        var i :| 0 <= i < |p| && p[i] == b;
        assert b != n;
        OnPathLeadsBack(g, p, i);
      }
    }
  }

  /** The variables that the recursive helper shares: `visited`, `output` and the errors of the context. */
  class Sorter {
    const ws: Workspace
    var visited: set<Name>
    var output: seq<Name>
    var errors: seq<Name>
    ghost const g: Graph
    ghost var path: seq<Name>
    ghost var finished: seq<Name>

    constructor (ws: Workspace)
      requires ws.Valid()
      ensures this.ws == ws && g == WorkspaceGraph(ws) && Valid() && path == [] && visited == {}
    {
      this.ws := ws;
      g := WorkspaceGraph(ws);
      visited, output, errors := {}, [], [];
      path, finished := [], [];
    }

    ghost predicate Valid()
      reads this
    {
      SortState(ws, g, visited, output, errors, path, finished)
    }

    /** The crates still to be visited: what bounds the recursion. */
    ghost function Unvisited(): nat
      reads this
    {
      |ws.crates.Keys - visited|
    }

    /** `helper`. False: the assertion on self-dependencies failed. */
    method Helper(name: Name) returns (ok: bool)
      requires Known(ws, g) && Valid() && name in ws.crates
      requires path != [] ==> Edge(g, path[|path| - 1], name)
      modifies this
      decreases Unvisited(), 1
      ensures ok ==> Valid() && path == old(path) && old(visited) <= visited && name in visited
      ensures !ok ==> exists n :: SelfDependent(ws, n)
      ensures Unvisited() <= old(Unvisited())
    {
      hide SortState, Known, SelfDependent, WorkspaceGraph;
      if name in visited { return true; }
      ghost var outer := path;
      Enter(name);
      ok := VisitAll(name);
      if ok {
        Leave(name);
        assert path == outer;
      }
    }

    method Enter(name: Name)
      requires Valid() && name in ws.crates && name !in visited
      requires path != [] ==> Edge(g, path[|path| - 1], name)
      modifies this`visited, this`path
      ensures Valid() && path == old(path) + [name] && visited == old(visited) + {name}
      ensures Unvisited() < old(Unvisited())
    {
      hide SortState;
      EnterCrate(ws, g, visited, output, errors, path, finished, name);
      assert ws.crates.Keys - visited == (ws.crates.Keys - visited - {name}) + {name};
      visited := visited + {name};
      path := path + [name];
    }

    /** The loop over the dependencies of `name`. */
    method VisitAll(name: Name) returns (ok: bool)
      requires Known(ws, g) && Valid() && path != [] && path[|path| - 1] == name && name in ws.crates
      modifies this
      decreases Unvisited(), 2
      ensures ok ==> Valid() && path == old(path) && old(visited) <= visited && Visited(ws, name, visited)
      ensures ok ==> !SelfDependent(ws, name)
      ensures !ok ==> exists n :: SelfDependent(ws, n)
      ensures Unvisited() <= old(Unvisited())
    {
      hide SortState, Known, SelfDependent, WorkspaceGraph, Within;
      var deps := DepNames(ws.crates[name]);
      var k := 0;
      NoneSeen(deps, name, ws.crates.Keys, visited);
      while k < |deps|
        invariant k <= |deps|
        invariant Valid() && path == old(path) && old(visited) <= visited && Unvisited() <= old(Unvisited())
        invariant Seen(deps[..k], name, ws.crates.Keys, visited)
      {
        if deps[k] == name {
          SelfListed(ws, name, k);
          return false;
        }
        ghost var before := visited;
        if deps[k] in ws.crates {
          DependencyIsEdge(ws, g, name, k);
          ok := Helper(deps[k]);
          if !ok { return; }
        }
        SeenMore(deps, k, name, ws.crates.Keys, before, visited);
        k := k + 1;
      }
      assert deps[..|deps|] == deps;
      AllSeen(ws, name, visited);
      return true;
    }

    method Leave(name: Name)
      requires Known(ws, g) && Valid() && path != [] && path[|path| - 1] == name && name in ws.crates
      requires Visited(ws, name, visited) && !SelfDependent(ws, name)
      modifies this`output, this`errors, this`path, this`finished
      ensures Valid() && path == old(path[..|path| - 1])
    {
      hide SortState, SelfDependent, Known, Visited, Flagged;
      VisitedEdges(ws, g, name, visited);
      assert path == path[..|path| - 1] + [name];
      LeaveCrate(ws, g, visited, output, errors, path[..|path| - 1], finished, name);
      var publish := ws.crates[name].publish;
      path := path[..|path| - 1];
      finished := finished + [name];
      if publish.None? {
        errors := errors + [name];
      } else if publish.value {
        output := output + [name];
      }
    }
  }

  /** `g` is the graph of the workspace. */
  ghost predicate Known(ws: Workspace, g: Graph) {
    ws.Valid() && g == WorkspaceGraph(ws)
  }

  /** The dependencies looked at so far: none is `self`, and the workspace crates among them have been visited. */
  predicate Seen(deps: seq<Name>, self: Name, crates: set<Name>, visited: set<Name>) {
    forall d | d in deps :: d != self && (d in crates ==> d in visited)
  }

  lemma NoneSeen(deps: seq<Name>, self: Name, crates: set<Name>, visited: set<Name>)
    ensures Seen(deps[..0], self, crates, visited)
  {
  }

  lemma SeenMore(deps: seq<Name>, k: nat, self: Name, crates: set<Name>, before: set<Name>, visited: set<Name>)
    requires k < |deps| && Seen(deps[..k], self, crates, before) && before <= visited
    requires deps[k] != self && (deps[k] in crates ==> deps[k] in visited)
    ensures Seen(deps[..k + 1], self, crates, visited)
  {
    assert deps[..k + 1] == deps[..k] + [deps[k]];
  }

  ghost predicate Visited(ws: Workspace, n: Name, visited: set<Name>)
    requires n in ws.crates
  {
    forall b | b in DepNames(ws.crates[n]) && b in ws.crates :: b in visited
  }

  lemma AllSeen(ws: Workspace, n: Name, visited: set<Name>)
    requires n in ws.crates && Seen(DepNames(ws.crates[n]), n, ws.crates.Keys, visited)
    ensures Visited(ws, n, visited) && !SelfDependent(ws, n)
  {
    hide DepNames;
  }

  lemma SelfListed(ws: Workspace, n: Name, k: nat)
    requires n in ws.crates && k < |DepNames(ws.crates[n])| && DepNames(ws.crates[n])[k] == n
    ensures SelfDependent(ws, n)
  {
    hide DepNames;
  }

  lemma DependencyIsEdge(ws: Workspace, g: Graph, n: Name, k: nat)
    requires Known(ws, g) && n in ws.crates && k < |DepNames(ws.crates[n])| && DepNames(ws.crates[n])[k] in ws.crates
    ensures Edge(g, n, DepNames(ws.crates[n])[k])
  {
    hide DepNames, InducedGraph;
    InducedEdge(ws, ws.order, n, DepNames(ws.crates[n])[k]);
  }

  lemma VisitedEdges(ws: Workspace, g: Graph, n: Name, visited: set<Name>)
    requires Known(ws, g) && n in ws.crates && Visited(ws, n, visited)
    ensures forall b | Edge(g, n, b) :: b in visited
    ensures Edge(g, n, n) <==> SelfDependent(ws, n)
  {
    hide DepNames, InducedGraph;
    InducedEdge(ws, ws.order, n, n);
    forall b | Edge(g, n, b)
      ensures b in visited
    {
      InducedEdge(ws, ws.order, n, b);
    }
  }

  // ---- the result ----

  /** What the sort promises about its output. */
  ghost predicate SortsOutput(ws: Workspace, g: Graph, output: seq<Name>) {
    && NoDup(output)
    && (forall n :: n in output <==> ws.Publishable(n))
    && (forall a, b | Edge(g, a, b) && ws.Publishable(a) && ws.Publishable(b) && !Reaches(g, b, a) ::
        Precedes(output, b, a))
    && (!Cyclic(g) ==> forall a, b | Reaches(g, a, b) && ws.Publishable(a) && ws.Publishable(b) ::
        Precedes(output, b, a))
  }

  lemma DirectPrecedes(ws: Workspace, g: Graph, finished: seq<Name>, a: Name, b: Name)
    requires forall k | 0 <= k < |finished| :: Settled(ws, g, finished, k)
    requires a in finished && Edge(g, a, b) && !Reaches(g, b, a)
    ensures Precedes(finished, b, a)
  {
    var k :| 0 <= k < |finished| && finished[k] == a;
    assert Settled(ws, g, finished, k);
    var i :| 0 <= i < k && finished[i] == b;
  }

  lemma PrecedesTrans(s: seq<Name>, c: Name, b: Name, a: Name)
    requires NoDup(s) && Precedes(s, c, b) && Precedes(s, b, a)
    ensures Precedes(s, c, a)
  {
    var i, j :| 0 <= i < j < |s| && s[i] == c && s[j] == b;
    var j', k :| 0 <= j' < k < |s| && s[j'] == b && s[k] == a;
    assert j == j';
  }

  /** Without cycles the post-order respects whole chains of dependencies, unpublishable links included. */
  lemma {:induction false} ChainPrecedes(ws: Workspace, g: Graph, finished: seq<Name>, w: seq<Name>)
    requires forall k | 0 <= k < |finished| :: Settled(ws, g, finished, k)
    requires NoDup(finished) && !Cyclic(g) && (forall n | n in g.deps :: n in finished)
    requires |w| >= 2 && Chain(g, w)
    ensures Precedes(finished, w[|w| - 1], w[0])
    decreases |w|
  {
    hide Settled, Precedes, NoDup;
    var a, b := w[0], w[1];
    assert Linked(g, w, 0);
    if Reaches(g, b, a) {
      EdgeReaches(g, a, b);
      ReachesTrans(g, a, b, a);
    }
    DirectPrecedes(ws, g, finished, a, b);
    if |w| > 2 {
      TailIsChain(g, w);
      ChainPrecedes(ws, g, finished, w[1..]);
      PrecedesTrans(finished, w[|w| - 1], b, a);
    }
  }

  lemma FlagsRight(ws: Workspace, g: Graph, finished: seq<Name>, n: Name)
    requires forall m :: m in finished <==> m in ws.crates
    requires forall k | 0 <= k < |finished| :: Settled(ws, g, finished, k)
    ensures n in Flagged(ws, finished, Some(true)) <==> ws.Publishable(n)
    ensures n in Flagged(ws, finished, None) <==> n in ws.crates && ws.crates[n].publish.None?
    ensures !SelfDependent(ws, n)
  {
    hide Flagged;
    FlaggedMember(ws, finished, Some(true), n);
    FlaggedMember(ws, finished, None, n);
    if n in finished {
      var k :| 0 <= k < |finished| && finished[k] == n;
      assert Settled(ws, g, finished, k);
    }
  }

  lemma PairsRight(ws: Workspace, g: Graph, finished: seq<Name>, a: Name, b: Name)
    requires (forall n :: n in finished <==> n in ws.crates) && (forall n :: n in g.deps <==> n in ws.crates)
    requires NoDup(finished) && forall k | 0 <= k < |finished| :: Settled(ws, g, finished, k)
    requires ws.Publishable(a) && ws.Publishable(b)
    ensures Edge(g, a, b) && !Reaches(g, b, a) ==> Precedes(Flagged(ws, finished, Some(true)), b, a)
    ensures !Cyclic(g) && Reaches(g, a, b) ==> Precedes(Flagged(ws, finished, Some(true)), b, a)
  {
    hide Flagged, Settled, Precedes, NoDup, Cyclic;
    if Edge(g, a, b) && !Reaches(g, b, a) {
      DirectPrecedes(ws, g, finished, a, b);
      FlaggedPrecedes(ws, finished, Some(true), b, a);
    }
    if !Cyclic(g) && Reaches(g, a, b) {
      var w :| WalkFromTo(g, w, a, b);
      ChainPrecedes(ws, g, finished, w);
      FlaggedPrecedes(ws, finished, Some(true), b, a);
    }
  }

  lemma OutputSorted(ws: Workspace, g: Graph, visited: set<Name>, output: seq<Name>, errors: seq<Name>,
                     finished: seq<Name>)
    requires Known(ws, g) && SortState(ws, g, visited, output, errors, [], finished) && Searched(ws.order, visited, {})
    ensures SortsOutput(ws, g, output)
    ensures forall n :: n in errors <==> n in ws.crates && ws.crates[n].publish.None?
    ensures forall n :: !SelfDependent(ws, n)
  {
    AllSettled(ws, g, visited, finished);
    FlaggedNoDup(ws, finished, Some(true));
    hide Known, Searched, Settled, SelfDependent, Precedes, NoDup, Flagged, Cyclic, Reaches, Edge,
        Workspace.Publishable;
    forall n
      ensures n in output <==> ws.Publishable(n)
      ensures n in errors <==> n in ws.crates && ws.crates[n].publish.None?
      ensures !SelfDependent(ws, n)
    {
      FlagsRight(ws, g, finished, n);
    }
    forall a, b | ws.Publishable(a) && ws.Publishable(b)
      ensures Edge(g, a, b) && !Reaches(g, b, a) ==> Precedes(output, b, a)
      ensures !Cyclic(g) && Reaches(g, a, b) ==> Precedes(output, b, a)
    {
      PairsRight(ws, g, finished, a, b);
    }
  }

  lemma AllSettled(ws: Workspace, g: Graph, visited: set<Name>, finished: seq<Name>)
    requires Known(ws, g) && visited == Elements(finished) && visited <= ws.crates.Keys &&
              Searched(ws.order, visited, {})
    ensures forall n :: n in finished <==> n in ws.crates
    ensures forall n :: n in g.deps <==> n in ws.crates
  {
    forall n
      ensures n in finished <==> n in ws.crates
    {
      assert n in finished <==> n in Elements(finished);
      assert n in ws.crates ==> n in ws.order;
    }
  }

  /** The whole function. It raises exactly when some crate lists itself. Otherwise it returns every publishable crate
      exactly once, after each publishable direct dependency that does not lead back to it; without cycles, after
      every publishable dependency. Crates that do not say whether to publish are reported. */
  method GetSortedPublishableCrates(ws: Workspace) returns (r: SortResult)
    requires ws.Valid()
    ensures r.SelfDependency? <==> exists n :: SelfDependent(ws, n)
    ensures r.Sorted? ==> SortsOutput(ws, WorkspaceGraph(ws), r.output)
    ensures r.Sorted? ==> forall n :: n in r.errors <==> n in ws.crates && ws.crates[n].publish.None?
  {
    hide SortState, SortsOutput, SelfDependent, Searched, InducedGraph;
    var sorter := new Sorter(ws);
    SearchedNone(ws.order, sorter.visited, {});
    for k := 0 to |ws.order|
      invariant sorter.Valid() && sorter.path == [] && sorter.ws == ws && sorter.g == WorkspaceGraph(ws)
      invariant Searched(ws.order[..k], sorter.visited, {})
    {
      ghost var before := sorter.visited;
      var ok := sorter.Helper(ws.order[k]);
      if !ok { return SelfDependency; }
      SearchedMore(ws.order, k, before, sorter.visited, {});
    }
    assert ws.order[..|ws.order|] == ws.order;
    OutputSorted(ws, sorter.g, sorter.visited, sorter.output, sorter.errors, sorter.finished);
    return Sorted(sorter.output, sorter.errors);
  }
}

/** The cycle check that guards `DAG.__init__`. */
module Sanitize {
  import opened Basics
  import opened Graphs

  /** How `_sanitize_dependency_graph` ends: it returns, or raises one of three exceptions. */
  datatype Verdict =
    | Returns
    | UnionOfNothing                 // TypeError of `set.union()` on an empty graph
    | MissingNodes(names: set<Name>) // AssertionError
    | CycleFound(cycle: seq<Name>)   // ValueError

  /** A closed walk that visits no node twice before closing. */
  predicate SimpleCycle(g: Graph, c: seq<Name>) {
    |c| >= 2 && c[0] == c[|c| - 1] && Chain(g, c) && NoDup(c[..|c| - 1])
  }

  /** `s` lists nodes so that each one comes after all its dependencies. */
  predicate DepsFirst(g: Graph, s: seq<Name>) {
    forall k | 0 <= k < |s| :: DepsBefore(g, s, k)
  }

  predicate DepsBefore(g: Graph, s: seq<Name>, k: nat)
    requires k < |s|
  {
    s[k] in g.deps && forall d | d in g.deps[s[k]] :: d in s[..k]
  }

  /** What the search keeps between statements: `path` is a simple walk holding exactly the nodes of
      `recStack`; every other visited node is finished, after all its dependencies. */
  ghost predicate SearchState(g: Graph, visited: set<Name>, recStack: set<Name>, path: seq<Name>, finished: seq<Name>) {
    && g.Valid() && g.Missing() == {}
    && visited <= g.deps.Keys
    && recStack == Elements(path)
    && visited == recStack + Elements(finished)
    && recStack !! Elements(finished)
    && NoDup(path) && Chain(g, path)
    && NoDup(finished) && DepsFirst(g, finished)
  }

  lemma EnterNode(g: Graph, visited: set<Name>, recStack: set<Name>, path: seq<Name>, finished: seq<Name>, n: Name)
    requires SearchState(g, visited, recStack, path, finished)
    requires n in g.deps && n !in visited
    requires path != [] ==> Edge(g, path[|path| - 1], n)
    ensures SearchState(g, visited + {n}, recStack + {n}, path + [n], finished)
    ensures n !in recStack
  {
    assert Elements(path + [n]) == Elements(path) + {n};
    forall i | 0 <= i < |path|
      ensures Linked(g, path + [n], i)
    {
      assert i < |path| - 1 ==> Linked(g, path, i);
    }
  }

  lemma LeaveNode(g: Graph, visited: set<Name>, recStack: set<Name>, path: seq<Name>, finished: seq<Name>, n: Name)
    requires SearchState(g, visited, recStack, path + [n], finished)
    requires Searched(g.deps[n], visited, recStack)
    ensures SearchState(g, visited, recStack - {n}, path, finished + [n])
  {
    assert (path + [n])[|path|] == n;
    assert n in Elements(path + [n]);
    assert Elements(finished + [n]) == Elements(finished) + {n};
    assert Elements(path) == recStack - {n} by {
      forall i | 0 <= i < |path| ensures path[i] != n { assert (path + [n])[i] == path[i]; }
      assert Elements(path + [n]) == Elements(path) + {n};
    }
    assert NoDup(path) by {
      forall i, j | 0 <= i < j < |path| ensures path[i] != path[j] {
        assert (path + [n])[i] == path[i] && (path + [n])[j] == path[j];
      }
    }
    assert Chain(g, path) by {
      forall i | 0 <= i < |path| - 1 ensures Linked(g, path, i) { assert Linked(g, path + [n], i); }
    }
    var f := finished + [n];
    forall k | 0 <= k < |f|
      ensures DepsBefore(g, f, k)
    {
      if k < |finished| {
        assert DepsBefore(g, finished, k);
        assert f[..k] == finished[..k];
      } else {
        assert f[..k] == finished;
        forall d | d in g.deps[n] ensures d in finished { assert d in Elements(g.deps[n]); }
      }
    }
    assert n in recStack && n !in Elements(finished);
  }

  /** The variables shared by the recursive calls of `find_cycle`. */
  class CycleFinder {
    const g: Graph
    var visited: set<Name>
    var recStack: set<Name>
    var path: seq<Name>
    ghost var finished: seq<Name>

    constructor (g: Graph)
      requires g.Valid() && g.Missing() == {}
      ensures this.g == g && Valid() && path == [] && visited == {}
    {
      this.g := g;
      visited, recStack, path := {}, {}, [];
      finished := [];
    }

    ghost predicate Valid()
      reads this
    {
      SearchState(g, visited, recStack, path, finished)
    }

    /** The nodes still to be visited: what bounds the recursion. */
    ghost function Unvisited(): nat
      reads this
    {
      |g.deps.Keys - visited|
    }

    method FindCycle(node: Name) returns (cycle: Option<seq<Name>>)
      requires Valid() && node in g.deps && node !in visited
      requires path != [] ==> Edge(g, path[|path| - 1], node)
      modifies this
      decreases Unvisited(), 0
      ensures cycle.Some? ==> SimpleCycle(g, cycle.value)
      ensures cycle.None? ==> Valid() && path == old(path) && recStack == old(recStack)
      ensures cycle.None? ==> old(visited) <= visited && node in visited
      ensures Unvisited() < old(Unvisited())
    {
      hide SearchState, Searched, SimpleCycle;
      Enter(node);
      ghost var walk, stack := path, recStack;
      var deps := g.deps[node];
      SearchedNone(deps, visited, stack);
      for k := 0 to |deps|
        invariant Valid() && path == walk && recStack == stack
        invariant old(visited) <= visited && node in visited
        invariant Unvisited() < old(Unvisited())
        invariant Searched(deps[..k], visited, stack)
      {
        ghost var seen := visited;
        cycle := VisitNeighbor(node, deps[k]);
        if cycle.Some? { return; }
        SearchedMore(deps, k, seen, visited, stack);
      }
      assert deps[..|deps|] == deps;
      Leave(node);
      return None;
    }

    /** Marks `node` and puts it on the recursion stack. */
    method Enter(node: Name)
      requires Valid() && node in g.deps && node !in visited
      requires path != [] ==> Edge(g, path[|path| - 1], node)
      modifies this
      ensures Valid() && path == old(path) + [node]
      ensures visited == old(visited) + {node} && recStack == old(recStack) + {node} && node !in old(recStack)
      ensures Unvisited() < old(Unvisited())
    {
      hide SearchState;
      EnterNode(g, visited, recStack, path, finished, node);
      assert g.deps.Keys - visited == (g.deps.Keys - visited - {node}) + {node};
      visited := visited + {node};
      recStack := recStack + {node};
      path := path + [node];
    }

    /** Takes `node` off the recursion stack: everything below it has been searched. */
    method Leave(node: Name)
      requires Valid() && path != [] && path[|path| - 1] == node
      requires node in g.deps && Searched(g.deps[node], visited, recStack)
      modifies this
      ensures Valid() && path == old(path[..|path| - 1])
      ensures visited == old(visited) && recStack == old(recStack) - {node}
      ensures Unvisited() == old(Unvisited())
    {
      hide SearchState;
      assert path == path[..|path| - 1] + [node];
      LeaveNode(g, visited, recStack, path[..|path| - 1], finished, node);
      path := path[..|path| - 1];
      recStack := recStack - {node};
      finished := finished + [node];
    }

    /** The body of the loop over `node`'s dependency list. */
    method VisitNeighbor(node: Name, neighbor: Name) returns (cycle: Option<seq<Name>>)
      requires Valid() && path != [] && path[|path| - 1] == node && Edge(g, node, neighbor)
      modifies this
      decreases Unvisited(), 1
      ensures cycle.Some? ==> SimpleCycle(g, cycle.value)
      ensures cycle.None? ==> Valid() && path == old(path) && recStack == old(recStack)
      ensures cycle.None? ==> old(visited) <= visited && neighbor in visited && neighbor !in recStack
      ensures Unvisited() <= old(Unvisited())
    {
      hide SearchState, SimpleCycle;
      cycle := None;
      NeighborFacts(g, visited, recStack, path, finished, neighbor);
      if neighbor !in visited {
        cycle := FindCycle(neighbor);
      } else if neighbor in recStack {
        var start := IndexOf(path, neighbor);
        PathCloses(g, visited, recStack, path, finished, start, neighbor);
        cycle := Some(path[start..] + [neighbor]);
      }
    }
  }

  lemma NeighborFacts(g: Graph, visited: set<Name>, recStack: set<Name>, path: seq<Name>, finished: seq<Name>, d: Name)
    requires SearchState(g, visited, recStack, path, finished)
    requires path != [] && Edge(g, path[|path| - 1], d)
    ensures d in g.deps && recStack <= visited && (d in recStack <==> d in path)
  {
    assert d in g.deps || d in g.Missing();
  }

  lemma PathCloses(g: Graph, visited: set<Name>, recStack: set<Name>, path: seq<Name>, finished: seq<Name>, start: nat,
                   n: Name)
    requires SearchState(g, visited, recStack, path, finished)
    requires start < |path| && path[start] == n && Edge(g, path[|path| - 1], n)
    ensures SimpleCycle(g, path[start..] + [n])
  {
    var c := path[start..] + [n];
    assert c[..|c| - 1] == path[start..];
    forall i | 0 <= i < |c| - 1
      ensures Linked(g, c, i)
    {
      assert i < |c| - 2 ==> Linked(g, path, start + i);
    }
  }

  /** `list.index`: the position of the first occurrence. */
  method IndexOf(s: seq<Name>, x: Name) returns (i: nat)
    requires x in s
    ensures i < |s| && s[i] == x && x !in s[..i]
  {
    i := 0;
    while s[i] != x
      invariant i < |s| && x !in s[..i]
      decreases |s| - i
    {
      i := i + 1;
    }
  }

  /** A dependencies-first listing of all nodes is a rank function: take positions. */
  lemma ListingGivesRank(g: Graph, s: seq<Name>)
    requires g.Valid() && NoDup(s) && DepsFirst(g, s) && Elements(s) == g.deps.Keys
    ensures HasRank(g)
  {
    var rank := map n | n in g.deps :: Position(s, n);
    forall a, b | Edge(g, a, b)
      ensures b in rank && rank[b] < rank[a]
    {
      assert a in Elements(s);
      var k := Position(s, a);
      assert DepsBefore(g, s, k);
      var j :| 0 <= j < k && s[j] == b;
      assert b in Elements(s);
    }
    assert Ranked(g, rank);
  }

  ghost function Position(s: seq<Name>, n: Name): (k: nat)
    ensures n in s ==> k < |s| && s[k] == n
  {
    if n in s then var k :| 0 <= k < |s| && s[k] == n; k else 0
  }

  /** `path` is a simple walk through nodes that are not listed yet. */
  ghost predicate Unlisted(g: Graph, done: set<Name>, path: seq<Name>) {
    path != [] && Chain(g, path) && NoDup(path) && Elements(path) <= g.deps.Keys - done
  }

  /** Following unlisted dependencies without closing a cycle ends at a node whose dependencies are all listed. */
  lemma {:induction false} UnlistedSource(g: Graph, done: set<Name>, path: seq<Name>) returns (m: Name)
    requires g.Missing() == {} && !Cyclic(g) && Unlisted(g, done, path)
    ensures m in g.deps && m !in done && forall d | d in g.deps[m] :: d in done
    decreases |g.deps.Keys - Elements(path)|
  {
    hide Cyclic, Unlisted, Graph.Missing, Elements;
    m := LastUnlisted(g, done, path);
    if d :| d in g.deps[m] && d !in done {
      if d in path { LoopIsCyclic(g, path, d); }
      UnlistedGrows(g, done, path, d);
      m := UnlistedSource(g, done, path + [d]);
    }
  }

  lemma LastUnlisted(g: Graph, done: set<Name>, path: seq<Name>) returns (m: Name)
    requires Unlisted(g, done, path)
    ensures m == path[|path| - 1] && m in g.deps && m !in done && Chain(g, path)
  {
    m := path[|path| - 1];
    assert m in Elements(path);
  }

  lemma UnlistedGrows(g: Graph, done: set<Name>, path: seq<Name>, d: Name)
    requires g.Missing() == {} && Unlisted(g, done, path)
    requires Edge(g, path[|path| - 1], d) && d !in done && d !in path
    ensures Unlisted(g, done, path + [d])
    ensures |g.deps.Keys - Elements(path + [d])| < |g.deps.Keys - Elements(path)|
  {
    NotMissing(g, path[|path| - 1], d);
    ChainGrows(g, path, d);
    hide Chain, Graph.Missing, Edge;
    assert Elements(path + [d]) == Elements(path) + {d};
    assert g.deps.Keys - Elements(path) == (g.deps.Keys - Elements(path + [d])) + {d};
  }

  lemma NotMissing(g: Graph, n: Name, d: Name)
    requires g.Missing() == {} && Edge(g, n, d)
    ensures d in g.deps
  {
    assert d !in g.Missing();
  }

  lemma ChainGrows(g: Graph, path: seq<Name>, d: Name)
    requires path != [] && Chain(g, path) && Edge(g, path[|path| - 1], d)
    ensures Chain(g, path + [d])
  {
    forall i: nat | i < |path|
      ensures Linked(g, path + [d], i)
    {
      if i < |path| - 1 { assert Linked(g, path, i); }
    }
  }

  lemma LoopIsCyclic(g: Graph, path: seq<Name>, d: Name)
    requires d in path && Chain(g, path) && Edge(g, path[|path| - 1], d)
    ensures Cyclic(g)
  {
    var i :| 0 <= i < |path| && path[i] == d;
    ChainGrows(g, path, d);
    var w := (path + [d])[i..];
    forall j: nat | j < |w| - 1
      ensures Linked(g, w, j)
    {
      assert Linked(g, path + [d], i + j);
    }
    assert WalkFromTo(g, w, d, d);
    assert Reaches(g, d, d);
  }

  lemma {:induction false} FullListing(g: Graph, s: seq<Name>) returns (t: seq<Name>)
    requires g.Valid() && g.Missing() == {} && !Cyclic(g)
    requires NoDup(s) && DepsFirst(g, s) && Elements(s) <= g.deps.Keys
    ensures NoDup(t) && DepsFirst(g, t) && Elements(t) == g.deps.Keys
    decreases |g.deps.Keys - Elements(s)|
  {
    hide Cyclic, Graph.Valid, Graph.Missing;
    t := s;
    if n :| n in g.deps && n !in Elements(s) {
      assert Elements([n]) == {n};
      var m := UnlistedSource(g, Elements(s), [n]);
      ListingGrows(g, s, m);
      t := FullListing(g, s + [m]);
    }
  }

  lemma ListingGrows(g: Graph, s: seq<Name>, m: Name)
    requires NoDup(s) && DepsFirst(g, s) && m in g.deps && m !in Elements(s)
    requires forall d | d in g.deps[m] :: d in Elements(s)
    ensures NoDup(s + [m]) && DepsFirst(g, s + [m]) && Elements(s + [m]) == Elements(s) + {m}
  {
    var t := s + [m];
    forall k | 0 <= k < |t|
      ensures DepsBefore(g, t, k)
    {
      if k < |s| {
        assert DepsBefore(g, s, k) && t[..k] == s[..k];
      } else {
        assert t[..k] == s;
      }
    }
  }

  /** Every acyclic graph without missing nodes has a rank function, and so is accepted unless it is empty. */
  lemma AcyclicHasRank(g: Graph)
    requires g.Valid() && g.Missing() == {} && !Cyclic(g)
    ensures HasRank(g)
  {
    hide Cyclic, HasRank;
    var s := FullListing(g, []);
    ListingGivesRank(g, s);
  }

  lemma CycleIsCyclic(g: Graph, c: seq<Name>)
    requires SimpleCycle(g, c)
    ensures Cyclic(g)
  {
    assert WalkFromTo(g, c, c[0], c[0]);
    assert Reaches(g, c[0], c[0]);
  }

  /** The outer loop: starts a search at every node not visited yet. */
  method SearchAll(g: Graph) returns (cycle: Option<seq<Name>>)
    requires g.Valid() && g.Missing() == {}
    ensures cycle.Some? ==> SimpleCycle(g, cycle.value)
    ensures cycle.None? ==> HasRank(g)
  {
    hide SearchState, SimpleCycle, Searched;
    var finder := new CycleFinder(g);
    SearchedNone(g.order, finder.visited, {});
    for k := 0 to |g.order|
      invariant finder.Valid() && finder.g == g && finder.path == []
      invariant Searched(g.order[..k], finder.visited, {})
    {
      ghost var seen := finder.visited;
      if g.order[k] !in finder.visited {
        cycle := finder.FindCycle(g.order[k]);
        if cycle.Some? { return; }
      }
      SearchedMore(g.order, k, seen, finder.visited, {});
    }
    assert g.order[..|g.order|] == g.order;
    AllFinished(g, finder.visited, finder.recStack, finder.finished);
    return None;
  }

  lemma AllFinished(g: Graph, visited: set<Name>, recStack: set<Name>, finished: seq<Name>)
    requires SearchState(g, visited, recStack, [], finished)
    requires Searched(g.order, visited, {})
    ensures HasRank(g)
  {
    assert Elements(finished) == g.deps.Keys;
    ListingGivesRank(g, finished);
  }

  /** `d` is listed by a node without being one. */
  ghost predicate Absent(g: Graph, d: Name) {
    d !in g.deps && exists n :: Edge(g, n, d)
  }

  lemma MissingMeans(g: Graph, d: Name)
    ensures d in g.Missing() <==> Absent(g, d)
  {
    if d in g.Missing() {
      var n :| n in g.deps && d in g.deps[n];
      assert Edge(g, n, d);
    }
    if Absent(g, d) {
      var n :| Edge(g, n, d);
      assert n in g.deps && d in g.deps[n];
    }
  }

  lemma RankExcludesCycle(g: Graph)
    ensures HasRank(g) ==> !Cyclic(g)
  {
    if HasRank(g) { RankedIsAcyclic(g); }
  }

  /** The whole check. It returns exactly on the graphs that are non-empty, complete and acyclic,
      and every way of raising is characterised. */
  method SanitizeDependencyGraph(g: Graph) returns (v: Verdict)
    requires g.Valid()
    ensures v.UnionOfNothing? <==> g.order == []
    ensures v.MissingNodes? <==> g.order != [] && g.Missing() != {}
    ensures v.MissingNodes? ==> v.names != {} && forall d :: d in v.names <==> Absent(g, d)
    ensures v.CycleFound? <==> g.order != [] && g.Missing() == {} && Cyclic(g)
    ensures v.CycleFound? ==> SimpleCycle(g, v.cycle)
    ensures v.Returns? <==> Accepted(g)
    ensures v.Returns? ==> !Cyclic(g)
  {
    hide HasRank, Cyclic, SimpleCycle, Absent;
    RankExcludesCycle(g);
    if g.order == [] { return UnionOfNothing; }
    var missing := g.Missing();
    if missing != {} {
      forall d
        ensures d in missing <==> Absent(g, d)
      {
        MissingMeans(g, d);
      }
      return MissingNodes(missing);
    }
    var cycle := SearchAll(g);
    if cycle.Some? {
      CycleIsCyclic(g, cycle.value);
      return CycleFound(cycle.value);
    }
    return Returns;
  }
}

/** Dependency graphs: adjacency lists in insertion order, walks, reachability and cycles. */
module Graphs {
  import opened Basics

  /** A Python dictionary from a node to its dependency list. `order` is the insertion order.
      Lists may repeat a node: the same crate can be listed as a normal, dev and build dependency. */
  datatype Graph = Graph(order: seq<Name>, deps: map<Name, seq<Name>>) {

    ghost predicate Valid() {
      NoDup(order) && (forall n :: n in order <==> n in deps)
    }

    /** `dependency_graph.get(n, [])` */
    function DepsOf(n: Name): seq<Name> {
      if n in deps then deps[n] else []
    }

    /** Dependencies that are listed somewhere without being nodes themselves. */
    function Missing(): set<Name> {
      set n, d | n in deps && d in deps[n] && d !in deps :: d
    }
  }

  /** `a` lists `b` as a dependency. */
  predicate Edge(g: Graph, a: Name, b: Name) {
    a in g.deps && b in g.deps[a]
  }

  /** Consecutive elements of `w` are joined by edges. */
  predicate Chain(g: Graph, w: seq<Name>) {
    forall i | 0 <= i < |w| - 1 :: Linked(g, w, i)
  }

  predicate Linked(g: Graph, w: seq<Name>, i: nat)
    requires i < |w| - 1
  {
    Edge(g, w[i], w[i + 1])
  }

  /** A walk of at least one edge from `a` to `b`. */
  predicate WalkFromTo(g: Graph, w: seq<Name>, a: Name, b: Name) {
    |w| >= 2 && w[0] == a && w[|w| - 1] == b && Chain(g, w)
  }

  /** `b` is a direct or transitive dependency of `a`. */
  ghost predicate Reaches(g: Graph, a: Name, b: Name) {
    exists w :: WalkFromTo(g, w, a, b)
  }

  ghost predicate Cyclic(g: Graph) {
    exists a :: Reaches(g, a, a)
  }

  /** `rank` strictly decreases along every dependency edge. */
  ghost predicate Ranked(g: Graph, rank: map<Name, nat>) {
    && (forall n :: n in g.deps <==> n in rank)
    && (forall a, b | Edge(g, a, b) :: b in rank && rank[b] < rank[a])
  }

  ghost predicate HasRank(g: Graph) {
    exists rank :: Ranked(g, rank)
  }

  /** What `DAG.__init__` lets through: a non-empty graph without missing dependencies whose edges descend. */
  ghost predicate Accepted(g: Graph) {
    g.Valid() && g.order != [] && g.Missing() == {} && HasRank(g)
  }

  lemma EdgeReaches(g: Graph, a: Name, b: Name)
    requires Edge(g, a, b)
    ensures Reaches(g, a, b)
  {
    assert WalkFromTo(g, [a, b], a, b);
  }

  lemma ReachesTrans(g: Graph, a: Name, b: Name, c: Name)
    requires Reaches(g, a, b) && Reaches(g, b, c)
    ensures Reaches(g, a, c)
  {
    var v :| WalkFromTo(g, v, a, b);
    var w :| WalkFromTo(g, w, b, c);
    var u := v + w[1..];
    forall i | 0 <= i < |u| - 1
      ensures Linked(g, u, i)
    {
      if i < |v| - 1 {
        assert Linked(g, v, i);
      } else {
        assert Linked(g, w, i - |v| + 1);
      }
    }
    assert WalkFromTo(g, u, a, c);
  }

  lemma TailIsChain(g: Graph, w: seq<Name>)
    requires Chain(g, w) && |w| >= 1
    ensures Chain(g, w[1..])
  {
    forall i | 0 <= i < |w| - 2
      ensures Linked(g, w[1..], i)
    {
      assert Linked(g, w, i + 1);
    }
  }

  /** Every walk starts with an edge: a transitive dependency is a direct one, or hangs below a direct one. */
  lemma FirstStep(g: Graph, a: Name, b: Name) returns (d: Name)
    requires Reaches(g, a, b)
    ensures Edge(g, a, d) && (d == b || Reaches(g, d, b))
  {
    var w :| WalkFromTo(g, w, a, b);
    d := w[1];
    assert Linked(g, w, 0);
    if |w| > 2 {
      TailIsChain(g, w);
      assert WalkFromTo(g, w[1..], d, b);
    }
  }

  lemma {:induction false} ChainDescends(g: Graph, rank: map<Name, nat>, w: seq<Name>)
    requires Ranked(g, rank) && Chain(g, w) && |w| >= 2
    ensures w[0] in rank && w[|w| - 1] in rank && rank[w[|w| - 1]] < rank[w[0]]
  {
    assert Linked(g, w, 0);
    if |w| > 2 {
      TailIsChain(g, w);
      ChainDescends(g, rank, w[1..]);
    }
  }

  lemma ReachesDescends(g: Graph, rank: map<Name, nat>, a: Name, b: Name)
    requires Ranked(g, rank) && Reaches(g, a, b)
    ensures a in rank && b in rank && rank[b] < rank[a]
  {
    var w :| WalkFromTo(g, w, a, b);
    ChainDescends(g, rank, w);
  }

  /** A rank function rules out every cycle, self-loops included. */
  lemma RankedIsAcyclic(g: Graph)
    requires HasRank(g)
    ensures !Cyclic(g)
  {
    var rank :| Ranked(g, rank);
    forall a | Reaches(g, a, a)
      ensures false
    {
      ReachesDescends(g, rank, a, a);
    }
  }

  // ---- depth-first searches ----

  /** Every node of `deps` has been visited and has left the recursion stack. */
  predicate Searched(deps: seq<Name>, visited: set<Name>, stack: set<Name>) {
    forall d | d in deps :: d in visited && d !in stack
  }

  lemma SearchedNone(deps: seq<Name>, visited: set<Name>, stack: set<Name>)
    ensures Searched(deps[..0], visited, stack)
  {
  }

  lemma SearchedMore(deps: seq<Name>, k: nat, seen: set<Name>, visited: set<Name>, stack: set<Name>)
    requires k < |deps| && Searched(deps[..k], seen, stack)
    requires seen <= visited && deps[k] in visited && deps[k] !in stack
    ensures Searched(deps[..k + 1], visited, stack)
    ensures k + 1 == |deps| ==> Searched(deps, visited, stack)
  {
    assert deps[..k + 1] == deps[..k] + [deps[k]];
    assert deps[..|deps|] == deps;
  }
}

/** The bookkeeping of one walk: `_NodeState` and `_State`, as objects and as a value. */
module NodeStates {
  import opened Basics
  import opened Graphs

  /** The contents of a `_State`. `order` is the insertion order of the dictionary `_node_states`. */
  datatype Sched = Sched(
    order: seq<Name>,
    pending: map<Name, int>,
    dependents: map<Name, seq<Name>>,
    started: set<Name>,
    queue: seq<Name>,
    numFinished: nat)

  const EMPTY := Sched([], map[], map[], {}, [], 0)

  // ---- what each operation does to the value ----

  function Insert(s: Sched, n: Name): Sched {
    if n in s.pending then s
    else s.(order := s.order + [n], pending := s.pending[n := 0], dependents := s.dependents[n := []])
  }

  function Link(s: Sched, node: Name, dep: Name): Sched {
    var t := Insert(s, dep);
    t.(dependents := t.dependents[dep := Dependents(t, dep) + [node]])
  }

  function Dependents(s: Sched, n: Name): seq<Name> {
    if n in s.dependents then s.dependents[n] else []
  }

  function Pending(s: Sched, n: Name): int {
    if n in s.pending then s.pending[n] else 0
  }

  function LinkAll(s: Sched, node: Name, deps: seq<Name>): Sched {
    if deps == [] then s else Link(LinkAll(s, node, deps[..|deps| - 1]), node, deps[|deps| - 1])
  }

  lemma LinkAllStep(s: Sched, node: Name, deps: seq<Name>, j: nat)
    requires j < |deps|
    ensures LinkAll(s, node, deps[..j + 1]) == Link(LinkAll(s, node, deps[..j]), node, deps[j])
  {
    assert deps[..j + 1][..j] == deps[..j];
  }

  function AddNode(s: Sched, node: Name, deps: seq<Name>): Sched {
    var t := Insert(s, node);
    LinkAll(t.(pending := t.pending[node := Pending(t, node) + |deps|]), node, deps)
  }

  function AddNodes(g: Graph, k: nat): Sched
    requires k <= |g.order|
  {
    if k == 0 then EMPTY else AddNode(AddNodes(g, k - 1), g.order[k - 1], g.DepsOf(g.order[k - 1]))
  }

  /** The nodes without pending dependencies, in insertion order. */
  function Sources(order: seq<Name>, pending: map<Name, int>): seq<Name> {
    if order == [] then [] else
      var n := order[|order| - 1];
      Sources(order[..|order| - 1], pending) + if n in pending && pending[n] == 0 then [n] else []
  }

  function Initial(g: Graph): Sched {
    var s := AddNodes(g, |g.order|);
    s.(queue := s.queue + Sources(s.order, s.pending))
  }

  function MarkStarted(s: Sched, n: Name): Sched {
    s.(started := s.started + {n})
  }

  function Release(s: Sched, n: Name): Sched {
    var p := Pending(s, n) - 1;
    s.(pending := s.pending[n := p], queue := if p == 0 then s.queue + [n] else s.queue)
  }

  /** Decrements one counter per element of `xs`. None: the assertion on a positive counter failed. */
  function ReleaseAll(s: Sched, xs: seq<Name>): Option<Sched> {
    if xs == [] then Some(s) else
      match ReleaseAll(s, xs[..|xs| - 1])
      case None => None
      case Some(t) =>
        if Pending(t, xs[|xs| - 1]) > 0 then Some(Release(t, xs[|xs| - 1])) else None
  }

  /** Once an assertion has failed on a prefix, the whole loop has failed. */
  lemma {:induction false} ReleaseAllStops(s: Sched, xs: seq<Name>, i: nat)
    requires i <= |xs| && ReleaseAll(s, xs[..i]).None?
    ensures ReleaseAll(s, xs).None?
    decreases |xs|
  {
    if i < |xs| {
      assert xs[..|xs| - 1][..i] == xs[..i];
      ReleaseAllStops(s, xs[..|xs| - 1], i);
    } else {
      assert xs[..i] == xs;
    }
  }

  function FinishNode(s: Sched, n: Name): Option<Sched> {
    match ReleaseAll(s, Dependents(s, n))
    case None => None
    case Some(t) => Some(t.(numFinished := t.numFinished + 1))
  }

  predicate Done(s: Sched) {
    s.numFinished == |s.pending|
  }

  /** The two assertions of `_sanity_check`, for every node. */
  predicate Sane(s: Sched) {
    forall n | n in s.pending :: s.pending[n] == 0 && n in s.started
  }

  // ---- what `__init__` computes ----

  /** How often `d` lists `n` as a dependent. */
  function Listed(s: Sched, d: Name, n: Name): nat {
    multiset(Dependents(s, d))[n]
  }

  ghost predicate Shape(s: Sched) {
    NoDup(s.order) && Elements(s.order) == s.pending.Keys == s.dependents.Keys
  }

  lemma OrderIsKeys(s: Sched)
    requires Shape(s)
    ensures forall n :: n in s.order <==> n in s.pending
  {
    forall n
      ensures n in s.order <==> n in s.pending
    {
      assert n in Elements(s.order) <==> n in s.pending.Keys;
    }
  }

  lemma InsertShape(s: Sched, n: Name)
    requires Shape(s)
    ensures Shape(Insert(s, n)) && Insert(s, n).pending.Keys == s.pending.Keys + {n}
  {
    if n !in s.pending {
      assert n !in Elements(s.order);
      assert Elements(s.order + [n]) == Elements(s.order) + {n};
    }
  }

  lemma InsertListed(s: Sched, node: Name, d: Name, n: Name)
    requires Shape(s)
    ensures Listed(Insert(s, node), d, n) == Listed(s, d, n)
  {
    assert node !in s.pending <==> node !in s.dependents;
  }

  lemma SetPendingListed(s: Sched, node: Name, v: int, d: Name, n: Name)
    ensures Listed(s.(pending := s.pending[node := v]), d, n) == Listed(s, d, n)
  {
  }

  lemma SetPendingShape(s: Sched, n: Name, v: int)
    requires Shape(s) && n in s.pending
    ensures Shape(s.(pending := s.pending[n := v])) && s.pending[n := v].Keys == s.pending.Keys
  {
    assert s.pending[n := v].Keys == s.pending.Keys;
  }

  lemma {:induction false} LinkAllShape(s: Sched, node: Name, deps: seq<Name>)
    requires Shape(s)
    ensures Shape(LinkAll(s, node, deps))
    ensures LinkAll(s, node, deps).pending.Keys == s.pending.Keys + Elements(deps)
  {
    if deps != [] {
      var r, x := deps[..|deps| - 1], deps[|deps| - 1];
      assert deps == r + [x];
      assert Elements(deps) == Elements(r) + {x};
      LinkAllShape(s, node, r);
      InsertShape(LinkAll(s, node, r), x);
    }
  }

  lemma {:induction false} LinkAllPending(s: Sched, node: Name, deps: seq<Name>, n: Name)
    ensures Pending(LinkAll(s, node, deps), n) == Pending(s, n)
  {
    if deps != [] {
      LinkAllPending(s, node, deps[..|deps| - 1], n);
    }
  }

  lemma {:induction false} LinkAllListed(s: Sched, node: Name, deps: seq<Name>, d: Name, n: Name)
    requires Shape(s)
    ensures Listed(LinkAll(s, node, deps), d, n) == Listed(s, d, n) + if n == node then multiset(deps)[d] else 0
  {
    if deps != [] {
      var r, x := deps[..|deps| - 1], deps[|deps| - 1];
      assert deps == r + [x];
      LinkAllListed(s, node, r, d, n);
      LinkAllShape(s, node, r);
      LinkListed(LinkAll(s, node, r), node, x, d, n);
    }
  }

  lemma LinkListed(s: Sched, node: Name, dep: Name, d: Name, n: Name)
    requires Shape(s)
    ensures Listed(Link(s, node, dep), d, n) == Listed(s, d, n) + if d == dep && n == node then 1 else 0
  {
    assert dep !in s.pending <==> dep !in s.dependents;
    assert multiset(Dependents(s, dep) + [node]) == multiset(Dependents(s, dep)) + multiset{node};
  }

  lemma AddNodeShape(s: Sched, node: Name, deps: seq<Name>)
    requires Shape(s)
    ensures Shape(AddNode(s, node, deps))
    ensures AddNode(s, node, deps).pending.Keys == s.pending.Keys + {node} + Elements(deps)
  {
    hide Shape, Insert, LinkAll, Listed;
    var t := Insert(s, node);
    InsertShape(s, node);
    SetPendingShape(t, node, Pending(t, node) + |deps|);
    var u := t.(pending := t.pending[node := Pending(t, node) + |deps|]);
    LinkAllShape(u, node, deps);
  }

  lemma AddNodePending(s: Sched, node: Name, deps: seq<Name>, n: Name)
    ensures Pending(AddNode(s, node, deps), n) == Pending(s, n) + if n == node then |deps| else 0
  {
    var t := Insert(s, node);
    LinkAllPending(t.(pending := t.pending[node := Pending(t, node) + |deps|]), node, deps, n);
  }

  lemma AddNodeListed(s: Sched, node: Name, deps: seq<Name>, d: Name, n: Name)
    requires Shape(s)
    ensures Listed(AddNode(s, node, deps), d, n) == Listed(s, d, n) + if n == node then multiset(deps)[d] else 0
  {
    hide Shape, Insert, LinkAll, Listed;
    var t := Insert(s, node);
    InsertShape(s, node);
    SetPendingShape(t, node, Pending(t, node) + |deps|);
    var u := t.(pending := t.pending[node := Pending(t, node) + |deps|]);
    LinkAllListed(u, node, deps, d, n);
    InsertListed(s, node, d, n);
    SetPendingListed(t, node, Pending(t, node) + |deps|, d, n);
  }

  lemma {:induction false} AddNodesShape(g: Graph, k: nat)
    requires k <= |g.order|
    ensures Shape(AddNodes(g, k))
  {
    if k > 0 {
      AddNodesShape(g, k - 1);
      AddNodeShape(AddNodes(g, k - 1), g.order[k - 1], g.DepsOf(g.order[k - 1]));
    }
  }

  lemma PrefixStep(s: seq<Name>, k: nat, n: Name)
    requires NoDup(s) && 0 < k <= |s|
    ensures n in s[..k] <==> n in s[..k - 1] || n == s[k - 1]
    ensures !(n in s[..k - 1] && n == s[k - 1])
  {
    assert s[..k] == s[..k - 1] + [s[k - 1]];
  }

  lemma AddNodeKeys(s: Sched, node: Name, deps: seq<Name>, n: Name)
    requires Shape(s)
    ensures n in AddNode(s, node, deps).pending <==> n in s.pending || n == node || n in deps
  {
    hide Shape, AddNode;
    AddNodeShape(s, node, deps);
  }

  lemma DepsKnown(g: Graph, node: Name, n: Name)
    requires n in g.DepsOf(node)
    ensures n in g.deps || n in g.Missing()
  {
  }

  lemma PrefixMember(s: seq<Name>, k: nat, n: Name)
    requires 0 < k <= |s|
    ensures n in s[..k] <==> n in s[..k - 1] || n == s[k - 1]
    ensures s[k - 1] in s
  {
    assert s[..k] == s[..k - 1] + [s[k - 1]];
  }

  lemma {:induction false} AddNodesHas(g: Graph, k: nat, n: Name)
    requires k <= |g.order| && n in g.order[..k]
    ensures n in AddNodes(g, k).pending
  {
    hide AddNode, Shape, Graph.DepsOf;
    PrefixMember(g.order, k, n);
    if n in g.order[..k - 1] { AddNodesHas(g, k - 1, n); }
    AddNodesShape(g, k - 1);
    AddNodeKeys(AddNodes(g, k - 1), g.order[k - 1], g.DepsOf(g.order[k - 1]), n);
  }

  lemma {:induction false} AddNodesOnly(g: Graph, k: nat, n: Name)
    requires k <= |g.order| && n in AddNodes(g, k).pending
    ensures n in g.order || n in g.deps || n in g.Missing()
  {
    if k > 0 {
      hide AddNode, Shape, Graph.Missing, Graph.DepsOf;
      var node := g.order[k - 1];
      AddNodesShape(g, k - 1);
      AddNodeKeys(AddNodes(g, k - 1), node, g.DepsOf(node), n);
      if n in AddNodes(g, k - 1).pending {
        AddNodesOnly(g, k - 1, n);
      } else if n in g.DepsOf(node) {
        DepsKnown(g, node, n);
      }
    }
  }

  /** The counter of a node that has been added is the length of its dependency list, repeats included. */
  lemma {:induction false} AddNodesPending(g: Graph, k: nat, n: Name)
    requires NoDup(g.order) && k <= |g.order|
    ensures Pending(AddNodes(g, k), n) == if n in g.order[..k] then |g.DepsOf(n)| else 0
  {
    if k > 0 {
      hide AddNode, NoDup;
      AddNodesPending(g, k - 1, n);
      AddNodePending(AddNodes(g, k - 1), g.order[k - 1], g.DepsOf(g.order[k - 1]), n);
      PrefixStep(g.order, k, n);
    }
  }

  /** `d` lists `n` as a dependent exactly as often as `n` lists `d` as a dependency. */
  lemma {:induction false} AddNodesListed(g: Graph, k: nat, d: Name, n: Name)
    requires NoDup(g.order) && k <= |g.order|
    ensures Listed(AddNodes(g, k), d, n) == if n in g.order[..k] then multiset(g.DepsOf(n))[d] else 0
  {
    hide AddNode, NoDup, Shape, Listed, Graph.DepsOf;
    if k > 0 {
      AddNodesListed(g, k - 1, d, n);
      AddNodesShape(g, k - 1);
      AddNodeListed(AddNodes(g, k - 1), g.order[k - 1], g.DepsOf(g.order[k - 1]), d, n);
      PrefixStep(g.order, k, n);
    } else {
      EmptyListed(d, n);
    }
  }

  lemma EmptyListed(d: Name, n: Name)
    ensures Listed(EMPTY, d, n) == 0
  {
  }

  lemma {:induction false} SourcesFacts(order: seq<Name>, pending: map<Name, int>)
    requires NoDup(order)
    ensures NoDup(Sources(order, pending))
    ensures forall n :: n in Sources(order, pending) <==> n in order && n in pending && pending[n] == 0
  {
    if order != [] {
      var r, n := order[..|order| - 1], order[|order| - 1];
      assert order == r + [n];
      SourcesFacts(r, pending);
      assert n !in r;
    }
  }

  lemma {:induction false} LinkAllRest(s: Sched, node: Name, deps: seq<Name>)
    ensures var t := LinkAll(s, node, deps);
            t.queue == s.queue && t.started == s.started && t.numFinished == s.numFinished
  {
    if deps != [] { LinkAllRest(s, node, deps[..|deps| - 1]); }
  }

  lemma AddNodeRest(s: Sched, node: Name, deps: seq<Name>)
    ensures var t := AddNode(s, node, deps);
            t.queue == s.queue && t.started == s.started && t.numFinished == s.numFinished
  {
    var t := Insert(s, node);
    LinkAllRest(t.(pending := t.pending[node := Pending(t, node) + |deps|]), node, deps);
  }

  lemma {:induction false} AddNodesRest(g: Graph, k: nat)
    requires k <= |g.order|
    ensures var t := AddNodes(g, k); t.queue == [] && t.started == {} && t.numFinished == 0
  {
    if k > 0 {
      hide AddNode;
      AddNodesRest(g, k - 1);
      AddNodeRest(AddNodes(g, k - 1), g.order[k - 1], g.DepsOf(g.order[k - 1]));
    }
  }

  /** `s` covers the nodes of `g`, and its dependents are the edges of `g` turned round, repeats included. */
  ghost predicate Wired(g: Graph, s: Sched) {
    && s.pending.Keys == s.dependents.Keys == g.deps.Keys
    && forall d, n :: Listed(s, d, n) == multiset(g.DepsOf(n))[d]
  }

  /** What `__init__` establishes on a graph without missing nodes. */
  lemma InitialFacts(g: Graph)
    requires g.Valid() && g.Missing() == {}
    ensures Wired(g, Initial(g))
    ensures forall n | n in g.deps :: Pending(Initial(g), n) == |g.deps[n]|
    ensures NoDup(Initial(g).queue)
    ensures forall n :: n in Initial(g).queue <==> n in g.deps && g.deps[n] == []
    ensures Initial(g).started == {} && Initial(g).numFinished == 0
  {
    hide Listed, AddNodes;
    var k := |g.order|;
    var s := AddNodes(g, k);
    assert g.order[..k] == g.order;
    AddNodesShape(g, k);
    AddNodesRest(g, k);
    OrderIsKeys(s);
    SourcesFacts(s.order, s.pending);
    forall n
      ensures n in s.pending <==> n in g.deps
      ensures Pending(s, n) == |g.DepsOf(n)|
    {
      if n in g.order { AddNodesHas(g, k, n); }
      if n in s.pending { AddNodesOnly(g, k, n); }
      AddNodesPending(g, k, n);
    }
    assert s.pending.Keys == g.deps.Keys;
    forall d, n
      ensures Listed(Initial(g), d, n) == multiset(g.DepsOf(n))[d]
    {
      AddNodesListed(g, k, d, n);
      SetQueueListed(s, Initial(g).queue, d, n);
    }
  }

  lemma SetQueueListed(s: Sched, queue: seq<Name>, d: Name, n: Name)
    ensures Listed(s.(queue := queue), d, n) == Listed(s, d, n)
  {
  }

  // ---- what `_finish` computes ----

  /** The elements of `xs` whose counter is exactly used up by the occurrences in `xs`. */
  ghost function Exhausted(s: Sched, xs: seq<Name>): set<Name> {
    set n | n in xs && Pending(s, n) == multiset(xs)[n]
  }

  /** If every counter covers the occurrences in `xs`, no assertion fails, every counter drops by its number
      of occurrences, and exactly the exhausted nodes are queued, each once. */
  lemma {:induction false} ReleaseAllFacts(s: Sched, xs: seq<Name>)
    requires forall n | n in xs :: n in s.pending && multiset(xs)[n] <= Pending(s, n)
    ensures ReleaseAll(s, xs).Some?
    ensures var t := ReleaseAll(s, xs).value;
      && t == s.(pending := t.pending, queue := t.queue)
      && t.pending.Keys == s.pending.Keys
      && (forall n :: Pending(t, n) == Pending(s, n) - multiset(xs)[n])
      && multiset(t.queue) == multiset(s.queue) + multiset(Exhausted(s, xs))
  {
    if xs == [] {
      assert Exhausted(s, xs) == {};
    } else {
      var r, x := xs[..|xs| - 1], xs[|xs| - 1];
      assert xs == r + [x];
      assert multiset(xs) == multiset(r) + multiset{x};
      ReleaseAllFacts(s, r);
      ExhaustedStep(s, r, x);
    }
  }

  /** The exact condition for the assertions in the loop: each counter covers the occurrences of its node. */
  lemma {:induction false} ReleaseAllFails(s: Sched, xs: seq<Name>)
    requires forall n | n in xs :: n in s.pending
    ensures ReleaseAll(s, xs).Some? <==> forall n | n in xs :: multiset(xs)[n] <= Pending(s, n)
  {
    if xs == [] {
    } else if forall n | n in xs :: multiset(xs)[n] <= Pending(s, n) {
      ReleaseAllFacts(s, xs);
    } else {
      var r, x := xs[..|xs| - 1], xs[|xs| - 1];
      assert xs == r + [x];
      assert multiset(xs) == multiset(r) + multiset{x};
      ReleaseAllFails(s, r);
      if ReleaseAll(s, r).Some? { ReleaseAllFacts(s, r); }
    }
  }

  lemma ExhaustedStep(s: Sched, r: seq<Name>, x: Name)
    requires forall n | n in r + [x] :: multiset(r + [x])[n] <= Pending(s, n)
    ensures Pending(s, x) == multiset(r)[x] + 1 ==>
              x !in Exhausted(s, r) && Exhausted(s, r + [x]) == Exhausted(s, r) + {x}
    ensures Pending(s, x) != multiset(r)[x] + 1 ==> Exhausted(s, r + [x]) == Exhausted(s, r)
  {
    assert multiset(r + [x]) == multiset(r) + multiset{x};
    assert x in r + [x];
    forall n | n in r
      ensures n in r + [x]
    {
    }
  }

  // ---- the objects ----

  class NodeState {
    const node: Name
    var started: bool
    var pendingDependencies: int
    var dependents: seq<NodeState>

    constructor (node: Name)
      ensures this.node == node && !started && pendingDependencies == 0 && dependents == []
    {
      this.node := node;
      started, pendingDependencies, dependents := false, 0, [];
    }
  }

  function NamesOf(xs: seq<NodeState>): (names: seq<Name>)
    ensures |names| == |xs| && forall i | 0 <= i < |xs| :: names[i] == xs[i].node
  {
    seq(|xs|, i requires 0 <= i < |xs| => xs[i].node)
  }

  class State {
    var order: seq<Name>
    var nodeStates: map<Name, NodeState>
    var queue: seq<Name>
    var numFinished: nat
    ghost var model: Sched

    predicate Registered(x: NodeState)
      reads this
    {
      x.node in nodeStates && nodeStates[x.node] == x
    }

    /** The object stored under `n` holds what `model` says; its dependents are themselves stored objects. */
    ghost predicate Agrees(n: Name)
      requires n in nodeStates
      reads this, nodeStates[n]
    {
      var ns := nodeStates[n];
      && ns.node == n
      && n in model.pending && ns.pendingDependencies == model.pending[n]
      && (ns.started <==> n in model.started)
      && n in model.dependents && |ns.dependents| == |model.dependents[n]|
      && forall i | 0 <= i < |ns.dependents| ::
           Registered(ns.dependents[i]) && ns.dependents[i].node == model.dependents[n][i]
    }

    ghost predicate Valid()
      reads this, nodeStates.Values
    {
      && order == model.order && queue == model.queue && numFinished == model.numFinished
      && nodeStates.Keys == model.pending.Keys == model.dependents.Keys
      && model.started <= nodeStates.Keys
      && forall n | n in nodeStates :: Agrees(n)
    }

    constructor ()
      ensures Valid() && model == EMPTY && nodeStates == map[]
    {
      order, nodeStates, queue, numFinished := [], map[], [], 0;
      model := EMPTY;
    }

    method GetOrInsert(node: Name) returns (ns: NodeState)
      requires Valid()
      modifies this
      ensures Valid() && model == Insert(old(model), node)
      ensures Registered(ns) && ns.node == node
      ensures fresh(nodeStates.Values - old(nodeStates.Values))
      ensures forall n | n in old(nodeStates) :: n in nodeStates && nodeStates[n] == old(nodeStates[n])
    {
      if node !in nodeStates {
        var newState := new NodeState(node);
        nodeStates := nodeStates[node := newState];
        order := order + [node];
        model := Insert(model, node);
      }
      return nodeStates[node];
    }

    method AddDependent(dep: Name, dependent: NodeState)
      requires Valid() && Registered(dependent)
      modifies this, nodeStates.Values
      ensures Valid() && model == Link(old(model), dependent.node, dep)
      ensures Registered(dependent)
      ensures fresh(nodeStates.Values - old(nodeStates.Values))
    {
      var ns := GetOrInsert(dep);
      assert Agrees(dependent.node);
      Append(ns, dependent);
    }

    method Append(ns: NodeState, dependent: NodeState)
      requires Valid() && Registered(ns) && Registered(dependent)
      modifies this`model, ns`dependents
      ensures Valid()
      ensures model == old(model).(dependents :=
                old(model.dependents)[ns.node := Dependents(old(model), ns.node) + [dependent.node]])
    {
      ns.dependents := ns.dependents + [dependent];
      model := model.(dependents := model.dependents[ns.node := Dependents(model, ns.node) + [dependent.node]]);
      forall n | n in nodeStates
        ensures Agrees(n)
      {
        assert old(Agrees(n));
        if n != ns.node {
          assert nodeStates[n] != ns;
        }
      }
    }

    /** Changes one counter: by the length of a dependency list in `__init__`, by -1 in `_finish`. */
    method AddPending(ns: NodeState, count: int)
      requires Valid() && Registered(ns)
      modifies this`model, ns`pendingDependencies
      ensures Valid()
      ensures model == old(model).(pending := old(model.pending)[ns.node := Pending(old(model), ns.node) + count])
      ensures ns.pendingDependencies == Pending(old(model), ns.node) + count
    {
      ns.pendingDependencies := ns.pendingDependencies + count;
      model := model.(pending := model.pending[ns.node := Pending(model, ns.node) + count]);
      forall n | n in nodeStates
        ensures Agrees(n)
      {
        assert old(Agrees(n));
      }
    }

    /** The loop over one dependency list. */
    method LinkDeps(ns: NodeState, deps: seq<Name>)
      requires Valid() && Registered(ns)
      modifies this, nodeStates.Values
      ensures Valid() && fresh(nodeStates.Values - old(nodeStates.Values))
      ensures model == LinkAll(old(model), ns.node, deps)
    {
      hide Valid;
      for j := 0 to |deps|
        invariant Valid() && Registered(ns)
        invariant fresh(nodeStates.Values - old(nodeStates.Values))
        invariant model == LinkAll(old(model), ns.node, deps[..j])
      {
        AddDependent(deps[j], ns);
        LinkAllStep(old(model), ns.node, deps, j);
      }
      assert deps[..|deps|] == deps;
    }

    /** The body of `__init__` for one entry of the graph. */
    method BuildNode(node: Name, deps: seq<Name>)
      requires Valid()
      modifies this, nodeStates.Values
      ensures Valid() && fresh(nodeStates.Values - old(nodeStates.Values))
      ensures model == AddNode(old(model), node, deps)
    {
      hide Valid, LinkAll, Insert;
      var ns := GetOrInsert(node);
      AddPending(ns, |deps|);
      LinkDeps(ns, deps);
    }

    method FindSources() returns (sources: seq<Name>)
      requires Valid() && forall n | n in order :: n in nodeStates
      ensures sources == Sources(order, model.pending)
    {
      sources := [];
      for k := 0 to |order|
        invariant sources == Sources(order[..k], model.pending)
      {
        assert order[..k + 1][..k] == order[..k];
        assert Agrees(order[k]);
        if nodeStates[order[k]].pendingDependencies == 0 {
          sources := sources + [order[k]];
        }
      }
      assert order[..|order|] == order;
    }

    method Extend(more: seq<Name>)
      requires Valid()
      modifies this`queue, this`model
      ensures Valid() && model == old(model).(queue := old(queue) + more)
    {
      queue := queue + more;
      model := model.(queue := queue);
      forall n | n in nodeStates
        ensures Agrees(n)
      {
        assert old(Agrees(n));
      }
    }

    method AddAll(g: Graph)
      requires Valid() && nodeStates == map[] && model == EMPTY
      modifies this
      ensures Valid() && model == AddNodes(g, |g.order|) && fresh(nodeStates.Values)
    {
      hide Valid, AddNode;
      for k := 0 to |g.order|
        invariant Valid() && fresh(nodeStates.Values)
        invariant model == AddNodes(g, k)
      {
        BuildNode(g.order[k], g.DepsOf(g.order[k]));
      }
    }

    /** `__init__`. The result says whether its closing assertion holds. */
    method Build(g: Graph) returns (hasSources: bool)
      requires Valid() && nodeStates == map[] && model == EMPTY
      modifies this
      ensures Valid() && model == Initial(g) && fresh(nodeStates.Values)
      ensures hasSources <==> order == [] || queue != []
    {
      AddAll(g);
      AddNodesShape(g, |g.order|);
      OrderIsKeys(model);
      var sources := FindSources();
      Extend(sources);
      return |order| == 0 || 0 < |queue|;
    }

    method Start(node: Name)
      requires Valid() && node in nodeStates
      modifies this`model, nodeStates[node]
      ensures Valid() && model == MarkStarted(old(model), node)
    {
      nodeStates[node].started := true;
      model := MarkStarted(model, node);
      forall n | n in nodeStates
        ensures Agrees(n)
      {
        assert old(Agrees(n)) && old(Agrees(node));
      }
    }

    /** One turn of the loop in `_finish`. False: the assertion on a positive counter failed. */
    method ReleaseDependent(dependent: NodeState) returns (ok: bool)
      requires Valid() && Registered(dependent)
      modifies this`queue, this`model, dependent`pendingDependencies
      ensures ok <==> Pending(old(model), dependent.node) > 0
      ensures ok ==> Valid() && model == Release(old(model), dependent.node)
    {
      assert Agrees(dependent.node);
      hide Valid;
      if dependent.pendingDependencies <= 0 { return false; }
      AddPending(dependent, -1);
      if dependent.pendingDependencies == 0 {
        Extend([dependent.node]);
      }
      return true;
    }

    /** The loop in `_finish`. */
    method ReleaseDependents(dependents: seq<NodeState>) returns (ok: bool)
      requires Valid() && forall i | 0 <= i < |dependents| :: Registered(dependents[i])
      modifies this`queue, this`model, nodeStates.Values
      ensures ok <==> ReleaseAll(old(model), NamesOf(dependents)).Some?
      ensures ok ==> Valid() && model == ReleaseAll(old(model), NamesOf(dependents)).value
    {
      hide Valid, Release;
      ghost var names := NamesOf(dependents);
      for i := 0 to |dependents|
        invariant Valid() && ReleaseAll(old(model), names[..i]) == Some(model)
      {
        assert names[..i + 1][..i] == names[..i];
        assert Registered(dependents[i]);
        var released := ReleaseDependent(dependents[i]);
        if !released {
          ReleaseAllStops(old(model), names, i + 1);
          return false;
        }
      }
      assert names[..|names|] == names;
      return true;
    }

    method CountFinished()
      requires Valid()
      modifies this`numFinished, this`model
      ensures Valid() && model == old(model).(numFinished := old(model).numFinished + 1)
    {
      numFinished := numFinished + 1;
      model := model.(numFinished := numFinished);
      forall n | n in nodeStates
        ensures Agrees(n)
      {
        assert old(Agrees(n));
      }
    }

    /** `_finish`. False: an assertion failed on the way, exactly when `FinishNode` says so. */
    method Finish(node: Name) returns (ok: bool)
      requires Valid() && node in nodeStates
      modifies this`queue, this`numFinished, this`model, nodeStates.Values
      ensures ok <==> FinishNode(old(model), node).Some?
      ensures ok ==> Valid() && model == FinishNode(old(model), node).value
    {
      assert Agrees(node);
      assert NamesOf(nodeStates[node].dependents) == model.dependents[node];
      hide Valid;
      ok := ReleaseDependents(nodeStates[node].dependents);
      if ok {
        CountFinished();
      }
    }

    method IsDone() returns (done: bool)
      requires Valid()
      ensures done == Done(model)
    {
      assert model.pending.Keys == nodeStates.Keys;
      assert |model.pending| == |model.pending.Keys| && |nodeStates| == |nodeStates.Keys|;
      return numFinished == |nodeStates|;
    }

    /** `_sanity_check`. False: one of its assertions failed. */
    method SanityCheck() returns (ok: bool)
      requires Valid() && forall n :: n in order <==> n in nodeStates
      ensures ok == Sane(model)
      ensures ok <==> forall n | n in nodeStates :: nodeStates[n].pendingDependencies == 0 && nodeStates[n].started
    {
      for k := 0 to |order|
        invariant forall n | n in order[..k] :: n in model.pending && model.pending[n] == 0 && n in model.started
      {
        assert Agrees(order[k]);
        assert order[..k + 1] == order[..k] + [order[k]];
        if nodeStates[order[k]].pendingDependencies != 0 { return false; }
        if !nodeStates[order[k]].started { return false; }
      }
      assert order[..|order|] == order;
      return true;
    }
  }
}

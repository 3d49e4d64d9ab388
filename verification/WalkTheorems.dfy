/** The guarantees of `walk_parallel`, for every run: any graph, any number of workers, any interleaving. */
module WalkTheorems {
  import opened Basics
  import opened Graphs
  import opened NodeStates
  import opened RateLimiting
  import opened Walker
  import opened WalkInvariant
  import opened WalkSteps
  import opened WalkSafety

  /** `w` is the state after some run over `g`. */
  ghost predicate Arises(g: Graph, w: Walk) {
    exists numWorkers: nat, limiter, now, acts :: w == After(g, numWorkers, limiter, now, acts)
  }

  function After(g: Graph, numWorkers: nat, limiter: Limiter, now: real, acts: seq<Action>): Walk {
    Run(Begin(g, numWorkers, limiter, now), acts)
  }

  lemma ArisesInv(g: Graph, w: Walk)
    requires Complete(g) && Arises(g, w)
    ensures Inv(g, w)
  {
    var numWorkers: nat, limiter, now, acts :| w == After(g, numWorkers, limiter, now, acts);
    BeginInv(g, numWorkers, limiter, now);
    RunInv(g, Begin(g, numWorkers, limiter, now), acts);
  }

  // ---- ordering ----

  /** In an ordered log, everything a started node reaches has completed before. */
  lemma {:induction false} StartedAfterWalk(g: Graph, log: seq<Event>, i: nat, path: seq<Name>)
    requires Ordered(g, log) && i < |log| && log[i].Started?
    requires |path| >= 2 && Chain(g, path) && path[0] == log[i].node
    ensures Completed(path[|path| - 1]) in log[..i]
    decreases |path|
  {
    assert Linked(g, path, 0);
    assert Justified(g, log, i);
    assert Completed(path[1]) in log[..i];
    if |path| > 2 {
      var j :| 0 <= j < i && log[j] == Completed(path[1]);
      assert Justified(g, log, j);
      var k :| 0 <= k < j && log[k] == Started(path[1]);
      TailIsChain(g, path);
      StartedAfterWalk(g, log, k, path[1..]);
      var d := path[|path| - 1];
      var m :| 0 <= m < k && log[m] == Completed(d);
      assert log[..i][m] == Completed(d);
    }
  }

  /** `f` is called on a node only after it has returned for every direct and transitive dependency. */
  lemma StartsFollowDependencies(g: Graph, w: Walk, i: nat, d: Name)
    requires Complete(g) && Arises(g, w)
    requires i < |w.log| && w.log[i].Started? && Reaches(g, w.log[i].node, d)
    ensures Completed(d) in w.log[..i]
  {
    ArisesInv(g, w);
    hide Conserved, Counted, Recorded, Controlled, Ordered;
    var path :| WalkFromTo(g, path, w.log[i].node, d);
    StartedAfterWalk(g, w.log, i, path);
  }

  /** Completions, too, come in an order that respects the graph. */
  lemma CompletionsFollowDependencies(g: Graph, w: Walk, i: nat, d: Name)
    requires Complete(g) && Arises(g, w)
    requires i < |w.log| && w.log[i].Completed? && Reaches(g, w.log[i].node, d)
    ensures Completed(d) in w.log[..i]
  {
    ArisesInv(g, w);
    assert Justified(g, w.log, i);
    hide Conserved, Counted, Recorded, Controlled, Ordered, Complete, Graphs.Reaches;
    var n := w.log[i].node;
    var k :| 0 <= k < i && w.log[k] == Started(n);
    StartsFollowDependencies(g, w, k, d);
    var m :| 0 <= m < k && w.log[m] == Completed(d);
    assert w.log[..i][m] == Completed(d);
  }

  // ---- exactly once ----

  /** Of every node the log tells at most one start and at most one end, and only nodes of the graph appear. */
  lemma AtMostOnce(g: Graph, w: Walk, n: Name)
    requires Complete(g) && Arises(g, w)
    ensures Logged(Called, w.log)[n] <= (if n in g.deps then 1 else 0)
    ensures Logged(Back, w.log)[n] + Logged(Broken, w.log)[n] <= Logged(Called, w.log)[n]
  {
    ArisesInv(g, w);
    hide Complete, Counted, Ordered, Controlled;
    HeldNested(w.workers, n);
    assert Stock(w)[n] == multiset(g.deps.Keys)[n];
    assert Logged(Called, w.log)[n] == (Held(Called, w.workers) + Behind(Called, w))[n];
    assert Logged(Back, w.log)[n] == (Held(Back, w.workers) + Behind(Back, w))[n];
    assert Logged(Broken, w.log)[n] == (Held(Broken, w.workers) + Behind(Broken, w))[n];
  }

  /** Returned and raised calls are among the calls, and called nodes among the taken ones. */
  lemma {:induction false} HeldNested(ws: seq<Worker>, n: Name)
    ensures Held(Back, ws)[n] + Held(Broken, ws)[n] <= Held(Called, ws)[n] <= Held(Taken, ws)[n]
  {
    if ws != [] { HeldNested(ws[..|ws| - 1], n); }
  }

  lemma EveryoneStarted(g: Graph, w: Walk)
    requires Inv(g, w) && w.main.AtSanity?
    ensures forall n | n in g.deps :: n in w.sched.pending && w.sched.pending[n] == 0 && n in w.sched.started
  {
    hide Conserved, Recorded, Ordered;
    FullIsSane(g, w);
    assert w.sched.pending.Keys == g.deps.Keys;
  }

  /** No assertion of `_State` ever fails. */
  lemma NoAssertionFails(g: Graph, w: Walk)
    requires Complete(g) && Arises(g, w)
    ensures !w.main.Asserted?
    ensures w.main.AtSanity? ==>
              forall n | n in g.deps :: n in w.sched.pending && w.sched.pending[n] == 0 && n in w.sched.started
    ensures w.results != [] ==> FinishNode(w.sched, w.results[0]).Some?
  {
    ArisesInv(g, w);
    hide Complete, Conserved, Counted, Recorded, Ordered;
    if w.main.AtSanity? { EveryoneStarted(g, w); }
    if w.results != [] { PullFinishes(g, w); }
  }

  /** The closing assertion of `_State.__init__`: an accepted graph has a node without dependencies. */
  lemma AcceptedHasSource(g: Graph)
    requires Accepted(g)
    ensures Initial(g).queue != []
  {
    InitialFacts(g);
    var rank :| Ranked(g, rank);
    var n := LowestRank(g, rank, g.deps.Keys);
    if g.deps[n] != [] {
      assert Edge(g, n, g.deps[n][0]);
    }
    assert n in Initial(g).queue;
  }

  lemma {:induction false} LowestRank(g: Graph, rank: map<Name, nat>, s: set<Name>) returns (n: Name)
    requires Ranked(g, rank) && s <= rank.Keys && s != {}
    ensures n in s && forall m | m in s :: rank[n] <= rank[m]
  {
    var x :| x in s;
    var r := s - {x};
    assert forall m | m in s :: m == x || m in r;
    n := x;
    if r != {} {
      var y := LowestRank(g, rank, r);
      if rank[y] < rank[x] { n := y; }
    }
  }

  // ---- the two ways to end ----

  /** Once the walk has returned, the workers have stopped and hold nothing. */
  lemma ReturnedHolds(g: Graph, w: Walk)
    requires Controlled(g, w) && w.main.Returned?
    ensures w.shutdown && forall p :: Held(p, w.workers) == multiset{}
  {
    hide Held;
    forall p
      ensures Held(p, w.workers) == multiset{}
    {
      HeldNone(p, w.workers);
    }
  }

  /** With nothing held and everything finished, the log tells one call and one return per node. */
  lemma TotalsAgree(g: Graph, w: Walk)
    requires Recorded(w) && w.results == [] && multiset(w.finished) == multiset(g.deps.Keys)
    requires forall p :: Held(p, w.workers) == multiset{}
    ensures Logged(Called, w.log) == Logged(Back, w.log) == multiset(g.deps.Keys)
    ensures Logged(Broken, w.log) == multiset{}
  {
    hide Held, Logged;
    assert Behind(Called, w) == Behind(Back, w) == multiset(g.deps.Keys);
    assert Behind(Broken, w) == multiset{};
  }

  /** When the walk returns, `f` has been called once on every node, and every call returned. */
  lemma NormalReturn(g: Graph, w: Walk)
    requires Complete(g) && Arises(g, w) && w.main.Returned?
    ensures Logged(Called, w.log) == Logged(Back, w.log) == multiset(g.deps.Keys)
    ensures Logged(Broken, w.log) == multiset{}
  {
    hide Arises, Complete, Conserved, Counted, Recorded, Ordered, Controlled, Held, Logged;
    ArisesInv(g, w);
    ReturnedHolds(g, w);
    ReturnedFinished(g, w);
    AllFinished(g, w);
    TotalsAgree(g, w);
  }

  lemma ReturnedFinished(g: Graph, w: Walk)
    requires Controlled(g, w) && w.main.Returned?
    ensures |w.finished| == |g.deps|
  {
  }

  /** When the walk has returned or raised, no worker thread is left behind. */
  lemma EndsAlone(g: Graph, w: Walk, i: nat)
    requires Complete(g) && Arises(g, w) && (w.main.Returned? || w.main.Reraised?) && i < |w.workers|
    ensures w.workers[i].Stopped? || w.workers[i].Raised?
  {
    hide Arises, Complete, Conserved, Counted, Recorded, Ordered;
    ArisesInv(g, w);
  }

  lemma AllFinished(g: Graph, w: Walk)
    requires Conserved(g, w) && |w.finished| == |g.deps|
    ensures multiset(w.finished) == multiset(g.deps.Keys)
    ensures w.results == [] && w.tasks == [] && Held(Taken, w.workers) == multiset{}
  {
    var f, all := multiset(w.finished), multiset(g.deps.Keys);
    assert |all| == |g.deps.Keys| == |g.deps|;
    assert |f| == |w.finished|;
    assert f <= Stock(w);
    FullHasAll(f, all);
    var rest := multiset(w.tasks) + Held(Taken, w.workers) + multiset(w.results);
    forall n
      ensures rest[n] == 0
    {
      assert Stock(w)[n] == f[n];
    }
    assert multiset(w.tasks) == multiset{} && multiset(w.results) == multiset{};
    assert |multiset(w.tasks)| == |w.tasks| && |multiset(w.results)| == |w.results|;
  }

  /** A call ends in one way only. */
  lemma FailedNeverCompletes(g: Graph, w: Walk, n: Name)
    requires Complete(g) && Arises(g, w) && Failed(n) in w.log
    ensures Completed(n) !in w.log && Logged(Broken, w.log) != multiset{}
  {
    hide Arises, Complete, Logged;
    AtMostOnce(g, w, n);
    LoggedMember(Broken, w.log, Failed(n));
    LoggedMember(Back, w.log, Completed(n));
    assert Logged(Broken, w.log)[n] >= 1;
  }

  /** After `f` has raised on `n`, nothing that depends on `n` is ever called, and the walk does not return normally. */
  lemma FailureContained(g: Graph, w: Walk, n: Name, m: Name)
    requires Complete(g) && Arises(g, w) && Failed(n) in w.log
    ensures Reaches(g, m, n) ==> Started(m) !in w.log
    ensures !w.main.Returned?
  {
    hide Arises, Complete, Logged, Graphs.Reaches;
    FailedNeverCompletes(g, w, n);
    if w.main.Returned? { NormalReturn(g, w); }
    if Reaches(g, m, n) && Started(m) in w.log {
      var i :| 0 <= i < |w.log| && w.log[i] == Started(m);
      StartsFollowDependencies(g, w, i, n);
    }
  }
}

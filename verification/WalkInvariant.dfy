/** What every action of a walk keeps. */
module WalkInvariant {
  import opened Basics
  import opened Graphs
  import opened NodeStates
  import opened Walker

  // ---- the nodes in the hands of the workers, and in the log ----

  /** How far a node has got: taken by a worker, `f` called, `f` returned, `f` raised. */
  datatype Phase = Taken | Called | Back | Broken

  predicate Reached(p: Phase, x: Worker) {
    match p
    case Taken => x.Holding? || x.Running? || x.Storing? || x.Failing? || x.Raised?
    case Called => x.Running? || x.Storing? || x.Failing? || x.Raised?
    case Back => x.Storing?
    case Broken => x.Failing? || x.Raised?
  }

  function HeldBy(p: Phase, x: Worker): multiset<Name> {
    if Reached(p, x) then multiset{x.node} else multiset{}
  }

  function Held(p: Phase, ws: seq<Worker>): multiset<Name> {
    if ws == [] then multiset{} else Held(p, ws[..|ws| - 1]) + HeldBy(p, ws[|ws| - 1])
  }

  function Says(p: Phase, e: Event): multiset<Name> {
    if (p == Called && e.Started?) || (p == Back && e.Completed?) || (p == Broken && e.Failed?) then multiset{e.node}
    else multiset{}
  }

  /** The nodes of which the log says that they reached phase `p`, with repetitions. */
  function Logged(p: Phase, log: seq<Event>): multiset<Name> {
    if log == [] then multiset{} else Logged(p, log[..|log| - 1]) + Says(p, log[|log| - 1])
  }

  lemma {:induction false} HeldUpdate(p: Phase, ws: seq<Worker>, i: nat, x: Worker)
    requires i < |ws|
    ensures Held(p, ws[i := x]) + HeldBy(p, ws[i]) == Held(p, ws) + HeldBy(p, x)
  {
    hide HeldBy;
    var k := |ws| - 1;
    if i == k {
      assert ws[i := x][..k] == ws[..k];
    } else {
      assert ws[i := x][..k] == ws[..k][i := x];
      HeldUpdate(p, ws[..k], i, x);
      AddBoth(Held(p, ws[..k][i := x]), HeldBy(p, ws[i]), Held(p, ws[..k]), HeldBy(p, x), HeldBy(p, ws[k]));
    }
  }

  lemma AddBoth(a: multiset<Name>, b: multiset<Name>, c: multiset<Name>, d: multiset<Name>, e: multiset<Name>)
    requires a + b == c + d
    ensures (a + e) + b == (c + e) + d
  {
    assert (a + e) + b == (a + b) + e && (c + e) + d == (c + d) + e;
  }

  lemma {:induction false} HeldHas(p: Phase, ws: seq<Worker>, i: nat)
    requires i < |ws|
    ensures HeldBy(p, ws[i]) <= Held(p, ws)
  {
    hide HeldBy;
    var k := |ws| - 1;
    if i < k {
      HeldHas(p, ws[..k], i);
    }
  }

  lemma {:induction false} HeldNone(p: Phase, ws: seq<Worker>)
    requires forall i | 0 <= i < |ws| :: HeldBy(p, ws[i]) == multiset{}
    ensures Held(p, ws) == multiset{}
  {
    if ws != [] { HeldNone(p, ws[..|ws| - 1]); }
  }

  lemma LoggedAppend(p: Phase, log: seq<Event>, e: Event)
    ensures Logged(p, log + [e]) == Logged(p, log) + Says(p, e)
  {
    assert (log + [e])[..|log|] == log;
  }

  lemma SaysOther(p: Phase, x: Event, e: Event)
    ensures Says(p, e) != multiset{} && x != e ==> Says(p, x)[e.node] == 0
  {
  }

  lemma {:induction false} LoggedMember(p: Phase, log: seq<Event>, e: Event)
    ensures e in log ==> Says(p, e) <= Logged(p, log)
    ensures Says(p, e) != multiset{} && e !in log ==> Logged(p, log)[e.node] == 0
  {
    if log != [] {
      var r, x := log[..|log| - 1], log[|log| - 1];
      assert log == r + [x];
      LoggedMember(p, r, e);
      SaysOther(p, x, e);
    }
  }

  // ---- conservation ----

  ghost function Blocked(s: Sched): set<Name> {
    set n | n in s.pending && s.pending[n] != 0
  }

  /** All nodes, wherever they are: waiting for dependencies, ready, handed out, held by a worker, awaiting the
      pull loop, or finished. */
  ghost function Stock(w: Walk): multiset<Name> {
    multiset(Blocked(w.sched)) + multiset(w.sched.queue) + multiset(w.tasks)
    + Held(Taken, w.workers) + multiset(w.results) + multiset(w.finished)
  }

  /** Occurrences in `deps` of nodes outside `done`. */
  function Unmet(deps: seq<Name>, done: set<Name>): nat {
    if deps == [] then 0
    else Unmet(deps[..|deps| - 1], done) + if deps[|deps| - 1] in done then 0 else 1
  }

  /** Each node of the graph is in exactly one place, once. */
  ghost predicate Conserved(g: Graph, w: Walk) {
    Stock(w) == multiset(g.deps.Keys)
  }

  /** Each counter is the number of listed dependencies that are not finished, repeats included. */
  ghost predicate Counted(g: Graph, w: Walk) {
    && Wired(g, w.sched)
    && w.sched.numFinished == |w.finished|
    && forall n | n in g.deps :: Pending(w.sched, n) == Unmet(g.deps[n], Elements(w.finished))
  }

  /** The nodes past the workers that went through phase `p`. */
  function Behind(p: Phase, w: Walk): multiset<Name> {
    if p == Broken then multiset{} else multiset(w.results) + multiset(w.finished)
  }

  /** The log agrees with where the nodes are. */
  ghost predicate Recorded(w: Walk) {
    && Logged(Called, w.log) == Held(Called, w.workers) + Behind(Called, w)
    && Logged(Back, w.log) == Held(Back, w.workers) + Behind(Back, w)
    && Logged(Broken, w.log) == Held(Broken, w.workers) + Behind(Broken, w)
    && forall n | n in Logged(Called, w.log) :: n in w.sched.started
  }

  /** `f` was called on a node after it had returned for every direct dependency, and ended after it was called. */
  predicate Justified(g: Graph, log: seq<Event>, i: nat)
    requires i < |log|
  {
    match log[i]
    case Started(n) => forall d | d in g.DepsOf(n) :: Completed(d) in log[..i]
    case Completed(n) => Started(n) in log[..i]
    case Failed(n) => Started(n) in log[..i]
  }

  ghost predicate Ordered(g: Graph, log: seq<Event>) {
    forall i | 0 <= i < |log| :: Justified(g, log, i)
  }

  /** `shutdown` has a cause, and the closing stages of the main loop come after it. */
  ghost predicate Controlled(g: Graph, w: Walk) {
    && !w.main.Asserted?
    && (w.shutdown ==> |w.finished| == |g.deps| || exists i :: 0 <= i < |w.workers| && w.workers[i].Raised?)
    && (w.main.AtSanity? ==> w.shutdown && |w.finished| == |g.deps|)
    && (w.main.Joining? ==> w.shutdown && w.main.i <= |w.workers| && forall j | 0 <= j < w.main.i ::
        w.workers[j].Stopped?)
    && (w.main.Returned? ==> w.shutdown && forall j | 0 <= j < |w.workers| :: w.workers[j].Stopped?)
    && (w.main.Unwinding? || w.main.Reraised? ==> exists i :: 0 <= i < |w.workers| && w.workers[i].Raised?)
    && (w.main.Reraised? ==> AllEnded(w.workers))
  }

  ghost predicate Inv(g: Graph, w: Walk) {
    Conserved(g, w) && Counted(g, w) && Recorded(w) && Ordered(g, w.log) && Controlled(g, w)
  }

  // ---- `_finish` keeps the counters and moves the newly ready nodes ----

  lemma {:induction false} UnmetFinish(deps: seq<Name>, done: set<Name>, x: Name)
    requires x !in done
    ensures Unmet(deps, done + {x}) == Unmet(deps, done) - multiset(deps)[x]
  {
    if deps != [] {
      var r := deps[..|deps| - 1];
      assert deps == r + [deps[|deps| - 1]];
      UnmetFinish(r, done, x);
    }
  }

  lemma {:induction false} UnmetZero(deps: seq<Name>, done: set<Name>)
    ensures Unmet(deps, done) == 0 <==> forall d | d in deps :: d in done
  {
    if deps != [] {
      var r := deps[..|deps| - 1];
      assert deps == r + [deps[|deps| - 1]];
      UnmetZero(r, done);
    }
  }

  lemma {:induction false} UnmetNothing(deps: seq<Name>)
    ensures Unmet(deps, {}) == |deps|
  {
    if deps != [] { UnmetNothing(deps[..|deps| - 1]); }
  }

  /** The counters of a scheduler value that go with a set of finished nodes. */
  ghost predicate Counters(g: Graph, s: Sched, done: set<Name>) {
    forall n | n in g.deps :: Pending(s, n) == Unmet(g.deps[n], done)
  }

  /** Every dependent's counter covers its occurrences, so the assertion in `_finish` holds. */
  lemma DependentsCovered(g: Graph, s: Sched, done: set<Name>, x: Name, n: Name)
    requires Wired(g, s) && Counters(g, s, done) && x !in done && n in Dependents(s, x)
    ensures n in g.deps && n in s.pending && 0 < multiset(Dependents(s, x))[n] <= Pending(s, n)
  {
    assert Listed(s, x, n) == multiset(g.DepsOf(n))[x];
    assert x in g.DepsOf(n);
    UnmetFinish(g.deps[n], done, x);
  }

  lemma FinishReleases(g: Graph, s: Sched, done: set<Name>, x: Name)
    requires Wired(g, s) && Counters(g, s, done) && x !in done
    ensures FinishNode(s, x).Some?
    ensures var t := FinishNode(s, x).value;
      && t == s.(pending := t.pending, queue := t.queue, numFinished := s.numFinished + 1)
      && t.pending.Keys == s.pending.Keys
      && (forall n :: Pending(t, n) == Pending(s, n) - multiset(Dependents(s, x))[n])
      && multiset(t.queue) == multiset(s.queue) + multiset(Exhausted(s, Dependents(s, x)))
  {
    var xs := Dependents(s, x);
    forall n | n in xs
      ensures n in s.pending && multiset(xs)[n] <= Pending(s, n)
    {
      DependentsCovered(g, s, done, x, n);
    }
    ReleaseAllFacts(s, xs);
  }

  lemma FinishCounters(g: Graph, s: Sched, done: set<Name>, x: Name)
    requires Wired(g, s) && Counters(g, s, done) && x !in done
    ensures FinishNode(s, x).Some?
    ensures Wired(g, FinishNode(s, x).value)
    ensures Counters(g, FinishNode(s, x).value, done + {x})
  {
    FinishReleases(g, s, done, x);
    var t := FinishNode(s, x).value;
    forall d, n
      ensures Listed(t, d, n) == multiset(g.DepsOf(n))[d]
    {
      assert Listed(s, d, n) == multiset(g.DepsOf(n))[d];
    }
    forall n | n in g.deps
      ensures Pending(t, n) == Unmet(g.deps[n], done + {x})
    {
      assert Listed(s, x, n) == multiset(g.DepsOf(n))[x];
      UnmetFinish(g.deps[n], done, x);
    }
  }

  lemma SplitSet(a: set<Name>, b: set<Name>)
    requires b <= a
    ensures multiset(a - b) + multiset(b) == multiset(a)
  {
  }

  /** The nodes that leave `Blocked` are exactly the ones that join the ready list, once each. */
  lemma FinishMoves(g: Graph, s: Sched, done: set<Name>, x: Name)
    requires Wired(g, s) && Counters(g, s, done) && x !in done
    ensures FinishNode(s, x).Some?
    ensures var t := FinishNode(s, x).value;
      multiset(Blocked(t)) + multiset(t.queue) == multiset(Blocked(s)) + multiset(s.queue)
  {
    FinishReleases(g, s, done, x);
    var t := FinishNode(s, x).value;
    var xs := Dependents(s, x);
    var ready := Exhausted(s, xs);
    forall n | n in ready
      ensures n in Blocked(s) && n !in Blocked(t)
    {
      DependentsCovered(g, s, done, x, n);
      assert Pending(t, n) == 0;
    }
    forall n | n in Blocked(s) && n !in ready
      ensures n in Blocked(t)
    {
      assert Pending(t, n) == Pending(s, n) - multiset(xs)[n];
      assert n !in xs ==> multiset(xs)[n] == 0;
    }
    forall n | n in Blocked(t)
      ensures n in Blocked(s)
    {
      assert Pending(t, n) == Pending(s, n) - multiset(xs)[n];
      if n in xs { DependentsCovered(g, s, done, x, n); }
    }
    assert Blocked(t) == Blocked(s) - ready;
    SplitSet(Blocked(s), ready);
  }
}

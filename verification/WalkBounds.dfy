/** Quantitative guarantees of `walk_parallel`: the rate limit, and what still starts after a failure. */
module WalkBounds {
  import opened Basics
  import opened Graphs
  import opened NodeStates
  import opened RateLimiting
  import opened Walker
  import opened WalkInvariant
  import opened WalkSteps
  import opened WalkSafety
  import opened WalkTheorems

  // ---- the rate limit ----

  /** How many nodes have been handed to the workers so far. */
  function HandedOut(w: Walk): nat {
    |InFlight(w)| + |w.finished|
  }

  /** Tokens spent since the walk began pay for exactly the nodes handed out, and none was spent before it was
      issued. */
  ghost predicate Metered(l: Limiter, w: Walk) {
    && w.limiter == l.(usedTokens := w.limiter.usedTokens)
    && w.limiter.usedTokens == l.usedTokens + HandedOut(w)
    && (w.limiter.usedTokens == l.usedTokens || w.limiter.usedTokens <= w.limiter.Issued(w.now))
  }

  lemma WorkMetered(l: Limiter, w: Walk, i: nat, raises: bool)
    requires i < |w.workers| && Metered(l, w)
    ensures Metered(l, WorkStep(w, i, raises))
  {
    hide InFlight;
    WorkKeepsInFlight(w, i, raises);
    WorkFrame(w, i, raises);
    hide WorkStep;
  }

  lemma PushInFlight(w: Walk)
    ensures HandedOut(Push(w)) == HandedOut(w) + Push(w).limiter.usedTokens - w.limiter.usedTokens
  {
    hide Held, Limiter.Issued;
    var q, v := w.sched.queue, Push(w);
    if q != [] && w.limiter.Grants(w.now) {
      AppendBag(w.tasks, q[|q| - 1]);
      assert InFlight(v) == InFlight(w) + multiset{q[|q| - 1]};
    } else {
      assert InFlight(v) == InFlight(w);
    }
  }

  lemma PushMetered(l: Limiter, w: Walk)
    requires Metered(l, w)
    ensures Metered(l, Push(w))
  {
    hide HandedOut, Limiter.Issued;
    PushInFlight(w);
    SpendingKeepsIssued(w.limiter, Push(w).limiter.usedTokens, w.now);
  }

  lemma SpendingKeepsIssued(l: Limiter, used: nat, now: real)
    ensures l.(usedTokens := used).Issued(now) == l.Issued(now)
  {
  }

  lemma PullMetered(l: Limiter, w: Walk)
    requires Metered(l, w) && FinishNode(w.sched, if w.results == [] then Name("") else w.results[0]).Some?
    ensures Metered(l, Pull(w))
  {
    hide Held, FinishNode;
    if w.results != [] {
      HeadAndTail(w.results);
      assert InFlight(w) == InFlight(Pull(w)) + multiset{w.results[0]};
    } else {
      assert InFlight(Pull(w)) == InFlight(w);
    }
  }

  lemma MoveMetered(l: Limiter, w: Walk, v: Walk)
    requires Metered(l, w) && v == w.(main := v.main, shutdown := v.shutdown)
    ensures Metered(l, v)
  {
    hide Limiter.Issued, Held;
    assert InFlight(v) == InFlight(w);
  }

  lemma PullKeepsMetered(g: Graph, l: Limiter, w: Walk)
    requires Inv(g, w) && Metered(l, w)
    ensures Metered(l, Pull(w))
  {
    hide Metered;
    if w.results != [] {
      PullFinishes(g, w);
      hide Inv, Pull, FinishNode;
      PullMetered(l, w);
    } else {
      PullIdle(w);
      hide Inv, Pull;
      MoveMetered(l, w, Pull(w));
    }
  }

  lemma MainMetered(g: Graph, l: Limiter, w: Walk)
    requires Inv(g, w) && Metered(l, w)
    ensures Metered(l, MainStep(w))
  {
    hide Inv, Metered, Push, Pull, Done, Sane, AllEnded;
    match w.main {
      case Pushing => PushMetered(l, w);
      case Pulling => PullKeepsMetered(g, l, w);
      case _ => MoveMetered(l, w, MainStep(w));
    }
  }

  lemma PullIdle(w: Walk)
    requires w.results == []
    ensures Pull(w) == w.(main := AtTest)
  {
  }

  lemma TickMetered(l: Limiter, w: Walk, to: real)
    requires Metered(l, w) && l.tokensPerSecond > 0.0 && w.now <= to
    ensures Metered(l, w.(now := to))
  {
    IssuedGrows(w.limiter, w.now, to);
    hide Limiter.Issued, Held;
    assert InFlight(w.(now := to)) == InFlight(w);
  }

  lemma StepMetered(g: Graph, l: Limiter, w: Walk, a: Action)
    requires Inv(g, w) && Metered(l, w) && Enabled(w, a) && l.tokensPerSecond > 0.0
    ensures Metered(l, Apply(w, a))
  {
    hide Metered, Inv;
    match a {
      case Main => MainMetered(g, l, w);
      case Work(i, raises) => WorkMetered(l, w, i, raises);
      case Tick(to) => TickMetered(l, w, to);
    }
  }

  lemma {:induction false} RunMetered(g: Graph, l: Limiter, w: Walk, acts: seq<Action>)
    requires Inv(g, w) && Metered(l, w) && Possible(w, acts) && l.tokensPerSecond > 0.0
    ensures Metered(l, Run(w, acts))
  {
    if acts != [] {
      hide Inv, Metered, Enabled, Apply;
      var before := acts[..|acts| - 1];
      RunMetered(g, l, w, before);
      RunInv(g, w, before);
      StepMetered(g, l, Run(w, before), acts[|acts| - 1]);
    }
  }

  /** The bound in terms of the limiter. */
  lemma IssuedBound(g: Graph, numWorkers: nat, l: Limiter, now: real, acts: seq<Action>)
    requires Complete(g) && Possible(Begin(g, numWorkers, l, now), acts)
    requires l.usedTokens == 0 && l.startTokens >= 0 && l.tokensPerSecond > 0.0 && l.startTime <= now
    ensures var w := After(g, numWorkers, l, now, acts);
      && |Logged(Called, w.log)| <= HandedOut(w) == w.limiter.usedTokens <= l.Issued(w.now)
      && (!w.limiter.Grants(w.now) ==> HandedOut(w) == l.Issued(w.now))
  {
    var b := Begin(g, numWorkers, l, now);
    BeginInv(g, numWorkers, l, now);
    BeginMetered(g, numWorkers, l, now);
    hide Inv, Limiter.Issued, Complete;
    RunMetered(g, l, b, acts);
    RunInv(g, b, acts);
    var w := Run(b, acts);
    CallsHandedOut(g, w);
    ClockAdvances(b, acts);
    SomethingIssued(l, w.now);
    SameIssue(l, w.limiter, w.now);
    hide HandedOut, Begin, Run, Possible;
  }

  /** With a fresh limiter and a clock that does not run backwards, the nodes handed out so far, and with them the
      calls of `f`, never exceed the initial burst plus one per elapsed refill interval. The push loop hands out a ready
      node exactly while that bound is not reached. */
  lemma RateBound(g: Graph, numWorkers: nat, l: Limiter, now: real, acts: seq<Action>)
    requires Complete(g) && Possible(Begin(g, numWorkers, l, now), acts)
    requires l.usedTokens == 0 && l.startTokens >= 0 && l.tokensPerSecond > 0.0 && l.startTime <= now
    ensures var w := After(g, numWorkers, l, now, acts);
            && |Logged(Called, w.log)| <= HandedOut(w)
            && HandedOut(w) <= l.startTokens + (l.tokensPerSecond * (w.now - l.startTime)).Floor
            && (w.sched.queue != [] ==>
                  (HandedOut(Push(w)) == HandedOut(w) + 1 <==>
                   HandedOut(w) < l.startTokens + (l.tokensPerSecond * (w.now - l.startTime)).Floor)
                  && (HandedOut(Push(w)) == HandedOut(w) + 1 || HandedOut(Push(w)) == HandedOut(w)))
  {
    hide *;
    PushBound(g, numWorkers, l, now, acts);
    BoundMeans(l, After(g, numWorkers, l, now, acts).now);
  }

  /** The same in terms of the limiter. */
  lemma PushBound(g: Graph, numWorkers: nat, l: Limiter, now: real, acts: seq<Action>)
    requires Complete(g) && Possible(Begin(g, numWorkers, l, now), acts)
    requires l.usedTokens == 0 && l.startTokens >= 0 && l.tokensPerSecond > 0.0 && l.startTime <= now
    ensures var w := After(g, numWorkers, l, now, acts);
            && |Logged(Called, w.log)| <= HandedOut(w) <= l.Issued(w.now)
            && (w.sched.queue != [] ==>
                  (HandedOut(Push(w)) == HandedOut(w) + 1 <==> HandedOut(w) < l.Issued(w.now))
                  && (HandedOut(Push(w)) == HandedOut(w) + 1 || HandedOut(Push(w)) == HandedOut(w)))
  {
    hide HandedOut, Run, Possible, Logged, Push, Complete, Limiter.Issued, Begin;
    IssuedBound(g, numWorkers, l, now, acts);
    var w := After(g, numWorkers, l, now, acts);
    PushInFlight(w);
    if w.sched.queue != [] { PushSpends(w); }
    LimiterKept(g, numWorkers, l, now, acts);
    SameIssue(l, w.limiter, w.now);
  }

  lemma PushSpends(w: Walk)
    requires w.sched.queue != []
    ensures Push(w).limiter.usedTokens ==
            w.limiter.usedTokens + if w.limiter.usedTokens < w.limiter.Issued(w.now) then 1 else 0
  {
    hide Limiter.Issued;
  }

  lemma BoundMeans(l: Limiter, t: real)
    ensures l.Issued(t) == l.startTokens + (l.tokensPerSecond * (t - l.startTime)).Floor
  {
  }

  lemma LimiterKept(g: Graph, numWorkers: nat, l: Limiter, now: real, acts: seq<Action>)
    requires Complete(g) && Possible(Begin(g, numWorkers, l, now), acts)
    requires l.usedTokens == 0 && l.tokensPerSecond > 0.0
    ensures var w := After(g, numWorkers, l, now, acts); w.limiter == l.(usedTokens := w.limiter.usedTokens)
  {
    var b := Begin(g, numWorkers, l, now);
    BeginInv(g, numWorkers, l, now);
    BeginMetered(g, numWorkers, l, now);
    hide Inv, Limiter.Issued, Complete, Begin, Run, Possible, HandedOut;
    RunMetered(g, l, b, acts);
  }

  lemma BeginMetered(g: Graph, numWorkers: nat, l: Limiter, now: real)
    ensures Metered(l, Begin(g, numWorkers, l, now))
  {
    hide Initial, Limiter.Issued, Held;
    BeginHeld(Taken, g, numWorkers, l, now);
  }

  lemma SomethingIssued(l: Limiter, now: real)
    requires l.startTokens >= 0 && l.tokensPerSecond > 0.0 && l.startTime <= now
    ensures 0 <= l.Issued(now)
  {
    IssuedGrows(l, l.startTime, now);
    assert l.tokensPerSecond * (l.startTime - l.startTime) == 0.0;
  }

  lemma SameIssue(l: Limiter, m: Limiter, now: real)
    requires m == l.(usedTokens := m.usedTokens)
    ensures m.Issued(now) == l.Issued(now)
  {
  }

  lemma {:induction false} ClockAdvances(w: Walk, acts: seq<Action>)
    requires Possible(w, acts)
    ensures w.now <= Run(w, acts).now
  {
    if acts != [] {
      ClockAdvances(w, acts[..|acts| - 1]);
      OnlyTicksMoveTime(Run(w, acts[..|acts| - 1]), acts[|acts| - 1]);
    }
  }

  lemma OnlyTicksMoveTime(w: Walk, a: Action)
    requires Enabled(w, a)
    ensures w.now <= Apply(w, a).now
  {
    hide FinishNode, Done, Sane, AllEnded, NextWorker;
  }

  lemma CallsHandedOut(g: Graph, w: Walk)
    requires Inv(g, w)
    ensures |Logged(Called, w.log)| <= HandedOut(w)
  {
    hide Conserved, Counted, Ordered, Controlled, Held, Logged;
    forall n
      ensures Held(Called, w.workers)[n] <= Held(Taken, w.workers)[n]
    {
      HeldNested(w.workers, n);
    }
    assert Held(Called, w.workers) <= Held(Taken, w.workers);
    var calls := Held(Called, w.workers) + multiset(w.results) + multiset(w.finished);
    assert Logged(Called, w.log) == calls;
    BagSize(calls, InFlight(w) + multiset(w.finished));
    assert |multiset(w.finished)| == |w.finished|;
  }

  // ---- after shutdown ----

  /** The worker may still call `f` once without testing `shutdown` again. */
  predicate MayStart(x: Worker) {
    x.Polling? || x.Holding?
  }

  function Starters(ws: seq<Worker>): nat {
    if ws == [] then 0 else Starters(ws[..|ws| - 1]) + if MayStart(ws[|ws| - 1]) then 1 else 0
  }

  function Starts(log: seq<Event>): nat {
    if log == [] then 0 else Starts(log[..|log| - 1]) + if log[|log| - 1].Started? then 1 else 0
  }

  lemma {:induction false} StartersUpdate(ws: seq<Worker>, i: nat, x: Worker)
    requires i < |ws|
    ensures Starters(ws[i := x]) + (if MayStart(ws[i]) then 1 else 0) == Starters(ws) + if MayStart(x) then 1 else 0
  {
    var k := |ws| - 1;
    if i == k {
      assert ws[i := x][..k] == ws[..k];
    } else {
      assert ws[i := x][..k] == ws[..k][i := x];
      StartersUpdate(ws[..k], i, x);
    }
  }

  lemma {:induction false} StartersBound(ws: seq<Worker>)
    ensures Starters(ws) <= |ws|
    ensures forall i | 0 <= i < |ws| :: !MayStart(ws[i]) ==> Starters(ws) <= |ws| - 1
  {
    if ws != [] { StartersBound(ws[..|ws| - 1]); }
  }

  lemma StepStarts(w: Walk, a: Action)
    requires w.shutdown
    ensures var v := Apply(w, a);
            v.shutdown && Starts(v.log) + Starters(v.workers) <= Starts(w.log) + Starters(w.workers)
  {
    match a {
      case Main => MainKeepsWorkers(w);
      case Work(i, raises) =>
        if i < |w.workers| {
          StartersUpdate(w.workers, i, Moved(w, i, raises));
          WorkStarts(w, i, raises);
        }
      case Tick(to) =>
    }
  }

  lemma MainKeepsWorkers(w: Walk)
    ensures var v := MainStep(w); v.workers == w.workers && v.log == w.log && (w.shutdown ==> v.shutdown)
  {
    hide FinishNode, Done, Sane, AllEnded;
  }

  lemma StartsAppend(log: seq<Event>, e: Event)
    ensures Starts(log + [e]) == Starts(log) + if e.Started? then 1 else 0
  {
    assert (log + [e])[..|log|] == log;
  }

  lemma WorkStarts(w: Walk, i: nat, raises: bool)
    requires i < |w.workers| && w.shutdown
    ensures var v, x := WorkStep(w, i, raises), w.workers[i];
      && v.shutdown && v.workers == w.workers[i := Moved(w, i, raises)]
      && Starts(v.log) == Starts(w.log) + (if x.Holding? then 1 else 0)
      && (MayStart(Moved(w, i, raises)) ==> x.Polling?)
  {
    hide Starts;
    match w.workers[i] {
      case Holding(n) => StartsAppend(w.log, Started(n));
      case Running(n) => StartsAppend(w.log, if raises then Failed(n) else Completed(n));
      case _ =>
    }
  }

  lemma {:induction false} RunStarts(w: Walk, acts: seq<Action>)
    requires w.shutdown
    ensures var v := Run(w, acts);
            v.shutdown && Starts(v.log) + Starters(v.workers) <= Starts(w.log) + Starters(w.workers)
  {
    if acts != [] {
      hide Apply, Starts, Starters;
      RunStarts(w, acts[..|acts| - 1]);
      StepStarts(Run(w, acts[..|acts| - 1]), acts[|acts| - 1]);
    }
  }

  /** Once a worker has raised and set `shutdown`, at most one more call per other worker begins, in any
      continuation. */
  lemma FewStartsAfterFailure(w: Walk, k: nat, acts: seq<Action>)
    requires w.shutdown && k < |w.workers| && w.workers[k].Raised?
    ensures Starts(Run(w, acts).log) - Starts(w.log) <= |w.workers| - 1
  {
    RunStarts(w, acts);
    StartersBound(w.workers);
    assert !MayStart(w.workers[k]);
  }

  /** How often worker `k` calls `f` during a run. */
  function StartsOf(w: Walk, acts: seq<Action>, k: nat): nat {
    if acts == [] then 0 else
      var before, a := acts[..|acts| - 1], acts[|acts| - 1];
      var v := Run(w, before);
      StartsOf(w, before, k) + if a.Work? && a.i == k < |v.workers| && v.workers[k].Holding? then 1 else 0
  }

  /** After `shutdown`, each single worker calls `f` at most once more. */
  lemma {:induction false} OneStartEach(w: Walk, acts: seq<Action>, k: nat)
    requires w.shutdown && k < |w.workers|
    ensures var v := Run(w, acts);
      |v.workers| == |w.workers| && StartsOf(w, acts, k) + (if MayStart(v.workers[k]) then 1 else 0) <= 1
  {
    if acts != [] {
      var before, a := acts[..|acts| - 1], acts[|acts| - 1];
      OneStartEach(w, before, k);
      RunStarts(w, before);
      OneStep(Run(w, before), a, k);
    }
  }

  lemma OneStep(w: Walk, a: Action, k: nat)
    requires w.shutdown && k < |w.workers|
    ensures var v := Apply(w, a);
      && |v.workers| == |w.workers|
      && (MayStart(v.workers[k]) ==> MayStart(w.workers[k]))
      && (a.Work? && a.i == k && w.workers[k].Holding? ==> !MayStart(v.workers[k]))
  {
    match a {
      case Main => MainKeepsWorkers(w);
      case Work(i, raises) => if i < |w.workers| { WorkStarts(w, i, raises); }
      case Tick(to) =>
    }
  }
}

/** Deadlock freedom, and termination of every fairly scheduled walk over an accepted graph. */
module WalkLiveness {
  import opened Basics
  import opened Graphs
  import opened NodeStates
  import opened RateLimiting
  import opened Walker
  import opened WalkInvariant
  import opened WalkSteps
  import opened WalkSafety
  import opened WalkTheorems
  import opened WalkProgress

  // ---- deadlock freedom ----

  /** Some node is ready, handed out, with a worker, or waiting to be pulled. */
  ghost predicate SomethingMoves(w: Walk) {
    w.sched.queue != [] || w.tasks != [] || w.results != [] || Held(Taken, w.workers) != multiset{}
  }

  /** Until every node is finished, something can move: the unfinished node of lowest rank is not blocked. */
  lemma NeverDeadlocked(g: Graph, w: Walk)
    requires Accepted(g) && Core(g, w) && |w.finished| != |g.deps|
    ensures SomethingMoves(w)
  {
    var rank :| Ranked(g, rank);
    var left := g.deps.Keys - Elements(w.finished);
    FinishedDistinct(g, w);
    var n := LowestRank(g, rank, left);
    forall d | d in g.deps[n]
      ensures d in Elements(w.finished)
    {
      assert Edge(g, n, d);
    }
    UnmetZero(g.deps[n], Elements(w.finished));
    assert Pending(w.sched, n) == 0;
    assert n !in Blocked(w.sched) && n !in w.finished;
    assert Stock(w)[n] == multiset(g.deps.Keys)[n] == 1;
  }

  lemma FinishedDistinct(g: Graph, w: Walk)
    requires Conserved(g, w) && |w.finished| != |g.deps|
    ensures g.deps.Keys - Elements(w.finished) != {}
  {
    if n :| n in g.deps.Keys && n !in Elements(w.finished) {
      assert n in g.deps.Keys - Elements(w.finished);
    } else {
      EveryoneFinished(g, w);
    }
  }

  lemma EveryoneFinished(g: Graph, w: Walk)
    requires Conserved(g, w) && g.deps.Keys <= Elements(w.finished)
    ensures |w.finished| == |g.deps|
  {
    var f, all := multiset(w.finished), multiset(g.deps.Keys);
    forall n
      ensures f[n] == all[n]
    {
      assert Stock(w)[n] == all[n] && f[n] <= Stock(w)[n];
      assert n in g.deps.Keys ==> n in Elements(w.finished);
    }
    assert f == all;
    assert |f| == |w.finished| && |all| == |g.deps.Keys| == |g.deps|;
  }

  // ---- infinite schedules ----

  /** Step `i` of the schedule is enabled and leads from state `i` to state `i + 1`. */
  ghost predicate StepAt(run: nat -> Walk, acts: nat -> Action, i: nat) {
    Enabled(run(i), acts(i)) && run(i + 1) == Apply(run(i), acts(i))
  }

  predicate IsWork(a: Action, k: nat) {
    a.Work? && a.i == k
  }

  ghost predicate MainTurn(run: nat -> Walk, acts: nat -> Action, j: nat) {
    acts(j).Main? || !Enabled(run(j), Main)
  }

  ghost predicate WorkTurn(run: nat -> Walk, acts: nat -> Action, k: nat, j: nat) {
    IsWork(acts(j), k) || (k < |run(j).workers| ==> Ended(run(j).workers[k]))
  }

  ghost predicate MainTurnFrom(run: nat -> Walk, acts: nat -> Action, i: nat) {
    exists j: nat :: i <= j && MainTurn(run, acts, j)
  }

  ghost predicate WorkTurnFrom(run: nat -> Walk, acts: nat -> Action, k: nat, i: nat) {
    exists j: nat :: i <= j && WorkTurn(run, acts, k, j)
  }

  ghost predicate ClockPasses(run: nat -> Walk, t: real) {
    exists j: nat :: run(j).now >= t
  }

  /** Every thread that has not ended keeps getting turns, and the clock passes every bound. A turn inside `f` ends
      the call. */
  ghost predicate Fair(run: nat -> Walk, acts: nat -> Action) {
    && (forall i: nat :: MainTurnFrom(run, acts, i))
    && (forall i: nat, k: nat :: WorkTurnFrom(run, acts, k, i))
    && (forall t: real :: ClockPasses(run, t))
  }

  /** `w` starts a walk with at least one worker and a limiter that does refill. */
  ghost predicate Beginning(g: Graph, w: Walk) {
    exists numWorkers: nat, l: Limiter, now: real ::
      numWorkers > 0 && l.tokensPerSecond > 0.0 && w == Begin(g, numWorkers, l, now)
  }

  /** A fair infinite run of a walk over `g`. */
  ghost predicate FairRun(g: Graph, run: nat -> Walk, acts: nat -> Action) {
    Beginning(g, run(0)) && (forall i: nat :: StepAt(run, acts, i)) && Fair(run, acts)
  }

  /** There are workers, the limiter refills, and no worker has ended without `shutdown`. */
  ghost predicate Alive(w: Walk) {
    && |w.workers| > 0 && w.limiter.tokensPerSecond > 0.0
    && forall k | 0 <= k < |w.workers| :: Ended(w.workers[k]) ==> w.shutdown
  }

  lemma StepAlive(w: Walk, a: Action)
    requires Alive(w) && Enabled(w, a)
    ensures Alive(Apply(w, a))
  {
    match a {
      case Main => MainAlive(w);
      case Work(i, raises) => WorkAlive(w, i, raises);
      case Tick(to) =>
    }
  }

  lemma MainAlive(w: Walk)
    requires Alive(w)
    ensures Alive(MainStep(w))
  {
    hide Done, Sane, AllEnded, FinishNode, Limiter.Issued;
  }

  lemma WorkAlive(w: Walk, i: nat, raises: bool)
    requires Alive(w) && i < |w.workers|
    ensures Alive(WorkStep(w, i, raises))
  {
  }

  lemma BeginFacts(g: Graph, w: Walk)
    requires Complete(g) && Beginning(g, w)
    ensures Inv(g, w) && Alive(w)
  {
    var numWorkers: nat, l: Limiter, now: real :| numWorkers > 0 && l.tokensPerSecond > 0.0 &&
        w == Begin(g, numWorkers, l, now);
    BeginInv(g, numWorkers, l, now);
    hide Inv, Initial, Complete;
  }

  lemma RunBegins(g: Graph, run: nat -> Walk, acts: nat -> Action)
    requires Complete(g) && FairRun(g, run, acts)
    ensures Inv(g, run(0)) && Alive(run(0))
  {
    hide Inv, Alive, Beginning, Fair, Complete, StepAt;
    BeginFacts(g, run(0));
  }

  lemma TakeStep(g: Graph, run: nat -> Walk, acts: nat -> Action, i: nat)
    requires FairRun(g, run, acts)
    ensures Enabled(run(i), acts(i)) && run(i + 1) == Apply(run(i), acts(i))
  {
    assert StepAt(run, acts, i);
  }

  lemma {:induction false} RunFacts(g: Graph, run: nat -> Walk, acts: nat -> Action, i: nat)
    requires Complete(g) && FairRun(g, run, acts)
    ensures Inv(g, run(i)) && Alive(run(i))
  {
    hide Inv, Alive, Enabled, Apply, FairRun, Complete;
    if i == 0 {
      RunBegins(g, run, acts);
    } else {
      RunFacts(g, run, acts, i - 1);
      TakeStep(g, run, acts, i - 1);
      StepInv(g, run(i - 1), acts(i - 1));
      StepAlive(run(i - 1), acts(i - 1));
    }
  }

  // ---- a run on which the measure has stopped falling ----

  /** From `i` on the measure never falls again. */
  ghost predicate Flat(run: nat -> Walk, i: nat) {
    forall j: nat | i <= j :: Measure(run(j)) == Measure(run(i))
  }

  ghost predicate FlatRun(g: Graph, run: nat -> Walk, acts: nat -> Action, i: nat) {
    Complete(g) && FairRun(g, run, acts) && Flat(run, i)
  }

  lemma {:induction false} StaysAlike(g: Graph, run: nat -> Walk, acts: nat -> Action, i: nat, j: nat)
    requires FlatRun(g, run, acts, i) && i <= j
    ensures Alike(run(i), run(j))
  {
    hide Complete, Fair, Alike, Measure, Inv, Alive, Enabled, Apply, Beginning;
    if i == j {
      AlikeRefl(run(i));
    } else {
      StaysAlike(g, run, acts, i, j - 1);
      RunFacts(g, run, acts, j - 1);
      assert StepAt(run, acts, j - 1);
      StepProgress(g, run(j - 1), acts(j - 1));
      assert Measure(run(j - 1)) == Measure(run(i)) == Measure(run(j));
      AlikeTrans(run(i), run(j - 1), run(j));
    }
  }

  lemma AlikeRefl(w: Walk)
    ensures Alike(w, w)
  {
  }

  lemma {:induction false} ClockMonotone(run: nat -> Walk, acts: nat -> Action, i: nat, j: nat)
    requires (forall k: nat :: StepAt(run, acts, k)) && i <= j
    ensures run(i).now <= run(j).now
  {
    if i < j {
      ClockMonotone(run, acts, i, j - 1);
      assert StepAt(run, acts, j - 1);
      ActionClock(run(j - 1), acts(j - 1));
    }
  }

  lemma ActionClock(w: Walk, a: Action)
    requires Enabled(w, a)
    ensures w.now <= Apply(w, a).now
  {
    hide FinishNode, Done, Sane, AllEnded, NextWorker, Limiter.Issued;
  }

  // ---- the main loop on a flat run ----

  function NextStage(m: MainLoop): MainLoop {
    match m
    case AtTest => AtDone
    case AtDone => Pushing
    case Pushing => Pulling
    case _ => AtTest
  }

  /** An idle turn of the main loop moves to the next stage, and shows that the stage had nothing to do. */
  lemma IdleMainTurn(g: Graph, w: Walk)
    requires Inv(g, w) && InLoop(w.main) && Measure(MainStep(w)) == Measure(w)
    ensures MainStep(w).main == NextStage(w.main)
    ensures w.main.AtTest? ==> !w.shutdown
    ensures w.main.AtDone? ==> !Done(w.sched)
    ensures w.main.Pushing? ==> w.sched.queue == [] || !w.limiter.Grants(w.now)
    ensures w.main.Pulling? ==> w.results == []
  {
    hide Conserved, Counted, Recorded, Measure;
    MainProgress(g, w);
    if w.main.Pushing? { PushProgress(w); }
    if w.main.Pulling? { PullProgress(g, w); }
    hide Inv, Push, Pull, Limiter.Issued, Done;
  }

  lemma KeepsMain(w: Walk, a: Action)
    requires Enabled(w, a) && !a.Main?
    ensures Apply(w, a).main == w.main
  {
    hide NextWorker;
  }

  /** The first turn of the calling thread from `f` on; `last` is some later one. */
  lemma {:induction false} FirstMainTurn(run: nat -> Walk, acts: nat -> Action, f: nat, last: nat) returns (j: nat)
    requires (forall k: nat :: StepAt(run, acts, k)) && f <= last && acts(last).Main?
    ensures f <= j && acts(j).Main? && run(j).main == run(f).main
    decreases last - f
  {
    j := f;
    if !acts(f).Main? {
      assert StepAt(run, acts, f);
      KeepsMain(run(f), acts(f));
      j := FirstMainTurn(run, acts, f + 1, last);
    }
  }

  lemma NextMainTurn(g: Graph, run: nat -> Walk, acts: nat -> Action, i: nat, f: nat) returns (j: nat)
    requires FlatRun(g, run, acts, i) && i <= f && Enabled(run(i), Main)
    ensures f <= j && acts(j).Main? && run(j).main == run(f).main
    ensures Inv(g, run(j)) && Alike(run(i), run(j))
    ensures run(j + 1) == MainStep(run(j)) && Measure(run(j + 1)) == Measure(run(j))
  {
    hide Complete, Measure, Inv, Beginning;
    assert MainTurnFrom(run, acts, f);
    var last: nat :| f <= last && MainTurn(run, acts, last);
    StaysAlike(g, run, acts, i, last);
    j := FirstMainTurn(run, acts, f, last);
    RunFacts(g, run, acts, j);
    StaysAlike(g, run, acts, i, j);
    assert StepAt(run, acts, j);
    assert Measure(run(j)) == Measure(run(i)) == Measure(run(j + 1));
  }

  function Position(m: MainLoop): nat {
    if m.AtTest? then 0 else if m.AtDone? then 1 else if m.Pushing? then 2 else 3
  }

  /** How many turns lie between two stages of the loop. */
  function Distance(a: MainLoop, b: MainLoop): nat {
    (Position(b) + 4 - Position(a)) % 4
  }

  lemma NextIsCloser(a: MainLoop, b: MainLoop)
    requires InLoop(a) && InLoop(b) && a != b
    ensures InLoop(NextStage(a)) && Distance(NextStage(a), b) < Distance(a, b)
  {
  }

  /** The main loop gets from any of its stages to the stage `m`, at some point after `f`. */
  lemma {:induction false} ReachStage(g: Graph, run: nat -> Walk, acts: nat -> Action, i: nat, f: nat, m: MainLoop)
    returns (j: nat)
    requires FlatRun(g, run, acts, i) && i <= f && InLoop(run(i).main)
    requires InLoop(m) && InLoop(run(f).main)
    ensures f <= j && run(j).main == m
    ensures Inv(g, run(j)) && Alike(run(i), run(j))
    ensures run(j + 1) == MainStep(run(j)) && Measure(run(j + 1)) == Measure(run(j))
    decreases Distance(run(f).main, m)
  {
    hide FlatRun, Inv, Alike, Measure, Distance;
    j := NextMainTurn(g, run, acts, i, f);
    if run(j).main != m {
      IdleMainTurn(g, run(j));
      NextIsCloser(run(j).main, m);
      j := ReachStage(g, run, acts, i, j + 1, m);
    }
  }

  lemma AlikeLoop(w: Walk, v: Walk)
    requires Alike(w, v) && InLoop(w.main)
    ensures InLoop(v.main)
    ensures v.shutdown == w.shutdown && v.sched == w.sched && v.results == w.results && v.limiter == w.limiter
  {
  }

  lemma VisitStage(g: Graph, run: nat -> Walk, acts: nat -> Action, i: nat, f: nat, m: MainLoop) returns (j: nat)
    requires FlatRun(g, run, acts, i) && i <= f && InLoop(run(i).main) && InLoop(m)
    ensures f <= j && run(j).main == m && Inv(g, run(j)) && Measure(MainStep(run(j))) == Measure(run(j))
    ensures run(j).shutdown == run(i).shutdown && run(j).sched == run(i).sched
    ensures run(j).results == run(i).results && run(j).limiter == run(i).limiter
  {
    StaysAlike(g, run, acts, i, f);
    AlikeLoop(run(i), run(f));
    hide FlatRun, Inv, Alike, Measure;
    j := ReachStage(g, run, acts, i, f, m);
    AlikeLoop(run(i), run(j));
  }

  /** A loop that keeps turning without effect has nothing to finish, nothing to pull and nothing to push. */
  lemma IdleLoop(g: Graph, run: nat -> Walk, acts: nat -> Action, i: nat)
    requires FlatRun(g, run, acts, i) && InLoop(run(i).main)
    ensures !run(i).shutdown && !Done(run(i).sched) && run(i).results == [] && run(i).sched.queue == []
  {
    RunFacts(g, run, acts, i);
    assert ClockPasses(run, GrantTime(run(i).limiter));
    var c: nat :| run(c).now >= GrantTime(run(i).limiter);
    var f := if c < i then i else c;
    ClockMonotone(run, acts, c, f);
    assert forall k: nat :: StepAt(run, acts, k);
    hide FlatRun, Inv, Measure, Done, Alive, GrantTime;
    var j := VisitStage(g, run, acts, i, i, AtTest);
    IdleMainTurn(g, run(j));
    j := VisitStage(g, run, acts, i, i, AtDone);
    IdleMainTurn(g, run(j));
    j := VisitStage(g, run, acts, i, i, Pulling);
    IdleMainTurn(g, run(j));
    j := VisitStage(g, run, acts, i, f, Pushing);
    IdleMainTurn(g, run(j));
    ClockMonotone(run, acts, f, j);
    assert run(i).limiter.Grants(run(j).now);
  }

  // ---- the workers on a flat run ----

  /** An idle turn of a worker is a poll: there is no task to take and no `shutdown` to notice. */
  lemma IdleWorkTurn(w: Walk, k: nat, raises: bool)
    requires k < |w.workers| && !Ended(w.workers[k])
    requires Measure(WorkStep(w, k, raises)) == Measure(w)
    ensures w.workers[k].Testing? ==> !w.shutdown && WorkStep(w, k, raises).workers[k].Polling?
    ensures w.workers[k].Polling? ==> w.tasks == [] && WorkStep(w, k, raises).workers[k].Testing?
    ensures Waiting(w.workers[k])
  {
    WorkProgress(w, k, raises);
    hide Measure;
    assert AlikeWorker(w.workers[k], WorkStep(w, k, raises).workers[k]);
  }

  lemma KeepsWorker(w: Walk, a: Action, k: nat)
    requires Enabled(w, a) && k < |w.workers| && !IsWork(a, k)
    ensures |Apply(w, a).workers| == |w.workers| && Apply(w, a).workers[k] == w.workers[k]
  {
    hide NextWorker, FinishNode, Done, Sane, AllEnded, Limiter.Issued;
  }

  lemma {:induction false} FirstWorkTurn(run: nat -> Walk, acts: nat -> Action, k: nat, f: nat, last: nat)
    returns (j: nat)
    requires (forall m: nat :: StepAt(run, acts, m)) && f <= last && IsWork(acts(last), k) && k < |run(f).workers|
    ensures f <= j && IsWork(acts(j), k) && |run(j).workers| == |run(f).workers| &&
              run(j).workers[k] == run(f).workers[k]
    decreases last - f
  {
    j := f;
    if !IsWork(acts(f), k) {
      assert StepAt(run, acts, f);
      KeepsWorker(run(f), acts(f), k);
      j := FirstWorkTurn(run, acts, k, f + 1, last);
    }
  }

  lemma AlikeEnded(w: Walk, v: Walk, k: nat)
    requires Alike(w, v) && k < |w.workers|
    ensures |v.workers| == |w.workers| && (Ended(v.workers[k]) <==> Ended(w.workers[k]))
    ensures Waiting(v.workers[k]) <==> Waiting(w.workers[k])
    ensures v.shutdown == w.shutdown && v.tasks == w.tasks
  {
    assert AlikeWorker(w.workers[k], v.workers[k]);
  }

  lemma NextWorkTurn(g: Graph, run: nat -> Walk, acts: nat -> Action, i: nat, f: nat, k: nat) returns (j: nat)
    requires FlatRun(g, run, acts, i) && i <= f && k < |run(i).workers| && !Ended(run(i).workers[k])
    ensures f <= j && |run(j).workers| == |run(j + 1).workers| == |run(f).workers| == |run(i).workers|
    ensures run(j).workers[k] == run(f).workers[k] && !Ended(run(j).workers[k])
    ensures Waiting(run(j).workers[k]) ==> Waiting(run(i).workers[k])
    ensures run(j).shutdown == run(i).shutdown && run(j).tasks == run(i).tasks
    ensures acts(j).Work? && run(j + 1) == WorkStep(run(j), k, acts(j).raises) && Measure(run(j + 1)) == Measure(run(j))
  {
    hide Complete, Measure, Inv, Beginning, Alike;
    assert WorkTurnFrom(run, acts, k, f);
    var last: nat :| f <= last && WorkTurn(run, acts, k, last);
    StaysAlike(g, run, acts, i, last);
    AlikeEnded(run(i), run(last), k);
    StaysAlike(g, run, acts, i, f);
    AlikeEnded(run(i), run(f), k);
    j := FirstWorkTurn(run, acts, k, f, last);
    StaysAlike(g, run, acts, i, j);
    AlikeEnded(run(i), run(j), k);
    StaysAlike(g, run, acts, i, j + 1);
    AlikeEnded(run(i), run(j + 1), k);
    assert StepAt(run, acts, j);
    assert Measure(run(j)) == Measure(run(i)) == Measure(run(j + 1));
  }

  /** A worker that lives on without effect waits for tasks that do not exist, before any `shutdown`. */
  lemma IdleWorker(g: Graph, run: nat -> Walk, acts: nat -> Action, i: nat, k: nat)
    requires FlatRun(g, run, acts, i) && k < |run(i).workers| && !Ended(run(i).workers[k])
    ensures Waiting(run(i).workers[k]) && !run(i).shutdown && run(i).tasks == []
  {
    hide FlatRun, Measure, WorkStep;
    var j := NextWorkTurn(g, run, acts, i, i, k);
    IdleWorkTurn(run(j), k, acts(j).raises);
    j := NextWorkTurn(g, run, acts, i, j + 1, k);
    IdleWorkTurn(run(j), k, acts(j).raises);
  }

  // ---- no run is flat before it ends ----

  lemma NothingHeld(ws: seq<Worker>)
    requires forall k | 0 <= k < |ws| :: Waiting(ws[k])
    ensures Held(Taken, ws) == multiset{}
  {
    HeldNone(Taken, ws);
  }

  lemma LoopNotFlat(g: Graph, run: nat -> Walk, acts: nat -> Action, i: nat)
    requires Accepted(g) && FlatRun(g, run, acts, i)
    ensures !InLoop(run(i).main)
  {
    if InLoop(run(i).main) {
      var w := run(i);
      IdleLoop(g, run, acts, i);
      RunFacts(g, run, acts, i);
      forall k | 0 <= k < |w.workers|
        ensures Waiting(w.workers[k]) && w.tasks == []
      {
        IdleWorker(g, run, acts, i, k);
      }
      assert Waiting(w.workers[0]);
      NothingHeld(w.workers);
      DoneMeansFull(g, w);
      NeverDeadlocked(g, w);
    }
  }

  lemma ClosingNotFlat(g: Graph, run: nat -> Walk, acts: nat -> Action, i: nat)
    requires FlatRun(g, run, acts, i) && Enabled(run(i), Main)
    ensures InLoop(run(i).main)
  {
    if !InLoop(run(i).main) {
      RunFacts(g, run, acts, i);
      ClosingShutdown(g, run(i));
      forall k | 0 <= k < |run(i).workers|
        ensures Ended(run(i).workers[k])
      {
        if !Ended(run(i).workers[k]) { IdleWorker(g, run, acts, i, k); }
      }
      hide Complete, FairRun, Flat, Inv, Alive;
      var j := NextMainTurn(g, run, acts, i, i);
      AllStayEnded(run(i), run(j));
      ClosingTurn(g, run(j));
    }
  }

  lemma ClosingShutdown(g: Graph, w: Walk)
    requires Inv(g, w) && Alive(w) && !InLoop(w.main) && Enabled(w, Main)
    ensures w.shutdown
  {
    hide Conserved, Counted, Recorded, Ordered;
  }

  lemma AllStayEnded(w: Walk, v: Walk)
    requires Alike(w, v) && AllEnded(w.workers)
    ensures AllEnded(v.workers)
  {
    forall k | 0 <= k < |v.workers|
      ensures Ended(v.workers[k])
    {
      AlikeEnded(w, v, k);
    }
  }

  lemma ClosingTurn(g: Graph, w: Walk)
    requires Inv(g, w) && !InLoop(w.main) && Enabled(w, Main) && AllEnded(w.workers)
    ensures Measure(MainStep(w)) < Measure(w)
  {
    hide Conserved, Counted, Recorded, Measure, Ordered;
    MainProgress(g, w);
    assert w.main.Joining? && w.main.i < |w.workers| ==> Ended(w.workers[w.main.i]);
    assert MainStep(w).main != w.main by { hide Alike, Sane; }
  }

  // ---- termination ----

  predicate Over(m: MainLoop) {
    m.Returned? || m.Reraised?
  }

  lemma StepFalls(g: Graph, w: Walk, a: Action, v: Walk)
    requires Inv(g, w) && Enabled(w, a) && v == Apply(w, a)
    ensures Measure(v) <= Measure(w)
  {
    hide Measure, Inv, Enabled, Apply, Alike;
    StepProgress(g, w, a);
  }

  lemma {:induction false} MeasureFalls(g: Graph, run: nat -> Walk, acts: nat -> Action, i: nat, j: nat)
    requires Complete(g) && FairRun(g, run, acts) && i <= j
    ensures Measure(run(j)) <= Measure(run(i))
  {
    hide Measure, Inv, Alive, Enabled, Apply, FairRun, Complete;
    if i < j {
      MeasureFalls(g, run, acts, i, j - 1);
      RunFacts(g, run, acts, j - 1);
      TakeStep(g, run, acts, j - 1);
      StepFalls(g, run(j - 1), acts(j - 1), run(j));
    }
  }

  lemma {:induction false} Ends(g: Graph, run: nat -> Walk, acts: nat -> Action, i: nat) returns (e: nat)
    requires Accepted(g) && FairRun(g, run, acts)
    ensures Over(run(e).main)
    decreases Measure(run(i))
  {
    RunFacts(g, run, acts, i);
    if !Enabled(run(i), Main) {
      return i;
    }
    if Flat(run, i) {
      ClosingNotFlat(g, run, acts, i);
      LoopNotFlat(g, run, acts, i);
    } else {
      var j: nat :| i <= j && Measure(run(j)) != Measure(run(i));
      MeasureFalls(g, run, acts, i, j);
      e := Ends(g, run, acts, j);
    }
  }

  predicate NoFailure(log: seq<Event>) {
    forall i | 0 <= i < |log| :: !log[i].Failed?
  }

  lemma {:induction false} BrokenLogged(log: seq<Event>)
    ensures NoFailure(log) <==> Logged(Broken, log) == multiset{}
  {
    if log != [] {
      var r, e := log[..|log| - 1], log[|log| - 1];
      assert log == r + [e];
      BrokenLogged(r);
      assert e.Failed? ==> e.node in Logged(Broken, log);
    }
  }

  lemma RaisedHolds(ws: seq<Worker>, k: nat)
    requires k < |ws| && ws[k].Raised?
    ensures Held(Broken, ws) != multiset{}
  {
    HeldHas(Broken, ws, k);
    assert HeldBy(Broken, ws[k]) == multiset{ws[k].node};
    assert ws[k].node in Held(Broken, ws);
  }

  /** Which of the two ends it is: the walk returns exactly when no call of `f` raised. */
  lemma EndMeans(g: Graph, w: Walk)
    requires Inv(g, w) && Over(w.main)
    ensures w.main.Returned? <==> NoFailure(w.log)
  {
    hide Held, Logged, Conserved, Counted, Ordered, NoFailure;
    BrokenLogged(w.log);
    assert Logged(Broken, w.log) == Held(Broken, w.workers);
    hide Recorded;
    if w.main.Returned? {
      HeldNone(Broken, w.workers);
    } else {
      var k :| 0 <= k < |w.workers| && w.workers[k].Raised?;
      RaisedHolds(w.workers, k);
    }
  }

  /** Every fairly scheduled walk over an accepted graph ends: it returns if no call of `f` raised, and raises
      otherwise. */
  lemma EveryFairWalkEnds(g: Graph, run: nat -> Walk, acts: nat -> Action)
    requires Accepted(g) && FairRun(g, run, acts)
    ensures exists e: nat :: Over(run(e).main) && (run(e).main.Returned? <==> NoFailure(run(e).log))
  {
    var e := Ends(g, run, acts, 0);
    RunFacts(g, run, acts, e);
    hide Inv, FairRun;
    EndMeans(g, run(e));
  }
}

/** The measure that bounds a walk: a weight for every node, worker and stage of the main loop. */
module WalkProgress {
  import opened Basics
  import opened Graphs
  import opened NodeStates
  import opened RateLimiting
  import opened Walker
  import opened WalkInvariant
  import opened WalkSteps
  import opened WalkSafety

  function WorkerWeight(x: Worker): nat {
    match x
    case Testing => 1
    case Polling => 1
    case Holding(_) => 5
    case Running(_) => 4
    case Storing(_) => 3
    case Failing(_) => 3
    case Stopped => 0
    case Raised(_) => 1
  }

  function WorkersWeight(ws: seq<Worker>): nat {
    if ws == [] then 0 else WorkersWeight(ws[..|ws| - 1]) + WorkerWeight(ws[|ws| - 1])
  }

  function MainWeight(m: MainLoop, n: nat): nat {
    match m
    case AtTest => n + 3
    case AtDone => n + 3
    case Pushing => n + 3
    case Pulling => n + 3
    case AtSanity => n + 2
    case Joining(i) => if i <= n then n - i + 1 else 1
    case Unwinding => 1
    case _ => 0
  }

  /** A node weighs 7 while blocked, 6 when ready, 5 when handed out, then 4, 3, 2 in a worker, 1 as a result. */
  ghost function Measure(w: Walk): nat {
    7 * |Blocked(w.sched)| + 6 * |w.sched.queue| + 5 * |w.tasks| + WorkersWeight(w.workers) + |w.results|
    + MainWeight(w.main, |w.workers|)
  }

  predicate InLoop(m: MainLoop) {
    m.AtTest? || m.AtDone? || m.Pushing? || m.Pulling?
  }

  predicate Waiting(x: Worker) {
    x.Testing? || x.Polling?
  }

  /** The two states differ at most in the clock, in which waiting workers poll, and in where the main loop stands. */
  predicate Alike(w: Walk, v: Walk) {
    && v == w.(now := v.now, main := v.main, workers := v.workers)
    && (v.main == w.main || (InLoop(w.main) && InLoop(v.main)))
    && |v.workers| == |w.workers|
    && forall k | 0 <= k < |w.workers| :: AlikeWorker(w.workers[k], v.workers[k])
  }

  predicate AlikeWorker(x: Worker, y: Worker) {
    y == x || (Waiting(x) && Waiting(y))
  }

  lemma {:induction false} WeightUpdate(ws: seq<Worker>, i: nat, x: Worker)
    requires i < |ws|
    ensures WorkersWeight(ws[i := x]) == WorkersWeight(ws) - WorkerWeight(ws[i]) + WorkerWeight(x)
  {
    hide WorkerWeight;
    var k := |ws| - 1;
    if i == k {
      assert ws[i := x][..k] == ws[..k];
    } else {
      assert ws[i := x][..k] == ws[..k][i := x];
      WeightUpdate(ws[..k], i, x);
    }
  }

  /** A worker step lowers the measure, or is an idle poll. */
  lemma WorkProgress(w: Walk, i: nat, raises: bool)
    requires i < |w.workers| && !Ended(w.workers[i])
    ensures var v := WorkStep(w, i, raises); Measure(v) < Measure(w) || (Measure(v) == Measure(w) && Alike(w, v))
    ensures Waiting(w.workers[i]) || Measure(WorkStep(w, i, raises)) < Measure(w)
  {
    var v := WorkStep(w, i, raises);
    var y := Moved(w, i, raises);
    WeightUpdate(w.workers, i, y);
    assert v.workers == w.workers[i := y];
    assert Blocked(v.sched) == Blocked(w.sched);
    hide WorkersWeight, MainWeight, Blocked;
    match w.workers[i] {
      case _ =>
    }
  }

  lemma PushProgress(w: Walk)
    requires w.main.Pushing?
    ensures Measure(Push(w)) < Measure(w) || (Measure(Push(w)) == Measure(w) && Alike(w, Push(w)))
    ensures w.sched.queue != [] && w.limiter.Grants(w.now) ==> Measure(Push(w)) < Measure(w)
    ensures !(w.sched.queue != [] && w.limiter.Grants(w.now)) ==> Push(w).main.Pulling?
  {
    hide WorkersWeight, Limiter.Issued;
    assert Blocked(Push(w).sched) == Blocked(w.sched);
  }

  lemma PullProgress(g: Graph, w: Walk)
    requires w.main.Pulling? && Core(g, w)
    ensures Measure(Pull(w)) < Measure(w) || (Measure(Pull(w)) == Measure(w) && Alike(w, Pull(w)))
    ensures w.results != [] ==> Measure(Pull(w)) < Measure(w)
    ensures w.results == [] ==> Pull(w).main.AtTest?
  {
    hide FinishNode, Core, Blocked, WorkersWeight;
    if w.results != [] {
      CoreCounters(g, w);
      ResultUnfinished(g, w);
      FinishShrinks(g, w.sched, Elements(w.finished), w.results[0]);
    }
  }

  lemma CoreCounters(g: Graph, w: Walk)
    requires Core(g, w)
    ensures Conserved(g, w) && Wired(g, w.sched) && Counters(g, w.sched, Elements(w.finished))
  {
  }

  /** Finishing a node moves nodes from blocked to ready and adds none. */
  lemma FinishShrinks(g: Graph, s: Sched, done: set<Name>, x: Name)
    requires Wired(g, s) && Counters(g, s, done) && x !in done
    ensures FinishNode(s, x).Some?
    ensures var t := FinishNode(s, x).value;
            7 * |Blocked(t)| + 6 * |t.queue| <= 7 * |Blocked(s)| + 6 * |s.queue|
  {
    hide FinishNode, Wired, Counters, Exhausted;
    FinishMoves(g, s, done, x);
    FinishReleases(g, s, done, x);
    var t := FinishNode(s, x).value;
    forall n | n in Blocked(t)
      ensures n in Blocked(s)
    {
      assert Pending(t, n) == Pending(s, n) - multiset(Dependents(s, x))[n];
      if n in Dependents(s, x) { DependentsCovered(g, s, done, x, n); }
    }
    MovedSizes(Blocked(s), s.queue, Blocked(t), t.queue);
  }

  lemma MovedSizes(b: set<Name>, q: seq<Name>, b': set<Name>, q': seq<Name>)
    requires multiset(b') + multiset(q') == multiset(b) + multiset(q) && b' <= b
    ensures 7 * |b'| + 6 * |q'| <= 7 * |b| + 6 * |q|
  {
    assert |multiset(b') + multiset(q')| == |b'| + |q'|;
    assert |multiset(b) + multiset(q)| == |b| + |q|;
    SubsetSize(b', b);
  }

  lemma MainProgress(g: Graph, w: Walk)
    requires Core(g, w) && Enabled(w, Main)
    ensures var v := MainStep(w); Measure(v) < Measure(w) || (Measure(v) == Measure(w) && Alike(w, v))
  {
    hide Core, WorkersWeight, Push, Pull, Done, Sane, Blocked, AllEnded;
    match w.main {
      case Pushing => PushProgress(w);
      case Pulling => PullProgress(g, w);
      case _ =>
    }
  }

  /** No action raises the measure; one that does not lower it changes nothing that matters. */
  lemma StepProgress(g: Graph, w: Walk, a: Action)
    requires Inv(g, w) && Enabled(w, a)
    ensures var v := Apply(w, a); Measure(v) < Measure(w) || (Measure(v) == Measure(w) && Alike(w, v))
  {
    hide Measure;
    match a {
      case Main => hide Conserved, Counted, Recorded; MainProgress(g, w);
      case Work(i, raises) => hide Inv; WorkProgress(w, i, raises);
      case Tick(to) => hide Inv; TickProgress(w, to);
    }
  }

  lemma TickProgress(w: Walk, to: real)
    ensures var v := w.(now := to); Measure(v) == Measure(w) && Alike(w, v)
  {
  }

  lemma AlikeTrans(u: Walk, v: Walk, w: Walk)
    requires Alike(u, v) && Alike(v, w)
    ensures Alike(u, w)
  {
    forall k | 0 <= k < |u.workers|
      ensures AlikeWorker(u.workers[k], w.workers[k])
    {
      assert AlikeWorker(u.workers[k], v.workers[k]) && AlikeWorker(v.workers[k], w.workers[k]);
    }
  }

  /** How many actions of a run lower the measure. */
  ghost function Productive(w: Walk, acts: seq<Action>): nat {
    if acts == [] then 0 else
      var before := acts[..|acts| - 1];
      Productive(w, before) + if Measure(Run(w, acts)) < Measure(Run(w, before)) then 1 else 0
  }

  lemma {:induction false} ProductiveBound(g: Graph, w: Walk, acts: seq<Action>)
    requires Inv(g, w) && Possible(w, acts)
    ensures Productive(w, acts) + Measure(Run(w, acts)) <= Measure(w)
  {
    hide Inv, Measure, Apply, Enabled;
    if acts != [] {
      var before := acts[..|acts| - 1];
      ProductiveBound(g, w, before);
      RunInv(g, w, before);
      StepProgress(g, Run(w, before), acts[|acts| - 1]);
    }
  }

  lemma {:induction false} FreshWeight(ws: seq<Worker>)
    requires forall k | 0 <= k < |ws| :: ws[k].Testing?
    ensures WorkersWeight(ws) == |ws|
  {
    if ws != [] { FreshWeight(ws[..|ws| - 1]); }
  }

  /** Over a whole run, at most seven effective actions per node and two per worker happen, and three more. */
  lemma ProductiveTotal(g: Graph, numWorkers: nat, l: Limiter, now: real, acts: seq<Action>)
    requires Complete(g) && Possible(Begin(g, numWorkers, l, now), acts)
    ensures Productive(Begin(g, numWorkers, l, now), acts) <= 7 * |g.deps| + 2 * numWorkers + 3
  {
    var w := Begin(g, numWorkers, l, now);
    BeginInv(g, numWorkers, l, now);
    BeginConserved(g, numWorkers, l, now);
    BeginHeld(Taken, g, numWorkers, l, now);
    FreshWeight(w.workers);
    ProductiveBound(g, w, acts);
    BeginSize(g, w);
    hide Begin, Complete, Inv, Run, Possible, Productive;
  }

  lemma BeginSize(g: Graph, w: Walk)
    requires Conserved(g, w)
    ensures |Blocked(w.sched)| + |w.sched.queue| <= |g.deps|
  {
    hide Held, Blocked;
    var part := multiset(Blocked(w.sched)) + multiset(w.sched.queue);
    BagSize(part, Stock(w)) by {
      assert part <= Stock(w);
    }
    assert |part| == |Blocked(w.sched)| + |w.sched.queue|;
    assert |multiset(g.deps.Keys)| == |g.deps.Keys| == |g.deps|;
  }
}

/** What holds in every state of every run, under every interleaving and for any number of workers. */
module WalkSafety {
  import opened Basics
  import opened Graphs
  import opened NodeStates
  import opened RateLimiting
  import opened Walker
  import opened WalkInvariant
  import opened WalkSteps

  /** The graphs a walk is started on: no listed dependency is missing. */
  ghost predicate Complete(g: Graph) {
    g.Valid() && g.Missing() == {}
  }

  lemma BeginHeld(p: Phase, g: Graph, numWorkers: nat, limiter: Limiter, now: real)
    ensures Held(p, Begin(g, numWorkers, limiter, now).workers) == multiset{}
  {
    HeldNone(p, Begin(g, numWorkers, limiter, now).workers);
  }

  lemma BeginCounted(g: Graph, numWorkers: nat, limiter: Limiter, now: real)
    requires Complete(g)
    ensures Counted(g, Begin(g, numWorkers, limiter, now))
  {
    InitialFacts(g);
    hide Initial, Graph.Missing, Graph.Valid, Wired;
    var w := Begin(g, numWorkers, limiter, now);
    assert Elements(w.finished) == {};
    forall n | n in g.deps
      ensures Pending(w.sched, n) == Unmet(g.deps[n], {})
    {
      UnmetNothing(g.deps[n]);
    }
  }

  lemma BeginConserved(g: Graph, numWorkers: nat, limiter: Limiter, now: real)
    requires Complete(g)
    ensures Conserved(g, Begin(g, numWorkers, limiter, now))
  {
    var w := Begin(g, numWorkers, limiter, now);
    var s := Initial(g);
    InitialFacts(g);
    hide Initial, Graph.Missing, Graph.Valid, Held;
    BeginHeld(Taken, g, numWorkers, limiter, now);
    NoDupMultiset(s.queue);
    forall n | n in g.deps
      ensures n in s.queue <==> n !in Blocked(s)
    {
      assert n in s.pending && s.pending[n] == |g.deps[n]|;
    }
    assert Elements(s.queue) <= g.deps.Keys;
    assert Blocked(s) == g.deps.Keys - Elements(s.queue);
    SplitSet(g.deps.Keys, Elements(s.queue));
  }

  lemma BeginInv(g: Graph, numWorkers: nat, limiter: Limiter, now: real)
    requires Complete(g)
    ensures Inv(g, Begin(g, numWorkers, limiter, now))
  {
    BeginConserved(g, numWorkers, limiter, now);
    BeginCounted(g, numWorkers, limiter, now);
    hide Initial, Conserved, Counted, Held;
    forall p { BeginHeld(p, g, numWorkers, limiter, now); }
  }

  lemma StepInv(g: Graph, w: Walk, a: Action)
    requires Inv(g, w)
    ensures Inv(g, Apply(w, a))
  {
    hide Conserved, Counted, Recorded, Ordered, Controlled;
    match a {
      case Main => MainInv(g, w);
      case Work(i, raises) => if i < |w.workers| { WorkInv(g, w, i, raises); }
      case Tick(to) => TickInv(g, w, to);
    }
  }

  lemma TickInv(g: Graph, w: Walk, to: real)
    requires Inv(g, w)
    ensures Inv(g, w.(now := to))
  {
  }

  lemma WorkInv(g: Graph, w: Walk, i: nat, raises: bool)
    requires Inv(g, w) && i < |w.workers|
    ensures Inv(g, WorkStep(w, i, raises))
  {
    WorkConserves(w, i, raises);
    WorkRecords(w, i, raises);
    WorkOrders(g, w, i, raises);
    WorkControls(g, w, i, raises);
    WorkFrame(w, i, raises);
    WorkCounts(g, w, WorkStep(w, i, raises));
    hide WorkStep, Stock, Counted, Recorded, Ordered, Controlled;
  }

  lemma WorkCounts(g: Graph, w: Walk, v: Walk)
    requires Counted(g, w) && v.finished == w.finished && v.sched == w.sched.(started := v.sched.started)
    ensures Counted(g, v)
  {
    assert forall d, n :: Listed(v.sched, d, n) == Listed(w.sched, d, n);
    assert forall n :: Pending(v.sched, n) == Pending(w.sched, n);
  }

  lemma PushCounts(g: Graph, w: Walk)
    requires Counted(g, w)
    ensures Counted(g, Push(w))
  {
    var v := Push(w);
    assert forall d, n :: Listed(v.sched, d, n) == Listed(w.sched, d, n);
    assert forall n :: Pending(v.sched, n) == Pending(w.sched, n);
  }

  ghost predicate Core(g: Graph, w: Walk) {
    Conserved(g, w) && Counted(g, w) && Recorded(w)
  }

  lemma MainInv(g: Graph, w: Walk)
    requires Inv(g, w)
    ensures Inv(g, MainStep(w))
  {
    MainControls(g, w);
    MainCore(g, w);
    hide Conserved, Counted, Recorded, Ordered, Controlled, MainStep;
  }

  lemma MainCore(g: Graph, w: Walk)
    requires Core(g, w)
    ensures Core(g, MainStep(w)) && MainStep(w).log == w.log
  {
    hide Core, Push, Pull, Done, Sane, AllEnded;
    match w.main {
      case Pushing => PushCore(g, w);
      case Pulling => PullCore(g, w);
      case _ => MoveCore(g, w, MainStep(w));
    }
  }

  lemma PushCore(g: Graph, w: Walk)
    requires Core(g, w)
    ensures Core(g, Push(w)) && Push(w).log == w.log
  {
    PushConserves(w);
    PushCounts(g, w);
    PushRecords(w);
    hide Push, Stock, Counted, Recorded;
  }

  lemma PullCore(g: Graph, w: Walk)
    requires Core(g, w)
    ensures Core(g, Pull(w)) && Pull(w).log == w.log
  {
    if w.results != [] {
      PullFinishes(g, w);
      PullRecords(g, w);
      PullMovesResult(g, w);
      hide Pull, Conserved, Counted, Recorded;
    } else {
      MoveCore(g, w, Pull(w));
    }
  }

  /** Moving between stages of the main loop touches nothing the other invariants speak of. */
  lemma MoveCore(g: Graph, w: Walk, v: Walk)
    requires Core(g, w) && v == w.(main := v.main, shutdown := v.shutdown)
    ensures Core(g, v)
  {
  }

  lemma PushRecords(w: Walk)
    requires Recorded(w)
    ensures Recorded(Push(w)) && Push(w).log == w.log
  {
    hide Held, Logged, Limiter.Grants, Limiter.Get;
  }

  lemma {:induction false} RunInv(g: Graph, w: Walk, acts: seq<Action>)
    requires Inv(g, w)
    ensures Inv(g, Run(w, acts))
  {
    if acts != [] {
      RunInv(g, w, acts[..|acts| - 1]);
      StepInv(g, Run(w, acts[..|acts| - 1]), acts[|acts| - 1]);
    }
  }
}

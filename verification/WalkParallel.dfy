/** `walk_parallel` really is parallel: as many calls of `f` as there are workers can be under way at once. */
module WalkParallel {
  import opened Basics
  import opened Graphs
  import opened NodeStates
  import opened RateLimiting
  import opened Walker

  lemma StepKeepsCount(w: Walk, a: Action)
    ensures |Apply(w, a).workers| == |w.workers|
  {
    hide FinishNode, Done, Sane, AllEnded, NextWorker;
  }

  /** The number of workers is the one asked for, in every run. */
  lemma {:induction false} WorkerCount(g: Graph, numWorkers: nat, l: Limiter, now: real, acts: seq<Action>)
    ensures |Run(Begin(g, numWorkers, l, now), acts).workers| == numWorkers
  {
    hide Apply, Initial;
    if acts != [] {
      WorkerCount(g, numWorkers, l, now, acts[..|acts| - 1]);
      StepKeepsCount(Run(Begin(g, numWorkers, l, now), acts[..|acts| - 1]), acts[|acts| - 1]);
    }
  }

  lemma RunThen(w: Walk, acts: seq<Action>, a: Action)
    ensures Run(w, acts + [a]) == Apply(Run(w, acts), a)
    ensures Possible(w, acts + [a]) <==> Possible(w, acts) && Enabled(Run(w, acts), a)
  {
    assert (acts + [a])[..|acts|] == acts;
  }

  // ---- handing out ----

  /** The main loop pushes `k` nodes. */
  function Pushes(k: nat): seq<Action> {
    if k == 0 then [Main, Main] else Pushes(k - 1) + [Main]
  }

  /** After `k` pushes: so many ready nodes have moved to the task queue, and nothing else has happened. */
  ghost predicate Pushed(w: Walk, v: Walk, k: nat) {
    && v.main.Pushing? && !v.shutdown
    && v.workers == w.workers && v.now == w.now && |v.tasks| == k
    && |v.sched.queue| + k == |w.sched.queue|
    && v.limiter == w.limiter.(usedTokens := k)
  }

  lemma {:induction false} PushesWork(g: Graph, numWorkers: nat, l: Limiter, now: real, k: nat)
    requires l.usedTokens == 0 && k <= l.Issued(now) && k <= |Initial(g).queue| && !Done(Initial(g))
    ensures var w := Begin(g, numWorkers, l, now);
            Possible(w, Pushes(k)) && Pushed(w, Run(w, Pushes(k)), k)
  {
    hide Initial, Done, Limiter.Issued;
    var w := Begin(g, numWorkers, l, now);
    if k == 0 {
      RunThen(w, [], Main);
      RunThen(w, [Main], Main);
      assert [] + [Main] == [Main] && [Main] + [Main] == [Main, Main];
    } else {
      PushesWork(g, numWorkers, l, now, k - 1);
      hide Run, Possible, Begin;
      RunThen(w, Pushes(k - 1), Main);
      OnePush(w, Run(w, Pushes(k - 1)), k - 1);
    }
  }

  lemma OnePush(w: Walk, v: Walk, k: nat)
    requires Pushed(w, v, k) && k < |w.sched.queue| && k < w.limiter.Issued(w.now)
    ensures Pushed(w, Apply(v, Main), k + 1) && Enabled(v, Main)
  {
    SameTokens(w.limiter, k, w.now);
    hide Limiter.Issued;
  }

  lemma SameTokens(l: Limiter, used: nat, now: real)
    ensures l.(usedTokens := used).Issued(now) == l.Issued(now)
  {
  }

  // ---- taking ----

  /** Worker `i` takes a node and calls `f` on it. */
  function Takes(i: nat): seq<Action> {
    [Work(i, false), Work(i, false), Work(i, false)]
  }

  function AllTake(k: nat): seq<Action> {
    if k == 0 then [] else AllTake(k - 1) + Takes(k - 1)
  }

  /** The first `k` workers are inside `f`; the others have not begun, and there is a task for each of them. */
  ghost predicate Busy(v: Walk, k: nat) {
    && !v.shutdown && k <= |v.workers| && |v.workers| - k <= |v.tasks|
    && (forall i | 0 <= i < k :: v.workers[i].Running?)
    && forall i | k <= i < |v.workers| :: v.workers[i].Testing?
  }

  /** Worker `k` is at `x`, and `n` tasks have been taken since `v`; all else is as in `v`. */
  ghost predicate Moved(v: Walk, u: Walk, k: nat, x: Worker, n: nat) {
    k < |v.workers| && n <= |v.tasks| && u.workers == v.workers[k := x] && u.tasks == v.tasks[n..] &&
        u.shutdown == v.shutdown
  }

  lemma MoveOn(v: Walk, u: Walk, k: nat, x: Worker, n: nat, y: Worker, m: nat)
    requires Moved(v, u, k, x, n) && !v.shutdown && n < |v.tasks|
    requires (x.Testing? && y.Polling? && m == n) || (x.Polling? && y == Holding(u.tasks[0]) && m == n + 1)
    ensures Moved(v, Apply(u, Work(k, false)), k, y, m) && Enabled(u, Work(k, false))
  {
  }

  lemma MoveIn(v: Walk, u: Walk, k: nat, x: Worker, n: nat)
    requires Moved(v, u, k, x, n) && x.Holding?
    ensures Moved(v, Apply(u, Work(k, false)), k, Running(x.node), n) && Enabled(u, Work(k, false))
  {
  }

  lemma MovedIsBusy(v: Walk, u: Walk, k: nat, n: Name)
    requires Busy(v, k) && k < |v.workers| && Moved(v, u, k, Running(n), 1)
    ensures Busy(u, k + 1) && |u.workers| == |v.workers|
  {
  }

  lemma OneTakes(v: Walk, k: nat)
    requires Busy(v, k) && k < |v.workers|
    ensures Possible(v, Takes(k)) && Busy(Run(v, Takes(k)), k + 1)
    ensures |Run(v, Takes(k)).workers| == |v.workers|
  {
    var a := Work(k, false);
    assert Moved(v, v, k, Testing, 0) by { assert v.workers[k := Testing] == v.workers; }
    var task := v.tasks[0];
    hide Apply, Enabled, Run, Possible;
    MoveOn(v, v, k, Testing, 0, Polling, 0);
    MoveOn(v, Apply(v, a), k, Polling, 0, Holding(task), 1);
    MoveIn(v, Apply(Apply(v, a), a), k, Holding(task), 1);
    MovedIsBusy(v, Apply(Apply(Apply(v, a), a), a), k, task);
    NoActs(v);
    RunThen(v, [], a);
    RunThen(v, [a], a);
    RunThen(v, [a, a], a);
    assert [] + [a] == [a] && [a] + [a] == [a, a] && [a, a] + [a] == Takes(k);
  }

  lemma NoActs(w: Walk)
    ensures Run(w, []) == w && Possible(w, [])
  {
  }

  lemma {:induction false} RunJoin(w: Walk, first: seq<Action>, second: seq<Action>)
    ensures Run(w, first + second) == Run(Run(w, first), second)
    ensures Possible(w, first + second) <==> Possible(w, first) && Possible(Run(w, first), second)
  {
    hide Apply, Enabled;
    if second == [] {
      assert first + second == first;
    } else {
      var r, a := second[..|second| - 1], second[|second| - 1];
      RunJoin(w, first, r);
      assert second == r + [a] && first + second == (first + r) + [a];
      RunThen(w, first + r, a);
      RunThen(Run(w, first), r, a);
    }
  }

  lemma {:induction false} AllTakeWork(v: Walk, k: nat)
    requires Busy(v, 0) && k <= |v.workers|
    ensures Possible(v, AllTake(k)) && Busy(Run(v, AllTake(k)), k)
    ensures |Run(v, AllTake(k)).workers| == |v.workers|
  {
    hide Busy, Takes, Run, Possible;
    if k == 0 {
      NoActs(v);
    } else {
      AllTakeWork(v, k - 1);
      RunJoin(v, AllTake(k - 1), Takes(k - 1));
      OneTakes(Run(v, AllTake(k - 1)), k - 1);
    }
  }

  /** With as many ready nodes and tokens as workers, some run has every worker inside `f` at once. */
  lemma AllWorkersRun(g: Graph, numWorkers: nat, l: Limiter, now: real)
    requires g.Valid() && g.Missing() == {} && g.order != []
    requires |set n | n in g.deps && g.deps[n] == []| >= numWorkers
    requires l.usedTokens == 0
    requires numWorkers <= l.startTokens + (l.tokensPerSecond * (now - l.startTime)).Floor
    ensures exists acts :: EveryoneRuns(Begin(g, numWorkers, l, now), acts, numWorkers)
  {
    var w, acts := Begin(g, numWorkers, l, now), Pushes(numWorkers) + AllTake(numWorkers);
    assert l.Issued(now) == l.startTokens + (l.tokensPerSecond * (now - l.startTime)).Floor;
    ReadyAtFirst(g);
    PushesWork(g, numWorkers, l, now, numWorkers);
    var v := Run(w, Pushes(numWorkers));
    hide Initial, Run, Possible, Pushes, AllTake, Limiter.Issued;
    assert Busy(v, 0);
    AllTakeWork(v, numWorkers);
    RunJoin(w, Pushes(numWorkers), AllTake(numWorkers));
    assert EveryoneRuns(w, acts, numWorkers);
  }

  /** The acts are possible, and after them `n` workers, all there are, are inside `f`. */
  ghost predicate EveryoneRuns(w: Walk, acts: seq<Action>, n: nat) {
    && Possible(w, acts) && |Run(w, acts).workers| == n
    && forall i | 0 <= i < n :: Run(w, acts).workers[i].Running?
  }

  /** Initially the nodes without dependencies are ready, and the walk is not done. */
  lemma ReadyAtFirst(g: Graph)
    requires g.Valid() && g.Missing() == {} && g.order != []
    ensures |Initial(g).queue| == |set n | n in g.deps && g.deps[n] == []|
    ensures !Done(Initial(g))
  {
    InitialFacts(g);
    hide Initial;
    var s, sources := Initial(g), set n | n in g.deps && g.deps[n] == [];
    NoDupMultiset(s.queue);
    assert Elements(s.queue) == sources;
    assert g.order[0] in g.deps.Keys && s.pending.Keys == g.deps.Keys;
    assert |s.pending| == |s.pending.Keys|;
  }

  /** The ready list is a stack, the two queues between the threads are queues: the most recently readied node is handed
      out, and workers and main loop take the node that has waited longest. */
  lemma QueuesKeepOrder(w: Walk, q: seq<Name>, n: Name, i: nat, raises: bool)
    ensures w.main.Pushing? && w.sched.queue == q + [n] && w.limiter.usedTokens < w.limiter.Issued(w.now) ==>
              Apply(w, Main).sched.queue == q && Apply(w, Main).tasks == w.tasks + [n]
    ensures w.main.Pulling? && w.results == [n] + q && !Apply(w, Main).main.Asserted? ==>
              Apply(w, Main).results == q && Apply(w, Main).finished == w.finished + [n]
    ensures i < |w.workers| && w.workers[i].Polling? && w.tasks == [n] + q ==>
              Apply(w, Work(i, raises)).tasks == q && Apply(w, Work(i, raises)).workers[i] == Holding(n)
    ensures i < |w.workers| && w.workers[i] == Storing(n) ==>
              Apply(w, Work(i, raises)).results == w.results + [n]
  {
    hide FinishNode, Limiter.Issued;
  }
}

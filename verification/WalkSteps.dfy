/** Every action keeps every part of the invariant. */
module WalkSteps {
  import opened Basics
  import opened Graphs
  import opened NodeStates
  import opened Walker
  import opened WalkInvariant

  lemma HeadAndTail(s: seq<Name>)
    requires s != []
    ensures multiset(s) == multiset{s[0]} + multiset(s[1..])
  {
    assert s == [s[0]] + s[1..];
  }

  lemma LastAndInit(s: seq<Name>)
    requires s != []
    ensures multiset(s) == multiset(s[..|s| - 1]) + multiset{s[|s| - 1]}
  {
    assert s == s[..|s| - 1] + [s[|s| - 1]];
  }

  lemma AppendBag(s: seq<Name>, x: Name)
    ensures multiset(s + [x]) == multiset(s) + multiset{x}
  {
  }

  // ---- conservation ----

  lemma Regroup(p: multiset<Name>, q: multiset<Name>, t: multiset<Name>, h: multiset<Name>, r: multiset<Name>,
                f: multiset<Name>, q': multiset<Name>, t': multiset<Name>, h': multiset<Name>, r': multiset<Name>)
    requires q' + t' + h' + r' == q + t + h + r
    ensures p + q' + t' + h' + r' + f == p + q + t + h + r + f
  {
    assert p + q' + t' + h' + r' + f == p + (q' + t' + h' + r') + f;
    assert p + q + t + h + r + f == p + (q + t + h + r) + f;
  }

  function Moved(w: Walk, i: nat, raises: bool): Worker
    requires i < |w.workers|
  {
    NextWorker(w.workers[i], w.shutdown, w.tasks, raises)
  }

  lemma WorkHolds(p: Phase, w: Walk, i: nat, raises: bool)
    requires i < |w.workers|
    ensures HeldBy(p, w.workers[i]) <= Held(p, w.workers)
    ensures Held(p, WorkStep(w, i, raises).workers)
         == Held(p, w.workers) - HeldBy(p, w.workers[i]) + HeldBy(p, Moved(w, i, raises))
  {
    hide NextWorker, HeldBy;
    var x := Moved(w, i, raises);
    HeldHas(p, w.workers, i);
    HeldUpdate(p, w.workers, i, x);
    assert WorkStep(w, i, raises).workers == w.workers[i := x];
    hide *;
    Exchange(Held(p, w.workers[i := x]), HeldBy(p, w.workers[i]), Held(p, w.workers), HeldBy(p, x));
  }

  lemma Exchange(h': multiset<Name>, x: multiset<Name>, h: multiset<Name>, y: multiset<Name>)
    requires h' + x == h + y && x <= h
    ensures h' == h - x + y
  {
    assert h' == (h + y) - x;
  }

  /** What one worker step takes from `tasks`, and adds to `results`. */
  function Fetched(x: Worker, tasks: seq<Name>): multiset<Name> {
    if x.Polling? && tasks != [] then multiset{tasks[0]} else multiset{}
  }

  function Stored(x: Worker): multiset<Name> {
    if x.Storing? then multiset{x.node} else multiset{}
  }

  lemma WorkFetches(w: Walk, i: nat, raises: bool)
    requires i < |w.workers|
    ensures multiset(w.tasks) == Fetched(w.workers[i], w.tasks) + multiset(WorkStep(w, i, raises).tasks)
  {
    hide NextWorker;
    if w.workers[i].Polling? && w.tasks != [] {
      HeadAndTail(w.tasks);
    } else {
      assert WorkStep(w, i, raises).tasks == w.tasks;
    }
  }

  lemma WorkStores(w: Walk, i: nat, raises: bool)
    requires i < |w.workers|
    ensures multiset(WorkStep(w, i, raises).results) == multiset(w.results) + Stored(w.workers[i])
  {
    hide NextWorker;
    if w.workers[i].Storing? {
      AppendBag(w.results, w.workers[i].node);
    } else {
      assert WorkStep(w, i, raises).results == w.results;
    }
  }

  lemma WorkFrame(w: Walk, i: nat, raises: bool)
    requires i < |w.workers|
    ensures var v := WorkStep(w, i, raises);
      && v.finished == w.finished && v.sched == w.sched.(started := v.sched.started)
      && v.main == w.main && v.limiter == w.limiter && v.now == w.now
      && |v.workers| == |w.workers|
  {
    hide NextWorker;
  }

  lemma TakenBalance(x: Worker, shutdown: bool, tasks: seq<Name>, raises: bool)
    ensures HeldBy(Taken, x) + Fetched(x, tasks) == HeldBy(Taken, NextWorker(x, shutdown, tasks, raises)) + Stored(x)
  {
  }

  lemma Balance(t: multiset<Name>, h: multiset<Name>, r: multiset<Name>, t': multiset<Name>, h': multiset<Name>,
                r': multiset<Name>, x: multiset<Name>, y: multiset<Name>, a: multiset<Name>, b: multiset<Name>)
    requires t == a + t' && r' == r + b && x <= h && h' == h - x + y && x + a == y + b
    ensures t' + h' + r' == t + h + r
  {
    forall n
      ensures (t' + h' + r')[n] == (t + h + r)[n]
    {
      assert (x + a)[n] == (y + b)[n];
    }
  }

  /** The nodes that have received a token and are not finished. */
  function InFlight(w: Walk): multiset<Name> {
    multiset(w.tasks) + Held(Taken, w.workers) + multiset(w.results)
  }

  lemma WorkKeepsInFlight(w: Walk, i: nat, raises: bool)
    requires i < |w.workers|
    ensures InFlight(WorkStep(w, i, raises)) == InFlight(w)
  {
    hide Held, HeldBy, Fetched, Stored, WorkStep, NextWorker;
    var v := WorkStep(w, i, raises);
    var x, y := w.workers[i], Moved(w, i, raises);
    WorkHolds(Taken, w, i, raises);
    WorkFetches(w, i, raises);
    WorkStores(w, i, raises);
    TakenBalance(x, w.shutdown, w.tasks, raises);
    Balance(multiset(w.tasks), Held(Taken, w.workers), multiset(w.results),
            multiset(v.tasks), Held(Taken, v.workers), multiset(v.results),
            HeldBy(Taken, x), HeldBy(Taken, y), Fetched(x, w.tasks), Stored(x));
  }

  lemma WorkConserves(w: Walk, i: nat, raises: bool)
    requires i < |w.workers|
    ensures Stock(WorkStep(w, i, raises)) == Stock(w)
  {
    hide Held, WorkStep, NextWorker;
    var v := WorkStep(w, i, raises);
    WorkKeepsInFlight(w, i, raises);
    WorkFrame(w, i, raises);
    assert Blocked(v.sched) == Blocked(w.sched);
    var q, t, h, r := multiset(w.sched.queue), multiset(w.tasks), Held(Taken, w.workers), multiset(w.results);
    var t', h', r' := multiset(v.tasks), Held(Taken, v.workers), multiset(v.results);
    assert q + t' + h' + r' == q + (t' + h' + r') && q + t + h + r == q + (t + h + r);
    Regroup(multiset(Blocked(w.sched)), q, t, h, r, multiset(w.finished), q, t', h', r');
  }

  lemma PushConserves(w: Walk)
    ensures Stock(Push(w)) == Stock(w)
  {
    hide Held;
    var q, v := w.sched.queue, Push(w);
    if q != [] {
      LastAndInit(q);
      AppendBag(w.tasks, q[|q| - 1]);
      assert Blocked(v.sched) == Blocked(w.sched);
      assert multiset(v.sched.queue) + multiset(v.tasks) == multiset(q) + multiset(w.tasks);
      Regroup(multiset(Blocked(w.sched)), multiset(q), multiset(w.tasks), Held(Taken, w.workers), multiset(w.results),
              multiset(w.finished), multiset(v.sched.queue), multiset(v.tasks), Held(Taken, w.workers),
                  multiset(w.results));
    }
  }

  /** A result waiting for the pull loop is not finished yet. */
  lemma ResultUnfinished(g: Graph, w: Walk)
    requires Conserved(g, w) && w.results != []
    ensures w.results[0] in g.deps && w.results[0] !in Elements(w.finished)
  {
    var x := w.results[0];
    HeadAndTail(w.results);
    assert multiset(g.deps.Keys)[x] == Stock(w)[x];
    assert multiset(w.finished)[x] == 0;
  }

  lemma PullBalance(b: multiset<Name>, q: multiset<Name>, t: multiset<Name>, h: multiset<Name>, r: multiset<Name>,
                    f: multiset<Name>,
                    b': multiset<Name>, q': multiset<Name>, r': multiset<Name>, f': multiset<Name>, x: Name)
    requires b' + q' == b + q && r == multiset{x} + r' && f' == f + multiset{x}
    ensures b' + q' + t + h + r' + f' == b + q + t + h + r + f
  {
    forall n
      ensures (b' + q' + t + h + r' + f')[n] == (b + q + t + h + r + f)[n]
    {
      assert (b' + q')[n] == (b + q)[n];
    }
  }

  lemma PullConserves(g: Graph, w: Walk)
    requires Conserved(g, w) && Counted(g, w) && w.results != []
    ensures FinishNode(w.sched, w.results[0]).Some?
    ensures Conserved(g, Pull(w))
  {
    hide Wired, FinishNode, Held, Blocked, Elements;
    var x := w.results[0];
    ResultUnfinished(g, w);
    FinishMoves(g, w.sched, Elements(w.finished), x);
    HeadAndTail(w.results);
    AppendBag(w.finished, x);
    var v := Pull(w);
    PullBalance(multiset(Blocked(w.sched)), multiset(w.sched.queue), multiset(w.tasks), Held(Taken, w.workers),
                multiset(w.results), multiset(w.finished), multiset(Blocked(v.sched)), multiset(v.sched.queue),
                multiset(v.results), multiset(v.finished), x);
  }

  lemma ElementsAppend(s: seq<Name>, x: Name)
    ensures Elements(s + [x]) == Elements(s) + {x}
  {
  }

  lemma PullCounts(g: Graph, w: Walk)
    requires Conserved(g, w) && Counted(g, w) && w.results != []
    ensures FinishNode(w.sched, w.results[0]).Some?
    ensures Counted(g, Pull(w)) && Pull(w).sched.started == w.sched.started
  {
    hide Wired, FinishNode, Elements, Conserved;
    var x := w.results[0];
    ResultUnfinished(g, w);
    FinishReleases(g, w.sched, Elements(w.finished), x);
    FinishCounters(g, w.sched, Elements(w.finished), x);
    ElementsAppend(w.finished, x);
  }

  lemma PullFinishes(g: Graph, w: Walk)
    requires Conserved(g, w) && Counted(g, w) && w.results != []
    ensures FinishNode(w.sched, w.results[0]).Some?
    ensures Conserved(g, Pull(w)) && Counted(g, Pull(w))
    ensures Pull(w).sched.started == w.sched.started
  {
    hide Conserved, Counted, Pull, FinishNode;
    PullConserves(g, w);
    PullCounts(g, w);
  }

  // ---- the log ----

  /** What one worker step adds to the log. */
  function Noted(p: Phase, x: Worker, raises: bool): multiset<Name> {
    match x
    case Holding(n) => Says(p, Started(n))
    case Running(n) => Says(p, if raises then Failed(n) else Completed(n))
    case _ => multiset{}
  }

  lemma WorkLogs(p: Phase, w: Walk, i: nat, raises: bool)
    requires i < |w.workers|
    ensures Logged(p, WorkStep(w, i, raises).log) == Logged(p, w.log) + Noted(p, w.workers[i], raises)
  {
    hide Logged, Says, NextWorker;
    match w.workers[i] {
      case Holding(n) => LoggedAppend(p, w.log, Started(n));
      case Running(n) => LoggedAppend(p, w.log, if raises then Failed(n) else Completed(n));
      case _ =>
    }
  }

  function Bag(there: bool, n: Name): multiset<Name> {
    if there then multiset{n} else multiset{}
  }

  lemma BagBalance(a: bool, b: bool, c: bool, d: bool, n: Name)
    requires (a == c && b == d) || (a == d && b == c)
    ensures Bag(a, n) + Bag(b, n) == Bag(c, n) + Bag(d, n)
  {
  }

  /** The node a step is about; irrelevant when the worker has none. */
  function Subject(x: Worker): Name {
    if x.Testing? || x.Polling? || x.Stopped? then Name("") else x.node
  }

  predicate Notes(p: Phase, x: Worker, raises: bool) {
    (p == Called && x.Holding?) || (p == Back && x.Running? && !raises) || (p == Broken && x.Running? && raises)
  }

  lemma EmptyBag(n: Name)
    ensures Bag(false, n) == multiset{}
  {
  }

  lemma HeldBag(p: Phase, x: Worker, n: Name)
    requires Reached(p, x) ==> x.node == n
    ensures HeldBy(p, x) == Bag(Reached(p, x), n)
  {
    hide Reached;
  }

  lemma NotedBag(p: Phase, x: Worker, raises: bool)
    ensures Noted(p, x, raises) == Bag(Notes(p, x, raises), Subject(x))
  {
  }

  lemma StoredBag(x: Worker)
    ensures Stored(x) == Bag(x.Storing?, Subject(x))
  {
  }

  /** A node enters a phase in the log when a worker carries it into that phase. */
  lemma PhaseBalance(p: Phase, x: Worker, shutdown: bool, tasks: seq<Name>, raises: bool)
    requires p != Taken
    ensures HeldBy(p, x) + Noted(p, x, raises)
         == HeldBy(p, NextWorker(x, shutdown, tasks, raises)) + if p == Broken then multiset{} else Stored(x)
  {
    hide HeldBy, Noted, Stored, Bag;
    var n, y := Subject(x), NextWorker(x, shutdown, tasks, raises);
    HeldBag(p, x, n);
    HeldBag(p, y, n);
    NotedBag(p, x, raises);
    StoredBag(x);
    EmptyBag(n);
    BagBalance(Reached(p, x), Notes(p, x, raises), Reached(p, y), p != Broken && x.Storing?, n);
  }

  lemma LogBalance(l: multiset<Name>, h: multiset<Name>, b: multiset<Name>, l': multiset<Name>, h': multiset<Name>,
                   b': multiset<Name>, x: multiset<Name>, y: multiset<Name>, e: multiset<Name>, r: multiset<Name>)
    requires l == h + b && l' == l + e && b' == b + r && x <= h && h' == h - x + y && x + e == y + r
    ensures l' == h' + b'
  {
    forall n
      ensures l'[n] == (h' + b')[n]
    {
      assert (x + e)[n] == (y + r)[n];
      assert l[n] == (h + b)[n];
    }
  }

  lemma WorkRecordsPhase(p: Phase, w: Walk, i: nat, raises: bool)
    requires i < |w.workers| && p != Taken
    requires Logged(p, w.log) == Held(p, w.workers) + Behind(p, w)
    ensures Logged(p, WorkStep(w, i, raises).log)
         == Held(p, WorkStep(w, i, raises).workers) + Behind(p, WorkStep(w, i, raises))
  {
    hide Held, HeldBy, Logged, Noted, Stored, WorkStep, NextWorker;
    var v := WorkStep(w, i, raises);
    var x, y := w.workers[i], Moved(w, i, raises);
    WorkHolds(p, w, i, raises);
    WorkLogs(p, w, i, raises);
    WorkStores(w, i, raises);
    WorkFrame(w, i, raises);
    PhaseBalance(p, x, w.shutdown, w.tasks, raises);
    var r := if p == Broken then multiset{} else Stored(x);
    assert Behind(p, v) == Behind(p, w) + r;
    LogBalance(Logged(p, w.log), Held(p, w.workers), Behind(p, w), Logged(p, v.log), Held(p, v.workers), Behind(p, v),
               HeldBy(p, x), HeldBy(p, y), Noted(p, x, raises), r);
  }

  lemma WorkMarks(w: Walk, i: nat, raises: bool)
    requires i < |w.workers|
    requires forall n | n in Logged(Called, w.log) :: n in w.sched.started
    ensures var v := WorkStep(w, i, raises); forall n | n in Logged(Called, v.log) :: n in v.sched.started
  {
    hide Logged;
    match w.workers[i] {
      case Holding(n) => LoggedAppend(Called, w.log, Started(n));
      case Running(n) => LoggedAppend(Called, w.log, if raises then Failed(n) else Completed(n));
      case _ =>
    }
  }

  lemma WorkRecords(w: Walk, i: nat, raises: bool)
    requires i < |w.workers| && Recorded(w)
    ensures Recorded(WorkStep(w, i, raises))
  {
    hide Held, Logged, WorkStep;
    WorkRecordsPhase(Called, w, i, raises);
    WorkRecordsPhase(Back, w, i, raises);
    WorkRecordsPhase(Broken, w, i, raises);
    WorkMarks(w, i, raises);
  }

  lemma PullMovesResult(g: Graph, w: Walk)
    requires Conserved(g, w) && Counted(g, w) && w.results != []
    ensures var v := Pull(w);
      && v.workers == w.workers && v.log == w.log && v.sched.started == w.sched.started
      && v.shutdown == w.shutdown && v.main == w.main
      && multiset(v.results) + multiset(v.finished) == multiset(w.results) + multiset(w.finished)
  {
    PullFinishes(g, w);
    hide FinishNode;
    HeadAndTail(w.results);
    AppendBag(w.finished, w.results[0]);
  }

  lemma PullRecords(g: Graph, w: Walk)
    requires Conserved(g, w) && Counted(g, w) && Recorded(w) && w.results != []
    ensures Recorded(Pull(w))
  {
    hide Conserved, Counted, Pull, Held, Logged;
    PullMovesResult(g, w);
  }

  // ---- order ----

  predicate JustifiedBy(g: Graph, log: seq<Event>, e: Event) {
    match e
    case Started(n) => forall d | d in g.DepsOf(n) :: Completed(d) in log
    case Completed(n) => Started(n) in log
    case Failed(n) => Started(n) in log
  }

  lemma OrderedAppend(g: Graph, log: seq<Event>, e: Event)
    requires Ordered(g, log) && JustifiedBy(g, log, e)
    ensures Ordered(g, log + [e])
  {
    var l := log + [e];
    forall i | 0 <= i < |l|
      ensures Justified(g, l, i)
    {
      if i < |log| {
        assert Justified(g, log, i);
        assert l[..i] == log[..i];
      } else {
        assert l[..i] == log;
      }
    }
  }

  /** A node in a worker's hands is no longer blocked: all its dependencies are finished. */
  lemma HeldIsReady(g: Graph, w: Walk, i: nat, n: Name)
    requires Conserved(g, w) && Counted(g, w)
    requires i < |w.workers| && HeldBy(Taken, w.workers[i]) == multiset{n}
    ensures n in g.deps && forall d | d in g.deps[n] :: d in w.finished
  {
    hide Wired;
    HeldHas(Taken, w.workers, i);
    assert n in Held(Taken, w.workers);
    assert multiset(g.deps.Keys)[n] == Stock(w)[n];
    assert n !in Blocked(w.sched);
    UnmetZero(g.deps[n], Elements(w.finished));
    assert Wired(g, w.sched);
    PendingZero(g, w.sched, n);
  }

  lemma PendingZero(g: Graph, s: Sched, n: Name)
    requires Wired(g, s) && n in g.deps && n !in Blocked(s)
    ensures Pending(s, n) == 0
  {
  }

  /** When a worker is about to call `f`, the log already says that all dependencies completed. */
  lemma HeldDepsCompleted(g: Graph, w: Walk, i: nat, n: Name)
    requires i < |w.workers| && Conserved(g, w) && Counted(g, w) && Recorded(w)
    requires HeldBy(Taken, w.workers[i]) == multiset{n}
    ensures forall d | d in g.DepsOf(n) :: Completed(d) in w.log
  {
    hide Conserved, Counted, Held, Logged;
    HeldIsReady(g, w, i, n);
    forall d | d in g.DepsOf(n)
      ensures Completed(d) in w.log
    {
      assert d in multiset(w.finished);
      LoggedMember(Back, w.log, Completed(d));
      assert Logged(Back, w.log)[d] > 0;
    }
  }

  lemma RunningStarted(w: Walk, i: nat, n: Name)
    requires i < |w.workers| && Recorded(w) && w.workers[i] == Running(n)
    ensures Started(n) in w.log
  {
    hide Held, Logged;
    HeldHas(Called, w.workers, i);
    assert n in Held(Called, w.workers);
    LoggedMember(Called, w.log, Started(n));
    assert Logged(Called, w.log)[n] > 0;
  }

  lemma WorkOrders(g: Graph, w: Walk, i: nat, raises: bool)
    requires i < |w.workers| && Conserved(g, w) && Counted(g, w) && Recorded(w) && Ordered(g, w.log)
    ensures Ordered(g, WorkStep(w, i, raises).log)
  {
    hide Conserved, Counted, Recorded, Ordered, Graph.DepsOf, NextWorker;
    match w.workers[i] {
      case Holding(n) =>
        HeldDepsCompleted(g, w, i, n);
        OrderedAppend(g, w.log, Started(n));
      case Running(n) =>
        RunningStarted(w, i, n);
        OrderedAppend(g, w.log, if raises then Failed(n) else Completed(n));
      case _ =>
    }
  }

  // ---- the stages of the main loop ----

  /** When as many nodes are finished as there are nodes, the sanity check passes. */
  lemma FullIsSane(g: Graph, w: Walk)
    requires Conserved(g, w) && Counted(g, w) && Recorded(w)
    requires |w.finished| == |g.deps|
    ensures Sane(w.sched)
  {
    var all := multiset(g.deps.Keys);
    assert |all| == |g.deps.Keys| == |g.deps|;
    assert |multiset(w.finished)| == |w.finished|;
    assert multiset(w.finished) <= Stock(w);
    forall n | n in w.sched.pending
      ensures w.sched.pending[n] == 0 && n in w.sched.started
    {
      FullHasAll(multiset(w.finished), all);
      assert n in g.deps.Keys;
      assert n in multiset(w.finished);
      assert n in Logged(Called, w.log);
      assert all[n] == Stock(w)[n];
      assert n !in Blocked(w.sched);
    }
  }

  lemma FullHasAll(a: multiset<Name>, b: multiset<Name>)
    requires a <= b && |a| == |b|
    ensures a == b
  {
    assert b == a + (b - a);
    assert |b - a| == 0;
  }

  lemma DoneMeansFull(g: Graph, w: Walk)
    requires Counted(g, w)
    ensures Done(w.sched) <==> |w.finished| == |g.deps|
  {
    assert |w.sched.pending| == |w.sched.pending.Keys|;
    assert |g.deps| == |g.deps.Keys|;
  }

  /** Finished nodes are distinct, so there are never more of them than nodes. */
  lemma PullCount(g: Graph, w: Walk)
    requires Conserved(g, w) && w.results != []
    ensures |w.finished| < |g.deps|
  {
    HeadAndTail(w.results);
    assert multiset(w.finished) + multiset{w.results[0]} <= Stock(w);
    BagSize(multiset(w.finished) + multiset{w.results[0]}, multiset(g.deps.Keys));
    assert |multiset(w.finished)| == |w.finished|;
    assert |multiset(g.deps.Keys)| == |g.deps.Keys| == |g.deps|;
  }

  lemma BagSize(a: multiset<Name>, b: multiset<Name>)
    requires a <= b
    ensures |a| <= |b|
  {
    assert b == a + (b - a);
  }

  lemma EndedStays(w: Walk, i: nat, raises: bool, k: nat)
    requires i < |w.workers| && k < |w.workers| && Ended(w.workers[k])
    ensures WorkStep(w, i, raises).workers[k] == w.workers[k]
  {
  }

  lemma WorkControls(g: Graph, w: Walk, i: nat, raises: bool)
    requires i < |w.workers| && Controlled(g, w)
    ensures Controlled(g, WorkStep(w, i, raises))
  {
    var v := WorkStep(w, i, raises);
    assert |v.workers| == |w.workers| && v.main == w.main && v.finished == w.finished;
    assert v.shutdown && !w.shutdown ==> v.workers[i].Raised?;
    assert w.shutdown ==> v.shutdown;
    hide WorkStep;
    forall k | 0 <= k < |w.workers| && Ended(w.workers[k])
      ensures v.workers[k] == w.workers[k]
    {
      EndedStays(w, i, raises, k);
    }
    if k :| 0 <= k < |w.workers| && w.workers[k].Raised? {
      assert v.workers[k].Raised?;
    }
  }

  lemma PullControls(g: Graph, w: Walk)
    requires Inv(g, w) && w.main.Pulling?
    ensures Controlled(g, Pull(w))
  {
    hide Conserved, Counted, Recorded, Ordered, Pull;
    if w.results != [] {
      PullMovesResult(g, w);
      PullCount(g, w);
    } else {
      PullNothing(g, w);
    }
  }

  lemma PullNothing(g: Graph, w: Walk)
    requires Controlled(g, w) && w.main.Pulling? && w.results == []
    ensures Controlled(g, Pull(w))
  {
  }

  lemma MainControls(g: Graph, w: Walk)
    requires Inv(g, w)
    ensures Controlled(g, MainStep(w))
  {
    hide Conserved, Counted, Recorded, Ordered;
    match w.main {
      case AtDone => DoneMeansFull(g, w);
      case AtSanity => FullIsSane(g, w);
      case Pulling => PullControls(g, w);
      case _ =>
    }
  }
}

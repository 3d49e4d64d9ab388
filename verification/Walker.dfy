/** `DAG.walk_parallel` as a transition system: the main loop, the worker threads and the clock take turns in any
    order. Every action is one access to shared state. `log` and `finished` record history and guide nothing. */
module Walker {
  import opened Basics
  import opened Graphs
  import opened NodeStates
  import opened RateLimiting

  /** Where a worker thread stands in its loop. */
  datatype Worker =
    | Testing               // about to test `shutdown`
    | Polling               // about to call `task_queue.get_nowait()`
    | Holding(node: Name)   // has taken a node, about to mark it started and call `f`
    | Running(node: Name)   // inside `f`
    | Storing(node: Name)   // `f` returned, about to call `done_queue.put`
    | Failing(node: Name)   // `f` raised, about to set `shutdown`
    | Stopped               // the thread function returned
    | Raised(node: Name)    // the thread function raised

  /** Where the calling thread stands. */
  datatype MainLoop =
    | AtTest                // about to test `shutdown`
    | AtDone                // about to call `_is_done`
    | AtSanity              // about to call `_sanity_check`
    | Pushing
    | Pulling
    | Joining(i: nat)       // waiting for future `i`
    | Unwinding             // a future raised; leaving the executor waits for the other workers
    | Returned
    | Reraised
    | Asserted              // an assertion of `_State` failed

  /** The visible history of `f`. */
  datatype Event = Started(node: Name) | Completed(node: Name) | Failed(node: Name)

  datatype Walk = Walk(
    sched: Sched,
    tasks: seq<Name>,
    results: seq<Name>,
    workers: seq<Worker>,
    shutdown: bool,
    main: MainLoop,
    limiter: Limiter,
    now: real,
    log: seq<Event>,
    finished: seq<Name>)

  datatype Action =
    | Main
    | Work(i: nat, raises: bool) // `raises` decides how a call of `f` ends
    | Tick(to: real)

  function Begin(g: Graph, numWorkers: nat, limiter: Limiter, now: real): Walk {
    Walk(Initial(g), [], [], seq(numWorkers, _ => Testing), false, AtTest, limiter, now, [], [])
  }

  predicate Ended(x: Worker) {
    x.Stopped? || x.Raised?
  }

  predicate AllEnded(ws: seq<Worker>) {
    forall i | 0 <= i < |ws| :: Ended(ws[i])
  }

  predicate Enabled(w: Walk, a: Action) {
    match a
    case Main => !(w.main.Returned? || w.main.Reraised? || w.main.Asserted?)
    case Work(i, _) => i < |w.workers| && !Ended(w.workers[i])
    case Tick(to) => w.now <= to
  }

  function Apply(w: Walk, a: Action): Walk {
    match a
    case Main => MainStep(w)
    case Work(i, raises) => if i < |w.workers| then WorkStep(w, i, raises) else w
    case Tick(to) => w.(now := to)
  }

  function MainStep(w: Walk): Walk {
    match w.main
    case AtTest => w.(main := if w.shutdown then Joining(0) else AtDone)
    case AtDone => if Done(w.sched) then w.(shutdown := true, main := AtSanity) else w.(main := Pushing)
    case AtSanity => w.(main := if Sane(w.sched) then Joining(0) else Asserted)
    case Pushing => Push(w)
    case Pulling => Pull(w)
    case Joining(i) =>
      if i >= |w.workers| then w.(main := Returned)
      else if w.workers[i].Stopped? then w.(main := Joining(i + 1))
      else if w.workers[i].Raised? then w.(main := Unwinding)
      else w
    case Unwinding => if AllEnded(w.workers) then w.(main := Reraised) else w
    case _ => w
  }

  /** One turn of the push loop: the most recently readied node leaves, if there is one and a token for it. */
  function Push(w: Walk): Walk {
    var q := w.sched.queue;
    if q == [] || !w.limiter.Grants(w.now) then w.(main := Pulling)
    else w.(limiter := w.limiter.Get(w.now),
            sched := w.sched.(queue := q[..|q| - 1]),
            tasks := w.tasks + [q[|q| - 1]])
  }

  /** One turn of the pull loop: the oldest result is finished. */
  function Pull(w: Walk): Walk {
    if w.results == [] then w.(main := AtTest)
    else
      match FinishNode(w.sched, w.results[0])
      case None => w.(main := Asserted)
      case Some(t) => w.(sched := t, results := w.results[1..], finished := w.finished + [w.results[0]])
  }

  /** The worker after its step. */
  function NextWorker(x: Worker, shutdown: bool, tasks: seq<Name>, raises: bool): Worker {
    match x
    case Testing => if shutdown then Stopped else Polling
    case Polling => if tasks == [] then Testing else Holding(tasks[0])
    case Holding(n) => Running(n)
    case Running(n) => if raises then Failing(n) else Storing(n)
    case Storing(n) => Testing
    case Failing(n) => Raised(n)
    case _ => x
  }

  /** What the step does to the shared state. */
  function WorkStep(w: Walk, i: nat, raises: bool): Walk
    requires i < |w.workers|
  {
    var v := w.(workers := w.workers[i := NextWorker(w.workers[i], w.shutdown, w.tasks, raises)]);
    match w.workers[i]
    case Polling => if w.tasks == [] then v else v.(tasks := w.tasks[1..])
    case Holding(n) => v.(sched := MarkStarted(w.sched, n), log := w.log + [Started(n)])
    case Running(n) => v.(log := w.log + [if raises then Failed(n) else Completed(n)])
    case Storing(n) => v.(results := w.results + [n])
    case Failing(n) => v.(shutdown := true)
    case _ => v
  }

  // ---- runs ----

  /** The state after the actions `acts`. */
  function Run(w: Walk, acts: seq<Action>): Walk {
    if acts == [] then w else Apply(Run(w, acts[..|acts| - 1]), acts[|acts| - 1])
  }

  /** Each action is enabled when its turn comes. */
  predicate Possible(w: Walk, acts: seq<Action>) {
    acts == [] || (Possible(w, acts[..|acts| - 1]) && Enabled(Run(w, acts[..|acts| - 1]), acts[|acts| - 1]))
  }
}

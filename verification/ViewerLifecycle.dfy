/** The life cycle of the web viewer: `start` runs in segments between its `await`s, and anything may happen in
    between. */
module ViewerLifecycle {
  import opened Basics

  type Url = string

  /** The recordings that a handle has open, with the follow flag each was opened with. */
  type Receivers = map<Url, Option<bool>>

  datatype State = Stopped | Starting | Ready

  /** What a `start` call was given. No `rrd` stands for every falsy argument. */
  datatype StartArgs = StartArgs(rrd: Option<seq<Url>>, follow: Option<bool>)

  /** Where a `start` call is suspended. */
  datatype Suspension =
    | AtDelay(args: StartArgs)         // await delay(0)
    | AtLoad(args: StartArgs)          // await load(…)
    | AtHandleStart(args: StartArgs)   // await this.#handle.start(…)

  /** A viewer instance: its fields, the handles it has made, and its suspended `start` calls. */
  datatype Viewer = Viewer(
    state: State,
    handle: Option<Receivers>,   // None: null
    canvas: bool,                // non-null
    loader: bool,                // non-null
    created: nat,
    freed: nat,
    leaked: nat,                 // given up because `destroy` or `free` threw
    pending: seq<Suspension>)

  const FRESH: Viewer := Viewer(Stopped, None, false, false, 0, 0, 0, [])

  datatype LoadOutcome = Loaded | LoadFailed | ConstructorThrew

  /** One turn of the event loop. `failAt`: the index of the url whose foreign call throws. */
  datatype Event =
    | Start(args: StartArgs)
    | AfterDelay(i: nat)
    | AfterLoad(i: nat, load: LoadOutcome, destroyThrows: bool)
    | AfterHandleStart(i: nat, started: bool, failAt: Option<nat>, panicked: bool, destroyThrows: bool)
    | Stop(destroyThrows: bool)
    | Panic(destroyThrows: bool)
    | Open(urls: seq<Url>, follow: Option<bool>, failAt: Option<nat>, destroyThrows: bool)
    | Close(urls: seq<Url>, failAt: Option<nat>, destroyThrows: bool)

  // ---- one segment at a time ----

  function AddAll(r: Receivers, urls: seq<Url>, follow: Option<bool>): Receivers {
    if urls == [] then r else AddAll(r, urls[..|urls| - 1], follow)[urls[|urls| - 1] := follow]
  }

  function RemoveAll(r: Receivers, urls: seq<Url>): Receivers {
    if urls == [] then r else RemoveAll(r, urls[..|urls| - 1]) - {urls[|urls| - 1]}
  }

  lemma {:induction false} AddAllEntry(r: Receivers, urls: seq<Url>, follow: Option<bool>, x: Url)
    ensures x in AddAll(r, urls, follow) <==> x in r || x in urls
    ensures x in urls ==> AddAll(r, urls, follow)[x] == follow
    ensures x in r && x !in urls ==> AddAll(r, urls, follow)[x] == r[x]
  {
    if urls != [] {
      var init := urls[..|urls| - 1];
      assert urls == init + [urls[|urls| - 1]];
      AddAllEntry(r, init, follow, x);
    }
  }

  lemma {:induction false} RemoveAllEntry(r: Receivers, urls: seq<Url>, x: Url)
    ensures x in RemoveAll(r, urls) <==> x in r && x !in urls
    ensures x in r && x !in urls ==> RemoveAll(r, urls)[x] == r[x]
  {
    if urls != [] {
      var init := urls[..|urls| - 1];
      assert urls == init + [urls[|urls| - 1]];
      RemoveAllEntry(r, init, x);
    }
  }

  predicate Fails(urls: seq<Url>, failAt: Option<nat>) {
    failAt.Some? && failAt.value < |urls|
  }

  function Stopping(v: Viewer, destroyThrows: bool): Viewer {
    if v.state.Stopped? then v
    else if v.handle.None? then v.(state := Stopped, canvas := false, loader := false)
    else if destroyThrows then v.(state := Stopped, loader := false, handle := None, leaked := v.leaked + 1)
    else v.(state := Stopped, canvas := false, loader := false, handle := None, freed := v.freed + 1)
  }

  function Opening(v: Viewer, urls: seq<Url>, follow: Option<bool>, failAt: Option<nat>, destroyThrows: bool): Viewer {
    if v.handle.None? then v
    else if Fails(urls, failAt) then
      Stopping(v.(handle := Some(AddAll(v.handle.value, urls[..failAt.value], follow))), destroyThrows)
    else v.(handle := Some(AddAll(v.handle.value, urls, follow)))
  }

  function Closing(v: Viewer, urls: seq<Url>, failAt: Option<nat>, destroyThrows: bool): Viewer {
    if v.handle.None? then v
    else if Fails(urls, failAt) then
      Stopping(v.(handle := Some(RemoveAll(v.handle.value, urls[..failAt.value]))), destroyThrows)
    else v.(handle := Some(RemoveAll(v.handle.value, urls)))
  }

  /** `open` and `close` throw without a handle, and when a foreign call throws. */
  predicate Throws(v: Viewer, urls: seq<Url>, failAt: Option<nat>) {
    v.handle.None? || Fails(urls, failAt)
  }

  function Drop(pending: seq<Suspension>, i: nat): seq<Suspension>
    requires i < |pending|
  {
    pending[..i] + pending[i + 1..]
  }

  function Beginning(v: Viewer, args: StartArgs): Viewer {
    if !v.state.Stopped? then v
    else v.(state := Starting, canvas := true, loader := true, pending := v.pending + [AtDelay(args)])
  }

  function DelayOver(v: Viewer, i: nat): Viewer
    requires i < |v.pending|
  {
    v.(pending := v.pending[i := AtLoad(v.pending[i].args)])
  }

  function LoadOver(v: Viewer, i: nat, load: LoadOutcome, destroyThrows: bool): Viewer
    requires i < |v.pending|
  {
    var done := v.(pending := Drop(v.pending, i));
    if load.LoadFailed? then Stopping(done.(loader := false), destroyThrows)
    else if !v.state.Starting? then done.(loader := false)
    else if load.ConstructorThrew? then done
    else v.(handle := Some(map[]), created := v.created + 1,
        pending := v.pending[i := AtHandleStart(v.pending[i].args)])
  }

  function HandleStartOver(v: Viewer, i: nat, started: bool, failAt: Option<nat>, panicked: bool,
                           destroyThrows: bool): Viewer
    requires i < |v.pending|
  {
    var done := v.(pending := Drop(v.pending, i), loader := false);
    if !started then Stopping(done, destroyThrows)
    else if !v.state.Starting? then done
    else
      var ready, args := done.(state := Ready), v.pending[i].args;
      var after := if args.rrd.Some? then Opening(ready, args.rrd.value, args.follow, failAt, destroyThrows) else ready;
      if args.rrd.Some? && Throws(ready, args.rrd.value, failAt) then after
      else if panicked && after.handle.Some? then Stopping(after, destroyThrows)
      else after
  }

  /** What becomes of the promise that `start` returned. */
  datatype Next = Suspended | Resolved | Rejected

  function AfterLoadNext(v: Viewer, load: LoadOutcome): Next {
    if load.LoadFailed? then Rejected
    else if !v.state.Starting? then Resolved
    else if load.ConstructorThrew? then Rejected
    else Suspended
  }

  function AfterHandleStartNext(v: Viewer, args: StartArgs, started: bool, failAt: Option<nat>, panicked: bool,
                                destroyThrows: bool): Next
  {
    if !started then Rejected
    else if !v.state.Starting? then Resolved
    else if args.rrd.Some? && Throws(v, args.rrd.value, failAt) then Rejected
    else if panicked && v.handle.Some? && destroyThrows then Rejected
    else Resolved
  }

  /** The event can happen now. */
  predicate Enabled(v: Viewer, e: Event) {
    match e
    case AfterDelay(i) => i < |v.pending| && v.pending[i].AtDelay?
    case AfterLoad(i, _, _) => i < |v.pending| && v.pending[i].AtLoad?
    case AfterHandleStart(i, _, _, _, _) => i < |v.pending| && v.pending[i].AtHandleStart?
    case _ => true
  }

  function Step(v: Viewer, e: Event): Viewer {
    match e
    case Start(args) => Beginning(v, args)
    case AfterDelay(i) => if i < |v.pending| then DelayOver(v, i) else v
    case AfterLoad(i, load, destroyThrows) => if i < |v.pending| then LoadOver(v, i, load, destroyThrows) else v
    case AfterHandleStart(i, started, failAt, panicked, destroyThrows) =>
      if i < |v.pending| then HandleStartOver(v, i, started, failAt, panicked, destroyThrows) else v
    case Stop(destroyThrows) => Stopping(v, destroyThrows)
    case Panic(destroyThrows) => if v.handle.Some? then Stopping(v, destroyThrows) else v
    case Open(urls, follow, failAt, destroyThrows) => Opening(v, urls, follow, failAt, destroyThrows)
    case Close(urls, failAt, destroyThrows) => Closing(v, urls, failAt, destroyThrows)
  }

  // ---- the invariant ----

  /** What a user of the viewer relies on. */
  predicate Safe(v: Viewer) {
    && (v.state.Ready? ==> v.handle.Some? && v.canvas)
    && (v.state.Stopped? ==> v.handle.None?)
    && v.created == v.freed + v.leaked + if v.handle.Some? then 1 else 0
  }

  /** At most one `start` is suspended, and while it may still go on, the fields are as it left them. */
  predicate Inv(v: Viewer) {
    && Safe(v)
    && |v.pending| <= 1
    && (v.state.Stopped? ==> !v.loader)
    && (v.state.Ready? ==> v.pending == [] && !v.loader)
    && (v.state.Starting? && v.pending != [] ==> v.loader)
    && (v.state.Starting? ==> v.canvas && (v.handle.Some? <==> |v.pending| == 1 && v.pending[0].AtHandleStart?))
  }

  /** No `start` is accepted while an earlier one is still suspended. Calls that return at once are harmless. */
  predicate Disciplined(v: Viewer, e: Event) {
    Enabled(v, e) && (e.Start? ==> !v.state.Stopped? || v.pending == [])
  }

  function Run(v: Viewer, es: seq<Event>): Viewer {
    if es == [] then v else Step(Run(v, es[..|es| - 1]), es[|es| - 1])
  }

  predicate DisciplinedRun(v: Viewer, es: seq<Event>) {
    es == [] || (DisciplinedRun(v, es[..|es| - 1]) && Disciplined(Run(v, es[..|es| - 1]), es[|es| - 1]))
  }

  /** Every disciplined event keeps the invariant. */
  lemma StepKeepsInv(v: Viewer, e: Event)
    requires Inv(v) && Disciplined(v, e)
    ensures Inv(Step(v, e))
  {
    hide AddAll, RemoveAll, Drop, LoadOver, HandleStartOver, Opening, Closing, Stopping;
    match e
    case AfterLoad(i, load, destroyThrows) => LoadKeepsInv(v, i, load, destroyThrows);
    case AfterHandleStart(i, started, failAt, panicked, destroyThrows) =>
      HandleStartKeepsInv(v, i, started, failAt, panicked, destroyThrows);
    case Open(urls, follow, failAt, destroyThrows) => OpeningKeepsInv(v, urls, follow, failAt, destroyThrows);
    case Close(urls, failAt, destroyThrows) => ClosingKeepsInv(v, urls, failAt, destroyThrows);
    case Stop(destroyThrows) => StoppingKeepsInv(v, destroyThrows);
    case Panic(destroyThrows) => StoppingKeepsInv(v, destroyThrows);
    case _ =>
  }

  lemma StoppingKeepsInv(v: Viewer, destroyThrows: bool)
    requires Inv(v)
    ensures Inv(Stopping(v, destroyThrows))
  {
  }

  lemma OpeningKeepsInv(v: Viewer, urls: seq<Url>, follow: Option<bool>, failAt: Option<nat>, destroyThrows: bool)
    requires Inv(v)
    ensures Inv(Opening(v, urls, follow, failAt, destroyThrows))
  {
    hide AddAll;
  }

  lemma ClosingKeepsInv(v: Viewer, urls: seq<Url>, failAt: Option<nat>, destroyThrows: bool)
    requires Inv(v)
    ensures Inv(Closing(v, urls, failAt, destroyThrows))
  {
    hide RemoveAll;
  }

  lemma LoadKeepsInv(v: Viewer, i: nat, load: LoadOutcome, destroyThrows: bool)
    requires Inv(v) && i < |v.pending| && v.pending[i].AtLoad?
    ensures Inv(LoadOver(v, i, load, destroyThrows))
  {
    assert Drop(v.pending, i) == [];
    hide Drop;
  }

  lemma HandleStartKeepsInv(v: Viewer, i: nat, started: bool, failAt: Option<nat>, panicked: bool, destroyThrows: bool)
    requires Inv(v) && i < |v.pending| && v.pending[i].AtHandleStart?
    ensures Inv(HandleStartOver(v, i, started, failAt, panicked, destroyThrows))
  {
    assert Drop(v.pending, i) == [];
    hide Drop, Opening, Stopping, Throws;
    var done := v.(pending := [], loader := false);
    var ready, args := done.(state := Ready), v.pending[i].args;
    if !started {
      FailedStartKeepsInv(v, destroyThrows);
    } else if v.state.Starting? {
      if args.rrd.Some? { OpeningKeepsInv(ready, args.rrd.value, args.follow, failAt, destroyThrows); }
      var after := if args.rrd.Some? then Opening(ready, args.rrd.value, args.follow, failAt, destroyThrows) else ready;
      StoppingKeepsInv(after, destroyThrows);
    }
  }

  lemma FailedStartKeepsInv(v: Viewer, destroyThrows: bool)
    requires Inv(v)
    ensures Inv(Stopping(v.(pending := [], loader := false), destroyThrows))
  {
  }

  lemma {:induction false} RunKeepsInv(v: Viewer, es: seq<Event>)
    requires Inv(v) && DisciplinedRun(v, es)
    ensures Inv(Run(v, es))
  {
    if es != [] {
      RunKeepsInv(v, es[..|es| - 1]);
      StepKeepsInv(Run(v, es[..|es| - 1]), es[|es| - 1]);
    }
  }

  /** In every disciplined life of an instance, at every suspension point: a ready viewer has a handle and a canvas,
      a stopped one has no handle, and every handle made was freed, given up because `destroy` threw, or is held. */
  lemma AlwaysSafe(es: seq<Event>)
    requires DisciplinedRun(FRESH, es)
    ensures Safe(Run(FRESH, es))
  {
    RunKeepsInv(FRESH, es);
  }

  predicate DestroyWorks(e: Event) {
    match e
    case AfterLoad(_, _, destroyThrows) => !destroyThrows
    case AfterHandleStart(_, _, _, _, destroyThrows) => !destroyThrows
    case Stop(destroyThrows) => !destroyThrows
    case Panic(destroyThrows) => !destroyThrows
    case Open(_, _, _, destroyThrows) => !destroyThrows
    case Close(_, _, destroyThrows) => !destroyThrows
    case _ => true
  }

  /** While `destroy` and `free` do not throw, no handle is lost: created = freed + held. */
  lemma {:induction false} NoHandleIsLost(es: seq<Event>)
    requires DisciplinedRun(FRESH, es) && forall e | e in es :: DestroyWorks(e)
    ensures var v := Run(FRESH, es);
            v.leaked == 0 && v.created == v.freed + if v.handle.Some? then 1 else 0
  {
    if es != [] {
      var r := es[..|es| - 1];
      NoHandleIsLost(r);
      assert DestroyWorks(es[|es| - 1]);
      StepLosesNothing(Run(FRESH, r), es[|es| - 1]);
    }
    AlwaysSafe(es);
  }

  lemma StepLosesNothing(v: Viewer, e: Event)
    requires DestroyWorks(e)
    ensures Step(v, e).leaked == v.leaked
  {
    hide AddAll, RemoveAll;
  }

  // ---- a start suspended across a stop ----

  predicate Inert(v: Viewer, w: Viewer) {
    w.state.Stopped? && w.handle.None? && w.created == v.created
  }

  lemma StaleStep(v: Viewer, e: Event)
    requires Inv(v) && v.state.Stopped? && v.pending != [] && Disciplined(v, e)
    ensures Inert(v, Step(v, e)) && Inv(Step(v, e))
  {
    hide AddAll, RemoveAll;
    StepKeepsInv(v, e);
  }

  /** A start that is suspended, at whichever point, when the viewer is stopped: up to and including its last segment
      the viewer stays stopped, makes no handle and opens nothing. */
  lemma {:induction false} StaleStartIsInert(v: Viewer, es: seq<Event>)
    requires Inv(v) && v.state.Stopped? && v.pending != [] && DisciplinedRun(v, es)
    requires forall k | 0 <= k < |es| :: Run(v, es[..k]).pending != []
    ensures Inert(v, Run(v, es)) && Inv(Run(v, es))
  {
    if es != [] {
      var r := es[..|es| - 1];
      forall k | 0 <= k < |r|
        ensures Run(v, r[..k]).pending != []
      {
        assert r[..k] == es[..k];
      }
      StaleStartIsInert(v, r);
      StaleStep(Run(v, r), es[|es| - 1]);
    }
  }

  // ---- why a second start must wait ----

  /** Whatever disciplined events follow, the viewer stays safe. */
  ghost predicate SafeFrom(v: Viewer) {
    forall es | DisciplinedRun(v, es) :: Safe(Run(v, es))
  }

  lemma RunThen(v: Viewer, es: seq<Event>, e: Event)
    ensures Run(v, es + [e]) == Step(Run(v, es), e)
    ensures DisciplinedRun(v, es + [e]) <==> DisciplinedRun(v, es) && Disciplined(Run(v, es), e)
  {
    assert (es + [e])[..|es|] == es;
  }

  /** What can go wrong after a second start has been accepted. */
  function Overlap(first: Suspension): seq<Event> {
    match first
    case AtDelay(_) =>
      [AfterDelay(0), AfterLoad(0, Loaded, false), AfterDelay(1), AfterLoad(1, Loaded, false)]
    case AtLoad(_) =>
      [AfterLoad(0, Loaded, false), AfterDelay(1), AfterLoad(1, Loaded, false)]
    case AtHandleStart(_) =>
      [AfterHandleStart(0, true, None, false, false)]
  }

  lemma OverlapIsUnsafe(v: Viewer, args: StartArgs)
    requires Inv(v) && v.state.Stopped? && v.pending != []
    ensures var w := Step(v, Start(args));
            DisciplinedRun(w, Overlap(v.pending[0])) && !Safe(Run(w, Overlap(v.pending[0])))
  {
    hide DisciplinedRun, Run;
    var w := Step(v, Start(args));
    NoEvents(w);
    var loaded := AfterLoad(0, Loaded, false);
    match v.pending[0]
    case AtDelay(_) =>
      var es := [AfterDelay(0)];
      RunThen(w, [], AfterDelay(0));
      assert [] + [AfterDelay(0)] == es;
      RunThen(w, es, loaded);
      RunThen(w, es + [loaded], AfterDelay(1));
      RunThen(w, es + [loaded] + [AfterDelay(1)], AfterLoad(1, Loaded, false));
      assert Overlap(v.pending[0]) == es + [loaded] + [AfterDelay(1)] + [AfterLoad(1, Loaded, false)];
    case AtLoad(_) =>
      var es := [loaded];
      RunThen(w, [], loaded);
      assert [] + [loaded] == es;
      RunThen(w, es, AfterDelay(1));
      RunThen(w, es + [AfterDelay(1)], AfterLoad(1, Loaded, false));
      assert Overlap(v.pending[0]) == es + [AfterDelay(1)] + [AfterLoad(1, Loaded, false)];
    case AtHandleStart(_) =>
      RunThen(w, [], AfterHandleStart(0, true, None, false, false));
      assert [] + Overlap(v.pending[0]) == Overlap(v.pending[0]);
  }

  lemma NoEvents(v: Viewer)
    ensures Run(v, []) == v && DisciplinedRun(v, [])
  {
  }

  /** The discipline is exactly what is needed: a stopped viewer may be started again if and only if no earlier start is
      still suspended. Otherwise two handles come to life and one of them is lost, or the viewer becomes ready without
      a handle. */
  lemma RestartIsSafeIffNothingPends(v: Viewer, args: StartArgs)
    requires Inv(v) && v.state.Stopped?
    ensures v.pending == [] <==> SafeFrom(Step(v, Start(args)))
  {
    var w := Step(v, Start(args));
    if v.pending == [] {
      StepKeepsInv(v, Start(args));
      forall es | DisciplinedRun(w, es)
        ensures Safe(Run(w, es))
      {
        RunKeepsInv(w, es);
      }
    } else {
      OverlapIsUnsafe(v, args);
    }
  }

  predicate EnabledRun(v: Viewer, es: seq<Event>) {
    es == [] || (EnabledRun(v, es[..|es| - 1]) && Enabled(Run(v, es[..|es| - 1]), es[|es| - 1]))
  }

  /** Over whole lives: at every point of a life all that can follow is safe, if and only if no start was ever accepted
      while an earlier one was suspended. */
  lemma {:induction false} SafeIffDisciplined(es: seq<Event>)
    requires EnabledRun(FRESH, es)
    ensures DisciplinedRun(FRESH, es) <==> forall k | 0 <= k <= |es| :: SafeFrom(Run(FRESH, es[..k]))
  {
    hide SafeFrom, Enabled, Step, Inv;
    if DisciplinedRun(FRESH, es) {
      forall k | 0 <= k <= |es|
        ensures SafeFrom(Run(FRESH, es[..k]))
      {
        DisciplinedPrefix(FRESH, es, k);
        InvIsSafe(es[..k]);
      }
    } else {
      var r, e := es[..|es| - 1], es[|es| - 1];
      SafeIffDisciplined(r);
      if DisciplinedRun(FRESH, r) {
        FreshInv();
        RunKeepsInv(FRESH, r);
        IndisciplineIsUnsafe(Run(FRESH, r), e);
        assert es[..|es|] == es;
      } else {
        var k :| 0 <= k <= |r| && !SafeFrom(Run(FRESH, r[..k]));
        assert r[..k] == es[..k];
      }
    }
  }

  lemma FreshInv()
    ensures Inv(FRESH)
  {
  }

  lemma {:induction false} DisciplinedPrefix(v: Viewer, es: seq<Event>, k: nat)
    requires DisciplinedRun(v, es) && k <= |es|
    ensures DisciplinedRun(v, es[..k])
  {
    hide Disciplined, Step;
    if k < |es| {
      var r := es[..|es| - 1];
      DisciplinedPrefix(v, r, k);
      assert r[..k] == es[..k];
    } else {
      assert es[..k] == es;
    }
  }

  lemma InvIsSafe(es: seq<Event>)
    requires DisciplinedRun(FRESH, es)
    ensures SafeFrom(Run(FRESH, es))
  {
    hide DisciplinedRun, Run;
    FreshInv();
    RunKeepsInv(FRESH, es);
    forall more | DisciplinedRun(Run(FRESH, es), more)
      ensures Safe(Run(Run(FRESH, es), more))
    {
      RunKeepsInv(Run(FRESH, es), more);
    }
  }

  lemma IndisciplineIsUnsafe(v: Viewer, e: Event)
    requires Inv(v) && Enabled(v, e) && !Disciplined(v, e)
    ensures !SafeFrom(Step(v, e))
  {
    hide Overlap, Step, Run, DisciplinedRun, Safe;
    OverlapIsUnsafe(v, e.args);
  }

  // ---- the classes ----

  /** The foreign object behind `#handle`. */
  class WebHandle {
    var receivers: Receivers

    constructor ()
      ensures receivers == map[]
    {
      receivers := map[];
    }

    method AddReceiver(url: Url, follow: Option<bool>)
      modifies this
      ensures receivers == old(receivers)[url := follow]
    {
      receivers := receivers[url := follow];
    }

    method RemoveReceiver(url: Url)
      modifies this
      ensures receivers == old(receivers) - {url}
    {
      receivers := receivers - {url};
    }
  }

  /** `WebViewer`. The arguments named after outcomes say how foreign calls end; `pending` and the counters are
      history. */
  class WebViewer {
    var state: State
    var handle: WebHandle?
    var canvas: bool
    var loader: bool
    ghost var created: nat
    ghost var freed: nat
    ghost var leaked: nat
    ghost var pending: seq<Suspension>

    ghost function Model(): Viewer
      reads this, handle
    {
      Viewer(state, if handle == null then None else Some(handle.receivers), canvas, loader, created, freed, leaked,
          pending)
    }

    constructor ()
      ensures Model() == FRESH && handle == null
    {
      state, handle, canvas, loader := Stopped, null, false, false;
      created, freed, leaked, pending := 0, 0, 0, [];
    }

    predicate IsReady()
      reads this
    {
      state.Ready?
    }

    method ClearLoader()
      modifies this`loader
      ensures !loader
    {
      loader := false;
    }

    method Stop(destroyThrows: bool) returns (threw: bool)
      modifies this
      ensures Model() == Stopping(old(Model()), destroyThrows)
      ensures handle == null || handle == old(handle)
      ensures threw <==> old(state) != Stopped && old(handle) != null && destroyThrows
    {
      if state == Stopped { return false; }
      state := Stopped;
      ClearLoader();
      if handle != null && destroyThrows {
        leaked := leaked + 1;
        handle := null;
        return true;
      }
      if handle != null { freed := freed + 1; }
      canvas, handle, loader := false, null, false;
      return false;
    }

    /** `#fail`, without the message it shows. */
    method Fail(destroyThrows: bool) returns (threw: bool)
      modifies this
      ensures Model() == Stopping(old(Model()), destroyThrows)
      ensures handle == null || handle == old(handle)
      ensures threw <==> old(state) != Stopped && old(handle) != null && destroyThrows
    {
      threw := Stop(destroyThrows);
    }

    method Open(urls: seq<Url>, follow: Option<bool>, failAt: Option<nat>, destroyThrows: bool) returns (threw: bool)
      modifies this, handle
      ensures Model() == Opening(old(Model()), urls, follow, failAt, destroyThrows)
      ensures threw <==> Throws(old(Model()), urls, failAt)
      ensures threw <==> old(handle) == null || (failAt.Some? && failAt.value < |urls|)
      ensures handle == null || handle == old(handle)
    {
      if handle == null { return true; }
      ghost var r := handle.receivers;
      for k := 0 to |urls|
        invariant handle != null && handle == old(handle) && handle.receivers == AddAll(r, urls[..k], follow)
        invariant Model() == old(Model()).(handle := Some(handle.receivers))
        invariant failAt.Some? ==> k <= failAt.value
      {
        assert urls[..k + 1][..k] == urls[..k];
        if failAt == Some(k) {
          var _ := Fail(destroyThrows);
          return true;
        }
        handle.AddReceiver(urls[k], follow);
      }
      assert urls[..|urls|] == urls;
      return false;
    }

    method Close(urls: seq<Url>, failAt: Option<nat>, destroyThrows: bool) returns (threw: bool)
      modifies this, handle
      ensures Model() == Closing(old(Model()), urls, failAt, destroyThrows)
      ensures threw <==> Throws(old(Model()), urls, failAt)
      ensures threw <==> old(handle) == null || (failAt.Some? && failAt.value < |urls|)
      ensures handle == null || handle == old(handle)
    {
      if handle == null { return true; }
      ghost var r := handle.receivers;
      for k := 0 to |urls|
        invariant handle != null && handle == old(handle) && handle.receivers == RemoveAll(r, urls[..k])
        invariant Model() == old(Model()).(handle := Some(handle.receivers))
        invariant failAt.Some? ==> k <= failAt.value
      {
        assert urls[..k + 1][..k] == urls[..k];
        if failAt == Some(k) {
          var _ := Fail(destroyThrows);
          return true;
        }
        handle.RemoveReceiver(urls[k]);
      }
      assert urls[..|urls|] == urls;
      return false;
    }

    /** `start` up to its first await. False: it returned at once. */
    method Start(args: StartArgs) returns (suspended: bool)
      modifies this
      ensures Model() == Beginning(old(Model()), args)
      ensures suspended <==> old(state) == Stopped
      ensures handle == old(handle)
    {
      if state != Stopped { return false; }
      state := Starting;
      ClearLoader();
      canvas := true;
      loader := true;
      pending := pending + [AtDelay(args)];
      return true;
    }

    /** `start` from `delay` to `load`. It looks at nothing in between. */
    method AfterDelay(ghost i: nat)
      requires i < |pending| && pending[i].AtDelay?
      modifies this`pending
      ensures Model() == DelayOver(old(Model()), i)
    {
      pending := pending[i := AtLoad(pending[i].args)];
    }

    /** `start` from `load` to `handle.start`. */
    method AfterLoad(ghost i: nat, load: LoadOutcome, destroyThrows: bool) returns (next: Next)
      requires i < |pending| && pending[i].AtLoad?
      modifies this
      ensures Model() == LoadOver(old(Model()), i, load, destroyThrows)
      ensures next == AfterLoadNext(old(Model()), load)
      ensures next == Rejected <==> load.LoadFailed? || (old(state) == Starting && load.ConstructorThrew?)
      ensures next == Suspended <==> load.Loaded? && old(state) == Starting
      ensures handle == null || handle == old(handle) || fresh(handle)
    {
      ghost var args := pending[i].args;
      pending := Drop(pending, i);
      if load == LoadFailed {
        ClearLoader();
        var _ := Fail(destroyThrows);
        return Rejected;
      }
      if state != Starting {
        ClearLoader();
        return Resolved;
      }
      if load == ConstructorThrew { return Rejected; }
      handle := new WebHandle();
      created := created + 1;
      pending := old(pending)[i := AtHandleStart(args)];
      return Suspended;
    }

    /** `start` from `handle.start` to its end. */
    method AfterHandleStart(ghost i: nat, args: StartArgs, started: bool, failAt: Option<nat>, panicked: bool,
                            destroyThrows: bool)
      returns (next: Next)
      requires i < |pending| && pending[i] == AtHandleStart(args)
      modifies this, handle
      ensures Model() == HandleStartOver(old(Model()), i, started, failAt, panicked, destroyThrows)
      ensures next == AfterHandleStartNext(old(Model()), args, started, failAt, panicked, destroyThrows)
      ensures next != Suspended
      ensures next == Rejected <==>
                !started ||
                (old(state) == Starting &&
                 ((args.rrd.Some? && (old(handle) == null || (failAt.Some? && failAt.value < |args.rrd.value|))) ||
                  (panicked && old(handle) != null && destroyThrows)))
      ensures handle == null || handle == old(handle)
    {
      pending := Drop(pending, i);
      ClearLoader();
      if !started {
        var _ := Fail(destroyThrows);
        return Rejected;
      }
      if state != Starting { return Resolved; }
      state := Ready;
      if args.rrd.Some? {
        var threw := Open(args.rrd.value, args.follow, failAt, destroyThrows);
        if threw { return Rejected; }
      }
      if panicked {
        var threw := CheckForPanic(destroyThrows);
        if threw { return Rejected; }
      }
      return Resolved;
    }

    /** `check_for_panic` when the handle, if there is one, has panicked. */
    method CheckForPanic(destroyThrows: bool) returns (threw: bool)
      modifies this
      ensures Model() == Step(old(Model()), Panic(destroyThrows))
      ensures handle == null || handle == old(handle)
      ensures threw <==> old(state) != Stopped && old(handle) != null && destroyThrows
    {
      if handle == null { return false; }
      threw := Fail(destroyThrows);
    }
  }
}

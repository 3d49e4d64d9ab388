/** Every life of the wrapper: mounting, prop updates, restarts, unmounting, remounting, and the continuations of every
    viewer it has ever started, in any order. */
module ReactRuns {
  import opened Basics
  import opened ViewerLifecycle
  import opened ReactWrapper

  /** One viewer of the wrapper. Its suspended starts hold what `startViewer` captured; `due` are the starts whose
      promise has resolved and whose `then` callback is still to run. */
  datatype Instance = Instance(viewer: Viewer, due: seq<StartArgs>)

  datatype Mounting = Before | Mounted | Unmounted

  /** The last of `handles` is `this.#handle`. */
  datatype World = World(mounting: Mounting, props: Props, handles: seq<Instance>)

  datatype Act =
    | DidMount
    | DidUpdate(next: Props, f: Failures)
    | WillUnmount(destroyThrows: bool)
    | Resume(k: nat, e: Event)               // a continuation of `start`, or a panic, of viewer `k`
    | Callback(k: nat, j: nat, f: Failures)  // due callback `j` of viewer `k`

  const UNSTARTED: Instance := Instance(FRESH, [])

  function Args(props: Props): StartArgs {
    StartArgs(Some(ToArray(props.rrd)), props.follow)
  }

  /** The urls that a start was given. */
  function Initial(args: StartArgs): seq<Url> {
    if args.rrd.Some? then args.rrd.value else []
  }

  /** `startViewer`. A start that returns at once has a resolved promise. */
  function Launched(x: Instance, props: Props): Instance {
    if x.viewer.state.Stopped? then x.(viewer := Step(x.viewer, Start(Args(props))))
    else x.(due := x.due + [Args(props)])
  }

  function Current(w: World): Instance
    requires w.handles != []
  {
    w.handles[|w.handles| - 1]
  }

  function WithCurrent(w: World, x: Instance): World
    requires w.handles != []
  {
    w.(handles := w.handles[|w.handles| - 1 := x])
  }

  function Created(props: Props): World {
    World(Before, props, [UNSTARTED])
  }

  predicate StopThrows(v: Viewer, destroyThrows: bool) {
    !v.state.Stopped? && v.handle.Some? && destroyThrows
  }

  /** `componentDidUpdate`. If stopping the old viewer throws, it is not replaced. */
  function Update(w: World, next: Props, f: Failures, isHttp: Url -> bool): World
    requires w.handles != []
  {
    var x, v := Current(w), w.(props := next);
    if KeysChanged(w.props.options, next.options, STARTUP_KEYS) then
      var stopped := WithCurrent(v, x.(viewer := Stopping(x.viewer, f.destroyThrows)));
      if StopThrows(x.viewer, f.destroyThrows) then stopped
      else stopped.(handles := stopped.handles + [Launched(UNSTARTED, next)])
    else if !x.viewer.state.Ready? then v
    else
      var c := Diff(ToArray(w.props.rrd), ToArray(next.rrd), w.props.follow, next.follow, isHttp);
      WithCurrent(v, x.(viewer := Synced(x.viewer, c, next.follow, f)))
  }

  /** The callbacks due once the promise of suspended start `i` has come to `n`. */
  function Settled(x: Instance, i: nat, n: Next): seq<StartArgs> {
    if i < |x.viewer.pending| && n.Resolved? then x.due + [x.viewer.pending[i].args] else x.due
  }

  function HandleStartNext(v: Viewer, i: nat, started: bool, failAt: Option<nat>, panicked: bool,
                           destroyThrows: bool): Next {
    if i < |v.pending| then AfterHandleStartNext(v, v.pending[i].args, started, failAt, panicked, destroyThrows)
    else Suspended
  }

  /** What a continuation does to its own instance. */
  function Resumed(x: Instance, e: Event): Instance {
    var v := Step(x.viewer, e);
    match e
    case AfterDelay(_) => x.(viewer := v)
    case AfterLoad(i, load, _) => Instance(v, Settled(x, i, AfterLoadNext(x.viewer, load)))
    case AfterHandleStart(i, started, failAt, panicked, destroyThrows) =>
      Instance(v, Settled(x, i, HandleStartNext(x.viewer, i, started, failAt, panicked, destroyThrows)))
    case Panic(_) => x.(viewer := v)
    case _ => x
  }

  /** The `then` callback of one start: catch up with the latest props, if the viewer is ready. */
  function CalledBack(x: Instance, args: StartArgs, props: Props, f: Failures, isHttp: Url -> bool): Instance {
    if !x.viewer.state.Ready? then x
    else
      var c := Diff(Initial(args), ToArray(props.rrd), args.follow, props.follow, isHttp);
      x.(viewer := Synced(x.viewer, c, props.follow, f))
  }

  function WithoutDue(x: Instance, j: nat): Instance
    requires j < |x.due|
  {
    x.(due := x.due[..j] + x.due[j + 1..])
  }

  predicate IsContinuation(e: Event) {
    e.AfterDelay? || e.AfterLoad? || e.AfterHandleStart? || e.Panic?
  }

  predicate Possible(w: World, a: Act) {
    w.handles != [] &&
    match a
    case DidMount => !w.mounting.Mounted?
    case DidUpdate(_, _) => w.mounting.Mounted?
    case WillUnmount(_) => w.mounting.Mounted?
    case Resume(k, e) => k < |w.handles| && IsContinuation(e) && Enabled(w.handles[k].viewer, e)
    case Callback(k, j, _) => k < |w.handles| && j < |w.handles[k].due|
  }

  function Apply(w: World, a: Act, isHttp: Url -> bool): World {
    if !Possible(w, a) then w else
    match a
    case DidMount => WithCurrent(w, Launched(Current(w), w.props)).(mounting := Mounted)
    case DidUpdate(next, f) => Update(w, next, f, isHttp)
    case WillUnmount(destroyThrows) =>
      var x := Current(w);
      WithCurrent(w, x.(viewer := Stopping(x.viewer, destroyThrows))).(mounting := Unmounted)
    case Resume(k, e) => w.(handles := w.handles[k := Resumed(w.handles[k], e)])
    case Callback(k, j, f) =>
      var x := w.handles[k];
      w.(handles := w.handles[k := CalledBack(WithoutDue(x, j), x.due[j], w.props, f, isHttp)])
  }

  /** The component is mounted, or mounted again, only while no start of its viewer is suspended. */
  predicate DisciplinedAct(w: World, a: Act) {
    Possible(w, a) && (a.DidMount? ==> Current(w).viewer.pending == [])
  }

  function Life(w: World, acts: seq<Act>, isHttp: Url -> bool): World {
    if acts == [] then w else Apply(Life(w, acts[..|acts| - 1], isHttp), acts[|acts| - 1], isHttp)
  }

  predicate DisciplinedLife(w: World, acts: seq<Act>, isHttp: Url -> bool) {
    acts == [] ||
    (DisciplinedLife(w, acts[..|acts| - 1], isHttp) &&
        DisciplinedAct(Life(w, acts[..|acts| - 1], isHttp), acts[|acts| - 1]))
  }

  // ---- the invariant ----

  predicate InstanceInv(x: Instance) {
    Inv(x.viewer) && (x.viewer.state.Starting? && x.viewer.handle.Some? ==> x.viewer.handle.value == map[])
  }

  /** The viewer was opened by this start, and its callback can bring it into step with the props. */
  ghost predicate Waits(r: Receivers, args: StartArgs, props: Props, isHttp: Url -> bool) {
    Behind(r, Initial(args), args.follow, ToArray(props.rrd), props.follow, isHttp)
  }

  /** A ready viewer is in step with the props, or waits for the youngest of its callbacks. */
  ghost predicate Tracks(x: Instance, props: Props, isHttp: Url -> bool) {
    x.viewer.state.Ready? && x.viewer.handle.Some? ==>
      || Agrees(x.viewer.handle.value, ToArray(props.rrd), props.follow, isHttp)
      || (x.due != [] && Waits(x.viewer.handle.value, x.due[|x.due| - 1], props, isHttp))
  }

  predicate Dead(x: Instance) {
    x.viewer.state.Stopped?
  }

  ghost predicate WorldInv(w: World, isHttp: Url -> bool) {
    && w.handles != []
    && (forall k | 0 <= k < |w.handles| :: InstanceInv(w.handles[k]))
    && (forall k | 0 <= k < |w.handles| - 1 :: Dead(w.handles[k]))
    && (!w.mounting.Mounted? ==> Dead(Current(w)))
    && Tracks(Current(w), w.props, isHttp)
  }

  lemma LaunchedInv(x: Instance, props: Props, isHttp: Url -> bool)
    requires InstanceInv(x) && Dead(x) && x.viewer.pending == []
    ensures InstanceInv(Launched(x, props)) && Tracks(Launched(x, props), props, isHttp)
  {
  }

  lemma StoppedInv(x: Instance, destroyThrows: bool)
    requires InstanceInv(x)
    ensures InstanceInv(x.(viewer := Stopping(x.viewer, destroyThrows))) &&
              Dead(x.(viewer := Stopping(x.viewer, destroyThrows)))
  {
    StepKeepsInv(x.viewer, Stop(destroyThrows));
  }

  lemma ResumedInv(x: Instance, e: Event)
    requires InstanceInv(x) && IsContinuation(e) && Enabled(x.viewer, e)
    ensures InstanceInv(Resumed(x, e))
    ensures Dead(x) ==> Inert(x.viewer, Resumed(x, e).viewer)
  {
    hide AddAll, RemoveAll;
    StepKeepsInv(x.viewer, e);
  }

  /** Only the last segment of `start` makes a viewer ready. It then has just the initial recordings open, and the
      callback of that start is the youngest one due. */
  lemma ResumedTracks(x: Instance, e: Event, props: Props, isHttp: Url -> bool)
    requires InstanceInv(x) && IsContinuation(e) && Enabled(x.viewer, e) && Tracks(x, props, isHttp)
    ensures Tracks(Resumed(x, e), props, isHttp)
  {
    hide AddAll, RemoveAll, Behind, Agrees;
    if e.AfterHandleStart? && x.viewer.state.Starting? {
      var args := x.viewer.pending[e.i].args;
      OpenedIsBehind(Initial(args), args.follow, ToArray(props.rrd), props.follow, isHttp);
      OpenedNothing(args.follow);
    }
  }

  lemma OpenedNothing(follow: Option<bool>)
    ensures AddAll(map[], [], follow) == map[]
  {
  }

  lemma SyncedInv(x: Instance, c: Changes, follow: Option<bool>, f: Failures)
    requires InstanceInv(x) && x.viewer.state.Ready?
    ensures InstanceInv(x.(viewer := Synced(x.viewer, c, follow, f)))
  {
    hide Synced, Applied;
    SyncedOrStopped(x.viewer, c, follow, f);
  }

  /** An update of a ready viewer. */
  lemma UpdateTracks(x: Instance, props: Props, next: Props, f: Failures, isHttp: Url -> bool)
    requires InstanceInv(x) && x.viewer.state.Ready? && Tracks(x, props, isHttp)
    ensures var c := Diff(ToArray(props.rrd), ToArray(next.rrd), props.follow, next.follow, isHttp);
            var y := x.(viewer := Synced(x.viewer, c, next.follow, f));
            InstanceInv(y) && Tracks(y, next, isHttp)
  {
    hide Synced, Behind, Agrees, Applied, Diff;
    var prev, urls := ToArray(props.rrd), ToArray(next.rrd);
    var c := Diff(prev, urls, props.follow, next.follow, isHttp);
    var r := x.viewer.handle.value;
    SyncedInv(x, c, next.follow, f);
    SyncedOrStopped(x.viewer, c, next.follow, f);
    if Agrees(r, prev, props.follow, isHttp) {
      SyncKeepsAgreement(r, prev, urls, props.follow, next.follow, isHttp);
    } else {
      var args := x.due[|x.due| - 1];
      SyncStaysBehind(r, Initial(args), args.follow, prev, urls, props.follow, next.follow, isHttp);
    }
  }

  lemma UpdateInv(w: World, next: Props, f: Failures, isHttp: Url -> bool)
    requires WorldInv(w, isHttp) && w.mounting.Mounted?
    ensures WorldInv(Update(w, next, f, isHttp), isHttp)
  {
    hide Synced, Inv, Stopping, Diff, Behind, Agrees, Applied, Launched, InstanceInv, KeysChanged;
    var x := Current(w);
    StoppedInv(x, f.destroyThrows);
    UnstartedInv();
    LaunchedInv(UNSTARTED, next, isHttp);
    if KeysChanged(w.props.options, next.options, STARTUP_KEYS) {
    } else if x.viewer.state.Ready? {
      UpdateTracks(x, w.props, next, f, isHttp);
    }
  }

  lemma UnstartedInv()
    ensures InstanceInv(UNSTARTED)
  {
  }

  /** A callback of a ready viewer: the youngest one reconciles, the others do no harm. */
  lemma CalledBackTracks(x: Instance, j: nat, props: Props, f: Failures, isHttp: Url -> bool)
    requires InstanceInv(x) && j < |x.due| && x.viewer.state.Ready? && Tracks(x, props, isHttp)
    ensures Tracks(CalledBack(WithoutDue(x, j), x.due[j], props, f, isHttp), props, isHttp)
  {
    hide Synced, Behind, Agrees, Applied, Diff;
    var args, last, urls, r := x.due[j], x.due[|x.due| - 1], ToArray(props.rrd), x.viewer.handle.value;
    SyncedOrStopped(x.viewer, Diff(Initial(args), urls, args.follow, props.follow, isHttp), props.follow, f);
    if Agrees(r, urls, props.follow, isHttp) {
      LateCallbackKeepsAgreement(r, Initial(args), args.follow, urls, props.follow, isHttp);
    } else if j == |x.due| - 1 {
      CatchUpAgrees(r, Initial(args), args.follow, urls, props.follow, isHttp);
    } else {
      LateCallbackStaysBehind(r, Initial(last), last.follow, Initial(args), args.follow, urls, props.follow, isHttp);
    }
  }

  lemma CalledBackInv(x: Instance, j: nat, props: Props, f: Failures, isHttp: Url -> bool)
    requires InstanceInv(x) && j < |x.due|
    ensures var y := CalledBack(WithoutDue(x, j), x.due[j], props, f, isHttp);
            InstanceInv(y) && (Dead(x) ==> y.viewer == x.viewer) &&
                (Tracks(x, props, isHttp) ==> Tracks(y, props, isHttp))
  {
    hide Synced, Behind, Agrees, Applied, Diff;
    if x.viewer.state.Ready? {
      var args := x.due[j];
      SyncedInv(WithoutDue(x, j), Diff(Initial(args), ToArray(props.rrd), args.follow, props.follow, isHttp),
          props.follow, f);
      if Tracks(x, props, isHttp) { CalledBackTracks(x, j, props, f, isHttp); }
    }
  }

  lemma ApplyInv(w: World, a: Act, isHttp: Url -> bool)
    requires WorldInv(w, isHttp) && DisciplinedAct(w, a)
    ensures WorldInv(Apply(w, a, isHttp), isHttp)
  {
    hide Synced, Inv, Stopping, Diff, Behind, Agrees, Applied, Launched, InstanceInv, CalledBack, Resumed, Update;
    match a
    case DidMount => LaunchedInv(Current(w), w.props, isHttp);
    case DidUpdate(next, f) => UpdateInv(w, next, f, isHttp);
    case WillUnmount(destroyThrows) => StoppedInv(Current(w), destroyThrows);
    case Resume(k, e) =>
      ResumedInv(w.handles[k], e);
      if k == |w.handles| - 1 { ResumedTracks(w.handles[k], e, w.props, isHttp); }
    case Callback(k, j, f) => CalledBackInv(w.handles[k], j, w.props, f, isHttp);
  }

  lemma {:induction false} LifeKeepsInv(w: World, acts: seq<Act>, isHttp: Url -> bool)
    requires WorldInv(w, isHttp) && DisciplinedLife(w, acts, isHttp)
    ensures WorldInv(Life(w, acts, isHttp), isHttp)
  {
    hide WorldInv, DisciplinedAct, Apply;
    if acts != [] {
      var r := acts[..|acts| - 1];
      LifeKeepsInv(w, r, isHttp);
      ApplyInv(Life(w, r, isHttp), acts[|acts| - 1], isHttp);
    }
  }

  lemma LifeInv(props: Props, acts: seq<Act>, isHttp: Url -> bool)
    requires DisciplinedLife(Created(props), acts, isHttp)
    ensures WorldInv(Life(Created(props), acts, isHttp), isHttp)
  {
    hide Life, DisciplinedLife, Agrees, Behind;
    UnstartedInv();
    LifeKeepsInv(Created(props), acts, isHttp);
  }

  // ---- the theorems ----

  /** At any point of any life: if the wrapper's viewer is ready and no callback of it is due any more, the open
      recordings are exactly those of the latest props, and the http ones carry the latest follow flag. */
  lemma Reconciled(props: Props, acts: seq<Act>, isHttp: Url -> bool)
    requires DisciplinedLife(Created(props), acts, isHttp)
    ensures var w := Life(Created(props), acts, isHttp);
            && w.handles != []
            && (Current(w).viewer.state.Ready? && Current(w).due == [] ==>
                  && Current(w).viewer.handle.Some?
                  && Shows(Current(w).viewer.handle.value, w.props, isHttp))
  {
    hide Agrees, Behind, Shows, Life, DisciplinedLife;
    LifeInv(props, acts, isHttp);
    var w := Life(Created(props), acts, isHttp);
    if Current(w).viewer.state.Ready? && Current(w).due == [] {
      AgreesShows(Current(w).viewer.handle.value, w.props, isHttp);
    }
  }

  /** Exactly the recordings that the props name are open, and the http ones carry the follow flag of the props. */
  ghost predicate Shows(r: Receivers, props: Props, isHttp: Url -> bool) {
    && (forall x :: x in r <==> Wanted(props.rrd, x))
    && forall x | x in r && isHttp(x) :: r[x] == props.follow
  }

  lemma AgreesShows(r: Receivers, props: Props, isHttp: Url -> bool)
    requires Agrees(r, ToArray(props.rrd), props.follow, isHttp)
    ensures Shows(r, props, isHttp)
  {
    forall x: Url
      ensures x in ToArray(props.rrd) <==> Wanted(props.rrd, x)
    {
      ToArrayIsWanted(props.rrd, x);
    }
    hide ToArray, Wanted;
  }

  /** Whenever callbacks of a ready viewer are due, running the youngest without failures reconciles. */
  lemma CallbackReconciles(props: Props, acts: seq<Act>, isHttp: Url -> bool)
    requires DisciplinedLife(Created(props), acts, isHttp)
    requires var w := Life(Created(props), acts, isHttp);
             w.handles != [] && Current(w).viewer.state.Ready? && Current(w).due != []
    ensures var w := Life(Created(props), acts, isHttp);
            var x := Current(w);
            var y := CalledBack(x, x.due[|x.due| - 1], w.props, Failures(None, None, None, false), isHttp).viewer;
            y.state.Ready? && y.handle.Some? && Shows(y.handle.value, w.props, isHttp)
  {
    hide Life, DisciplinedLife, Agrees, Shows, Behind, Diff, Applied, Synced, CalledBack;
    LifeInv(props, acts, isHttp);
    var w := Life(Created(props), acts, isHttp);
    var x := Current(w);
    YoungestReconciles(x, w.props, isHttp);
    var y := CalledBack(x, x.due[|x.due| - 1], w.props, Failures(None, None, None, false), isHttp).viewer;
    AgreesShows(y.handle.value, w.props, isHttp);
  }

  lemma YoungestReconciles(x: Instance, props: Props, isHttp: Url -> bool)
    requires InstanceInv(x) && x.viewer.state.Ready? && x.due != [] && Tracks(x, props, isHttp)
    ensures var y := CalledBack(x, x.due[|x.due| - 1], props, Failures(None, None, None, false), isHttp).viewer;
            y.state.Ready? && y.handle.Some? && Agrees(y.handle.value, ToArray(props.rrd), props.follow, isHttp)
  {
    hide Synced, Behind, Agrees, Applied, Diff;
    var args, urls, r := x.due[|x.due| - 1], ToArray(props.rrd), x.viewer.handle.value;
    var c, f := Diff(Initial(args), urls, args.follow, props.follow, isHttp), Failures(None, None, None, false);
    SyncedOrStopped(x.viewer, c, props.follow, f);
    NoFailureStaysReady(x.viewer, c, props.follow, f);
    if Agrees(r, urls, props.follow, isHttp) {
      LateCallbackKeepsAgreement(r, Initial(args), args.follow, urls, props.follow, isHttp);
    } else {
      CatchUpAgrees(r, Initial(args), args.follow, urls, props.follow, isHttp);
    }
  }

  lemma NoFailureStaysReady(v: Viewer, c: Changes, follow: Option<bool>, f: Failures)
    requires Inv(v) && v.state.Ready? && f.close.None? && f.added.None? && f.reopened.None?
    ensures Synced(v, c, follow, f).state.Ready?
  {
    hide AddAll, RemoveAll;
  }

  /** The viewers that are stopped: all that were replaced, and the wrapper's own while it is not mounted. They hold no
      handle, so at most one viewer of the wrapper ever does. */
  lemma OneHandleAtATime(props: Props, acts: seq<Act>, isHttp: Url -> bool, k: nat)
    requires DisciplinedLife(Created(props), acts, isHttp)
    requires var w := Life(Created(props), acts, isHttp);
             k < |w.handles| && (k < |w.handles| - 1 || !w.mounting.Mounted?)
    ensures Dead(Life(Created(props), acts, isHttp).handles[k])
    ensures Life(Created(props), acts, isHttp).handles[k].viewer.handle.None?
  {
    hide Agrees, Behind, Life, DisciplinedLife;
    LifeInv(props, acts, isHttp);
  }

  /** A viewer whose `stop` throws during an update is not replaced, and is stopped all the same. */
  lemma UnreplacedIsStopped(w: World, next: Props, f: Failures, isHttp: Url -> bool)
    requires w.handles != [] && KeysChanged(w.props.options, next.options, STARTUP_KEYS)
    requires f.destroyThrows && Current(w).viewer.handle.Some? && !Current(w).viewer.state.Stopped?
    ensures var v := Update(w, next, f, isHttp);
            |v.handles| == |w.handles| && Dead(Current(v)) && Current(v).viewer.handle.None?
  {
    hide KeysChanged;
  }

  /** Whatever continuations and callbacks of a stopped viewer do, in whichever order, whether it was replaced,
      unmounted, or stopped without being replaced: it stays stopped without making or holding a handle, no other
      viewer is touched, and the wrapper goes on unchanged. */
  lemma StaleIsHarmless(props: Props, acts: seq<Act>, a: Act, k: nat, isHttp: Url -> bool)
    requires DisciplinedLife(Created(props), acts, isHttp)
    requires var w := Life(Created(props), acts, isHttp);
             Possible(w, a) && k < |w.handles| && Dead(w.handles[k])
    requires (a.Callback? && a.k == k) || (a.Resume? && a.k == k)
    ensures var w := Life(Created(props), acts, isHttp);
            var v := Apply(w, a, isHttp);
            && v.props == w.props && v.mounting == w.mounting && |v.handles| == |w.handles|
            && (forall j | 0 <= j < |w.handles| && j != k :: v.handles[j] == w.handles[j])
            && Inert(w.handles[k].viewer, v.handles[k].viewer)
            && w.handles[k].viewer.handle.None?
  {
    hide Agrees, Behind, Diff, Synced, Resumed, CalledBack, Life, DisciplinedLife;
    LifeInv(props, acts, isHttp);
    var w := Life(Created(props), acts, isHttp);
    match a
    case Resume(_, e) => ResumedInv(w.handles[k], e);
    case Callback(_, j, f) => CalledBackInv(w.handles[k], j, w.props, f, isHttp);
  }

  /** A callback becomes due exactly when the promise of its start resolves: a load or handle start that failed, a
      constructor, opening call or clean-up that threw leaves it out for good. */
  lemma OnlyResolvedIsDue(x: Instance, e: Event)
    requires IsContinuation(e) && Enabled(x.viewer, e)
    ensures e.AfterLoad? ==>
              Resumed(x, e).due == x.due +
                if !e.load.LoadFailed? && !x.viewer.state.Starting? then [x.viewer.pending[e.i].args] else []
    ensures e.AfterHandleStart? ==>
              var args := x.viewer.pending[e.i].args;
              var opens := args.rrd.Some? ==>
                             x.viewer.handle.Some? && (e.failAt.None? || e.failAt.value >= |args.rrd.value|);
              var cleans := !(e.panicked && x.viewer.handle.Some? && e.destroyThrows);
              Resumed(x, e).due == x.due +
                if e.started && (x.viewer.state.Starting? ==> opens && cleans) then [args] else []
    ensures e.AfterDelay? || e.Panic? ==> Resumed(x, e).due == x.due
  {
    hide Step;
  }

  // ---- starting and restarting ----

  /** The start is given exactly the recordings that the props name, and their follow flag. */
  ghost predicate GivenProps(args: StartArgs, props: Props) {
    args.rrd.Some? && (forall x :: x in args.rrd.value <==> Wanted(props.rrd, x)) && args.follow == props.follow
  }

  lemma ArgsAreGiven(props: Props)
    ensures GivenProps(Args(props), props)
  {
    forall x: Url
      ensures x in ToArray(props.rrd) <==> Wanted(props.rrd, x)
    {
      ToArrayIsWanted(props.rrd, x);
    }
  }

  /** One of the options that only take effect at startup has changed. */
  predicate StartupChanged(prev: map<string, string>, next: map<string, string>) {
    || Prop(prev, "hide_welcome_screen") != Prop(next, "hide_welcome_screen")
    || Prop(prev, "manifest_url") != Prop(next, "manifest_url")
    || Prop(prev, "render_backend") != Prop(next, "render_backend")
  }

  lemma KeysChangedMeans(prev: map<string, string>, next: map<string, string>)
    ensures KeysChanged(prev, next, STARTUP_KEYS) <==> StartupChanged(prev, next)
  {
    var a, b, c := "hide_welcome_screen", "manifest_url", "render_backend";
    assert STARTUP_KEYS[1..] == [b, c] && [b, c][1..] == [c] && [c][1..] == [];
  }

  /** An update that changes a startup option replaces the viewer: the old one is stopped without a handle, and a new
      one has begun to start on the recordings of the new props. Any other update keeps the viewer. */
  lemma RestartLaunches(w: World, next: Props, f: Failures, isHttp: Url -> bool)
    requires w.handles != [] && InstanceInv(Current(w))
    ensures var v, n := Apply(w, DidUpdate(next, f), isHttp), |w.handles|;
            w.mounting.Mounted? ==>
              && v.props == next && v.mounting.Mounted?
              && (StartupChanged(w.props.options, next.options) &&
                  !(f.destroyThrows && Current(w).viewer.handle.Some?) ==>
                    && |v.handles| == n + 1 && v.handles[..n - 1] == w.handles[..n - 1]
                    && Dead(v.handles[n - 1]) && v.handles[n - 1].viewer.handle.None?
                    && Launching(v.handles[n], next))
              && (!StartupChanged(w.props.options, next.options) ==>
                    |v.handles| == n && v.handles[..n - 1] == w.handles[..n - 1])
  {
    hide KeysChanged, StartupChanged, Synced, Diff, GivenProps;
    KeysChangedMeans(w.props.options, next.options);
    ArgsAreGiven(next);
    if w.mounting.Mounted? {
      var v, n := Update(w, next, f, isHttp), |w.handles|;
      assert Apply(w, DidUpdate(next, f), isHttp) == v;
    }
  }

  /** A viewer whose one start is under way with what the props say. */
  ghost predicate Launching(x: Instance, props: Props) {
    && x.viewer.state.Starting? && x.viewer.canvas && x.due == []
    && |x.viewer.pending| == 1 && x.viewer.pending[0].AtDelay? && GivenProps(x.viewer.pending[0].args, props)
  }

  /** Mounting, then an update that comes too early, then the segments of a start that nothing goes wrong with, and its
      callback. */
  function LeftAlone(next: Props, f: Failures, destroyThrows: bool): seq<Act> {
    [DidMount, DidUpdate(next, f), Resume(0, AfterDelay(0)), Resume(0, AfterLoad(0, Loaded, destroyThrows)),
     Resume(0, AfterHandleStart(0, true, None, false, destroyThrows)),
     Callback(0, 0, Failures(None, None, None, false))]
  }

  /** A mounted viewer that is left alone becomes ready and, once its callback has run, shows the latest props, even if
      they changed while it was starting. */
  lemma MountedViewerShows(props: Props, next: Props, f: Failures, destroyThrows: bool, isHttp: Url -> bool)
    requires !StartupChanged(props.options, next.options)
    ensures var acts := LeftAlone(next, f, destroyThrows);
            var w := Life(Created(props), acts, isHttp);
            && DisciplinedLife(Created(props), acts, isHttp)
            && w.props == next && w.handles != [] && Current(w).viewer.state.Ready? && Current(w).due == []
            && Current(w).viewer.handle.Some? && Shows(Current(w).viewer.handle.value, next, isHttp)
  {
    hide Life, DisciplinedLife, Synced, Diff, Shows, StartupChanged, KeysChanged, AddAll, Apply, DisciplinedAct;
    KeysChangedMeans(props.options, next.options);
    var w0 := Created(props);
    var acts := LeftAlone(next, f, destroyThrows);
    NoActs(w0, isHttp);
    var w5 := OpeningSteps(w0, next, f, destroyThrows, isHttp);
    LifeThen(w0, acts[..5], acts[5], isHttp);
    assert acts == acts[..5] + [acts[5]];
    LastStep(w5, next, isHttp);
    Reconciled(props, acts, isHttp);
  }

  lemma NoActs(w: World, isHttp: Url -> bool)
    ensures Life(w, [], isHttp) == w && DisciplinedLife(w, [], isHttp)
  {
  }

  /** The state just before the callback: one ready viewer whose callback is due. */
  ghost predicate ReadyAndDue(w: World, next: Props) {
    && w.props == next && w.mounting.Mounted? && |w.handles| == 1
    && w.handles[0].viewer.state.Ready? && |w.handles[0].due| == 1 && Inv(w.handles[0].viewer)
  }

  lemma OpeningSteps(w0: World, next: Props, f: Failures, destroyThrows: bool, isHttp: Url -> bool) returns (w5: World)
    requires w0 == Created(w0.props) && !KeysChanged(w0.props.options, next.options, STARTUP_KEYS)
    ensures var acts := LeftAlone(next, f, destroyThrows);
            && w5 == Life(w0, acts[..5], isHttp) && DisciplinedLife(w0, acts[..5], isHttp)
            && ReadyAndDue(w5, next)
  {
    hide Life, DisciplinedLife, Synced, Diff, KeysChanged, AddAll;
    var acts := LeftAlone(next, f, destroyThrows);
    NoActs(w0, isHttp);
    assert acts[..0] == [];
    var w1 := MountStep(w0, isHttp);
    LifeThen(w0, acts[..0], acts[0], isHttp);
    assert acts[..1] == acts[..0] + [acts[0]];
    var w2 := w1.(props := next);
    assert Apply(w1, acts[1], isHttp) == w2;
    LifeThen(w0, acts[..1], acts[1], isHttp);
    assert acts[..2] == acts[..1] + [acts[1]];
    StartResumes(w2, destroyThrows, isHttp);
    LifeThen(w0, acts[..2], acts[2], isHttp);
    assert acts[..3] == acts[..2] + [acts[2]];
    var w3 := Apply(w2, acts[2], isHttp);
    LifeThen(w0, acts[..3], acts[3], isHttp);
    assert acts[..4] == acts[..3] + [acts[3]];
    var w4 := Apply(w3, acts[3], isHttp);
    LifeThen(w0, acts[..4], acts[4], isHttp);
    assert acts[..5] == acts[..4] + [acts[4]];
    w5 := Apply(w4, acts[4], isHttp);
  }

  /** One viewer, suspended at its first await. */
  ghost predicate JustStarted(w: World) {
    && w.mounting.Mounted? && |w.handles| == 1 && Inv(w.handles[0].viewer) && w.handles[0].due == []
    && w.handles[0].viewer.state.Starting? && |w.handles[0].viewer.pending| == 1
    && w.handles[0].viewer.pending[0].AtDelay? && w.handles[0].viewer.pending[0].args.rrd.Some?
  }

  lemma StartResumes(w: World, destroyThrows: bool, isHttp: Url -> bool)
    requires JustStarted(w)
    ensures var a, b := Resume(0, AfterDelay(0)), Resume(0, AfterLoad(0, Loaded, destroyThrows));
            var c := Resume(0, AfterHandleStart(0, true, None, false, destroyThrows));
            var w3 := Apply(w, a, isHttp);
            var w4 := Apply(w3, b, isHttp);
            var w5 := Apply(w4, c, isHttp);
            DisciplinedAct(w, a) && DisciplinedAct(w3, b) && DisciplinedAct(w4, c) && ReadyAndDue(w5, w.props)
  {
    hide AddAll;
    var x, args := w.handles[0], w.handles[0].viewer.pending[0].args;
    var x3 := Resumed(x, AfterDelay(0));
    assert x3.viewer.pending == [AtLoad(args)] && x3.viewer.state.Starting? && x3.due == [];
    var x4 := Resumed(x3, AfterLoad(0, Loaded, destroyThrows));
    assert x4.viewer.pending == [AtHandleStart(args)] && x4.viewer.state.Starting? && x4.viewer.handle == Some(map[]);
    assert x4.due == [];
    var x5 := Resumed(x4, AfterHandleStart(0, true, None, false, destroyThrows));
    assert x5.viewer.state.Ready? && x5.due == [args] && x5.viewer.pending == [];
    StepKeepsInv(x.viewer, AfterDelay(0));
    StepKeepsInv(x3.viewer, AfterLoad(0, Loaded, destroyThrows));
    StepKeepsInv(x4.viewer, AfterHandleStart(0, true, None, false, destroyThrows));
    hide Resumed, Inv;
    var w3 := Apply(w, Resume(0, AfterDelay(0)), isHttp);
    assert w3 == w.(handles := [x3]);
    var w4 := Apply(w3, Resume(0, AfterLoad(0, Loaded, destroyThrows)), isHttp);
    assert w4 == w.(handles := [x4]);
    assert Apply(w4, Resume(0, AfterHandleStart(0, true, None, false, destroyThrows)), isHttp) == w.(handles := [x5]);
  }

  lemma LastStep(w: World, next: Props, isHttp: Url -> bool)
    requires ReadyAndDue(w, next)
    ensures var a := Callback(0, 0, Failures(None, None, None, false));
            var v := Apply(w, a, isHttp);
            && DisciplinedAct(w, a) && v.props == next && |v.handles| == 1
            && v.handles[0].viewer.state.Ready? && v.handles[0].due == []
  {
    hide Synced, Diff, Inv;
    var x := w.handles[0];
    var args, f := x.due[0], Failures(None, None, None, false);
    NoFailureStaysReady(x.viewer, Diff(Initial(args), ToArray(next.rrd), args.follow, next.follow, isHttp),
        next.follow, f);
    assert WithoutDue(x, 0).due == [];
  }

  lemma MountStep(w: World, isHttp: Url -> bool) returns (v: World)
    requires w == Created(w.props)
    ensures v == Apply(w, DidMount, isHttp) && DisciplinedAct(w, DidMount) && JustStarted(v) && v.props == w.props
  {
    v := Apply(w, DidMount, isHttp);
  }

  ghost predicate AllSafe(w: World) {
    forall k | 0 <= k < |w.handles| :: Safe(w.handles[k].viewer)
  }

  /** Whatever happens after `w`, every viewer stays safe. */
  ghost predicate SafeFrom(w: World, isHttp: Url -> bool) {
    forall acts | DisciplinedLife(w, acts, isHttp) :: AllSafe(Life(w, acts, isHttp))
  }

  /** The continuations `es` of viewer `k`, one after the other. */
  function Resumes(k: nat, es: seq<Event>): seq<Act> {
    if es == [] then [] else Resumes(k, es[..|es| - 1]) + [Resume(k, es[|es| - 1])]
  }

  lemma LifeThen(w: World, acts: seq<Act>, a: Act, isHttp: Url -> bool)
    ensures Life(w, acts + [a], isHttp) == Apply(Life(w, acts, isHttp), a, isHttp)
    ensures DisciplinedLife(w, acts + [a], isHttp) <==>
            DisciplinedLife(w, acts, isHttp) && DisciplinedAct(Life(w, acts, isHttp), a)
  {
    assert (acts + [a])[..|acts|] == acts;
  }

  lemma ResumeOne(w: World, k: nat, e: Event, isHttp: Url -> bool)
    requires k < |w.handles| && IsContinuation(e) && Enabled(w.handles[k].viewer, e)
    ensures var v := Apply(w, Resume(k, e), isHttp);
            && DisciplinedAct(w, Resume(k, e)) && |v.handles| == |w.handles|
            && v.handles[k].viewer == Step(w.handles[k].viewer, e)
  {
    hide Step, Enabled, Settled;
  }

  /** Continuations of one viewer, taken in the wrapper, act on the viewer as they do on their own. */
  lemma {:induction false} ResumesRun(w: World, k: nat, es: seq<Event>, isHttp: Url -> bool)
    requires k < |w.handles| && DisciplinedRun(w.handles[k].viewer, es) && forall e | e in es :: IsContinuation(e)
    ensures var v := Life(w, Resumes(k, es), isHttp);
            && DisciplinedLife(w, Resumes(k, es), isHttp) && |v.handles| == |w.handles|
            && v.handles[k].viewer == Run(w.handles[k].viewer, es)
  {
    hide Step, Enabled, Apply, DisciplinedAct, IsContinuation;
    if es != [] {
      var r, e := es[..|es| - 1], es[|es| - 1];
      assert e in es;
      ResumesRun(w, k, r, isHttp);
      LifeThen(w, Resumes(k, r), Resume(k, e), isHttp);
      ResumeOne(Life(w, Resumes(k, r), isHttp), k, e, isHttp);
    }
  }

  lemma OverlapContinues(first: Suspension)
    ensures forall e | e in Overlap(first) :: IsContinuation(e)
  {
  }

  /** The exact condition for mounting a component again: it is safe if and only if no start of its viewer is still
      suspended. */
  lemma RemountIsSafeIffNothingPends(props: Props, acts: seq<Act>, isHttp: Url -> bool)
    requires DisciplinedLife(Created(props), acts, isHttp)
    requires !Life(Created(props), acts, isHttp).mounting.Mounted?
    ensures var w := Life(Created(props), acts, isHttp);
            w.handles != [] && (Current(w).viewer.pending == [] <==> SafeFrom(Apply(w, DidMount, isHttp), isHttp))
  {
    hide Life, DisciplinedLife, Agrees, Behind;
    LifeInv(props, acts, isHttp);
    var w := Life(Created(props), acts, isHttp);
    if Current(w).viewer.pending == [] {
      ApplyInv(w, DidMount, isHttp);
      InvIsSafe(Apply(w, DidMount, isHttp), isHttp);
    } else {
      RemountOverlaps(w, isHttp);
    }
  }

  lemma InvIsSafe(w: World, isHttp: Url -> bool)
    requires WorldInv(w, isHttp)
    ensures SafeFrom(w, isHttp)
  {
    hide Life, DisciplinedLife, Agrees, Behind;
    forall acts | DisciplinedLife(w, acts, isHttp)
      ensures AllSafe(Life(w, acts, isHttp))
    {
      LifeKeepsInv(w, acts, isHttp);
    }
  }

  lemma RemountOverlaps(w: World, isHttp: Url -> bool)
    requires w.handles != [] && !w.mounting.Mounted?
    requires Inv(Current(w).viewer) && Dead(Current(w)) && Current(w).viewer.pending != []
    ensures !SafeFrom(Apply(w, DidMount, isHttp), isHttp)
  {
    hide DisciplinedLife, Life, Run, DisciplinedRun, Overlap, Safe, Step, Inv;
    var v, k, first := Apply(w, DidMount, isHttp), |w.handles| - 1, Current(w).viewer.pending[0];
    OverlapIsUnsafe(Current(w).viewer, Args(w.props));
    OverlapContinues(first);
    ResumesRun(v, k, Overlap(first), isHttp);
    assert !AllSafe(Life(v, Resumes(k, Overlap(first)), isHttp));
  }

  /** Strict mode mounts, unmounts and mounts a component again at once: the second mount is never safe. */
  lemma StrictModeIsUnsafe(props: Props, destroyThrows: bool, isHttp: Url -> bool)
    ensures var acts := [DidMount, WillUnmount(destroyThrows)];
            DisciplinedLife(Created(props), acts, isHttp)
            && !SafeFrom(Apply(Life(Created(props), acts, isHttp), DidMount, isHttp), isHttp)
  {
    var w := Created(props);
    LifeThen(w, [], DidMount, isHttp);
    assert [] + [DidMount] == [DidMount];
    LifeThen(w, [DidMount], WillUnmount(destroyThrows), isHttp);
    assert [DidMount] + [WillUnmount(destroyThrows)] == [DidMount, WillUnmount(destroyThrows)];
    RemountIsSafeIffNothingPends(props, [DidMount, WillUnmount(destroyThrows)], isHttp);
  }
}

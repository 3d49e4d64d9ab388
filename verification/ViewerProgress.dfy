/** What the calls of the viewer come to: which starts succeed, what a failure leaves behind, and what stays
    possible. */
module ViewerProgress {
  import opened Basics
  import opened ViewerLifecycle

  // ---- a start under way is waiting for something ----

  predicate ConstructorWorks(e: Event) {
    e.AfterLoad? ==> !e.load.ConstructorThrew?
  }

  lemma StillUnderWay(v: Viewer, e: Event)
    requires Inv(v) && Disciplined(v, e) && ConstructorWorks(e)
    requires v.state.Starting? ==> |v.pending| == 1
    ensures Step(v, e).state.Starting? ==> |Step(v, e).pending| == 1
  {
    hide AddAll, RemoveAll;
  }

  /** In every life in which no constructor of a handle threw: while the viewer is starting, exactly one start is
      suspended, so it never gets stuck. */
  lemma {:induction false} StartingIsUnderWay(es: seq<Event>)
    requires DisciplinedRun(FRESH, es) && forall e | e in es :: ConstructorWorks(e)
    ensures Run(FRESH, es).state.Starting? ==> |Run(FRESH, es).pending| == 1
  {
    hide Step, Disciplined, Inv, ConstructorWorks;
    if es != [] {
      var r, e := es[..|es| - 1], es[|es| - 1];
      StartingIsUnderWay(r);
      FreshInv();
      RunKeepsInv(FRESH, r);
      assert ConstructorWorks(e);
      StillUnderWay(Run(FRESH, r), e);
    }
  }

  // ---- starts that fail ----

  /** A viewer on which the next start is accepted and begins. */
  ghost predicate Restartable(es: seq<Event>) {
    && Run(FRESH, es).state.Stopped? && Run(FRESH, es).handle.None? && Run(FRESH, es).pending == []
    && forall args :: Begins(es, args)
  }

  ghost predicate Begins(es: seq<Event>, args: StartArgs) {
    var v := Run(FRESH, es + [Start(args)]);
    && DisciplinedRun(FRESH, es + [Start(args)])
    && v.state.Starting? && v.pending == [AtDelay(args)] && v.canvas && v.loader
  }

  lemma StoppedIsRestartable(es: seq<Event>)
    requires DisciplinedRun(FRESH, es) && Run(FRESH, es).state.Stopped? && Run(FRESH, es).pending == []
    ensures Restartable(es)
  {
    hide Run, DisciplinedRun;
    FreshInv();
    RunKeepsInv(FRESH, es);
    forall args
      ensures Begins(es, args)
    {
      RunThen(FRESH, es, Start(args));
    }
  }

  /** A start whose promise is rejected by a failed load leaves a stopped viewer without a handle; the next start is
      accepted. */
  lemma FailedLoadStops(es: seq<Event>, i: nat, destroyThrows: bool)
    requires DisciplinedRun(FRESH, es + [AfterLoad(i, LoadFailed, destroyThrows)])
    ensures Restartable(es + [AfterLoad(i, LoadFailed, destroyThrows)])
  {
    hide Run, DisciplinedRun;
    var e := AfterLoad(i, LoadFailed, destroyThrows);
    RunThen(FRESH, es, e);
    FreshInv();
    RunKeepsInv(FRESH, es);
    FailureStops(Run(FRESH, es), e);
    StoppedIsRestartable(es + [e]);
  }

  /** The same for a handle that does not start. */
  lemma FailedHandleStartStops(es: seq<Event>, i: nat, failAt: Option<nat>, panicked: bool, destroyThrows: bool)
    requires DisciplinedRun(FRESH, es + [AfterHandleStart(i, false, failAt, panicked, destroyThrows)])
    ensures Restartable(es + [AfterHandleStart(i, false, failAt, panicked, destroyThrows)])
  {
    hide Run, DisciplinedRun;
    var e := AfterHandleStart(i, false, failAt, panicked, destroyThrows);
    RunThen(FRESH, es, e);
    FreshInv();
    RunKeepsInv(FRESH, es);
    FailureStops(Run(FRESH, es), e);
    StoppedIsRestartable(es + [e]);
  }

  lemma FailureStops(v: Viewer, e: Event)
    requires Inv(v) && Enabled(v, e)
    requires (e.AfterLoad? && e.load.LoadFailed?) || (e.AfterHandleStart? && !e.started)
    ensures Step(v, e).state.Stopped? && Step(v, e).pending == []
  {
    hide AddAll, RemoveAll;
  }

  /** A constructor that throws leaves the viewer starting with nothing suspended: from then on every start returns at
      once, and only a stop helps. */
  lemma ThrowingConstructorSticks(es: seq<Event>, i: nat, destroyThrows: bool, args: StartArgs)
    requires DisciplinedRun(FRESH, es + [AfterLoad(i, ConstructorThrew, destroyThrows)])
    requires Run(FRESH, es).state.Starting?
    ensures var fs := es + [AfterLoad(i, ConstructorThrew, destroyThrows)];
            var v := Run(FRESH, fs);
            && v.state.Starting? && v.handle.None? && v.pending == []
            && Run(FRESH, fs + [Start(args)]) == v
            && Run(FRESH, fs + [Stop(destroyThrows)]).state.Stopped?
  {
    hide Run, DisciplinedRun;
    var e := AfterLoad(i, ConstructorThrew, destroyThrows);
    RunThen(FRESH, es, e);
    RunThen(FRESH, es + [e], Start(args));
    RunThen(FRESH, es + [e], Stop(destroyThrows));
    FreshInv();
    RunKeepsInv(FRESH, es);
  }

  // ---- starts that succeed ----

  /** The segments of a start that nothing goes wrong with. */
  function Undisturbed(args: StartArgs, destroyThrows: bool): seq<Event> {
    [Start(args), AfterDelay(0), AfterLoad(0, Loaded, destroyThrows),
     AfterHandleStart(0, true, None, false, destroyThrows)]
  }

  lemma {:induction false} RunJoin(v: Viewer, first: seq<Event>, second: seq<Event>)
    ensures Run(v, first + second) == Run(Run(v, first), second)
    ensures DisciplinedRun(v, first + second) <==> DisciplinedRun(v, first) && DisciplinedRun(Run(v, first), second)
  {
    hide Step, Disciplined;
    if second == [] {
      assert first + second == first;
    } else {
      var r, e := second[..|second| - 1], second[|second| - 1];
      RunJoin(v, first, r);
      assert second == r + [e] && first + second == (first + r) + [e];
      RunThen(v, first + r, e);
      RunThen(Run(v, first), r, e);
    }
  }

  /** From any stopped viewer, at any point of any life: a start that is left alone and whose foreign calls succeed
      makes the viewer ready, with a new handle that has exactly the given recordings open. */
  lemma UndisturbedStartSucceeds(es: seq<Event>, args: StartArgs, destroyThrows: bool)
    requires DisciplinedRun(FRESH, es) && Run(FRESH, es).state.Stopped? && Run(FRESH, es).pending == []
    ensures var fs := es + Undisturbed(args, destroyThrows);
            var v := Run(FRESH, fs);
            && DisciplinedRun(FRESH, fs)
            && v.state.Ready? && v.canvas && !v.loader && v.pending == [] && v.created == Run(FRESH, es).created + 1
            && v.handle.Some?
            && (forall x :: x in v.handle.value <==> args.rrd.Some? && x in args.rrd.value)
            && (forall x | x in v.handle.value :: v.handle.value[x] == args.follow)
  {
    var v := Run(FRESH, es);
    RunJoin(FRESH, es, Undisturbed(args, destroyThrows));
    FreshInv();
    RunKeepsInv(FRESH, es);
    StartSteps(v, args, destroyThrows);
    hide Run, DisciplinedRun;
    forall x: Url
      ensures args.rrd.Some? ==> (x in AddAll(map[], args.rrd.value, args.follow) <==> x in args.rrd.value)
      ensures args.rrd.Some? && x in args.rrd.value ==> AddAll(map[], args.rrd.value, args.follow)[x] == args.follow
    {
      if args.rrd.Some? { AddAllEntry(map[], args.rrd.value, args.follow, x); }
    }
  }

  lemma StartSteps(v: Viewer, args: StartArgs, destroyThrows: bool)
    requires Inv(v) && v.state.Stopped? && v.pending == []
    ensures var w := Run(v, Undisturbed(args, destroyThrows));
            && DisciplinedRun(v, Undisturbed(args, destroyThrows))
            && w.state.Ready? && w.canvas && !w.loader && w.pending == [] && w.created == v.created + 1
            && w.handle == Some(if args.rrd.Some? then AddAll(map[], args.rrd.value, args.follow) else map[])
  {
    hide Run, DisciplinedRun, AddAll;
    NoEvents(v);
    var a, b, c := Start(args), AfterDelay(0), AfterLoad(0, Loaded, destroyThrows);
    var d := AfterHandleStart(0, true, None, false, destroyThrows);
    RunThen(v, [], a);
    assert [] + [a] == [a];
    RunThen(v, [a], b);
    RunThen(v, [a] + [b], c);
    RunThen(v, [a] + [b] + [c], d);
    assert Undisturbed(args, destroyThrows) == [a] + [b] + [c] + [d];
    var v2 := Step(Step(v, a), b);
    assert v2.pending == [AtLoad(args)] && v2.state.Starting?;
    var v3 := Step(v2, c);
    assert v3.pending == [AtHandleStart(args)] && v3.state.Starting? && v3.handle == Some(map[]);
  }

  /** A start that finds at its end that the viewer has panicked, or that fails to open a recording, leaves a stopped
      viewer; the next start is accepted. */
  lemma SpoiledStartStops(es: seq<Event>, i: nat, failAt: Option<nat>, panicked: bool, destroyThrows: bool)
    requires DisciplinedRun(FRESH, es + [AfterHandleStart(i, true, failAt, panicked, destroyThrows)])
    requires i < |Run(FRESH, es).pending| && Run(FRESH, es).state.Starting?
    requires var rrd := Run(FRESH, es).pending[i].args.rrd;
             panicked || (rrd.Some? && failAt.Some? && failAt.value < |rrd.value|)
    ensures Restartable(es + [AfterHandleStart(i, true, failAt, panicked, destroyThrows)])
  {
    hide Run, DisciplinedRun;
    var e := AfterHandleStart(i, true, failAt, panicked, destroyThrows);
    RunThen(FRESH, es, e);
    FreshInv();
    RunKeepsInv(FRESH, es);
    SpoiltStops(Run(FRESH, es), e);
    StoppedIsRestartable(es + [e]);
  }

  lemma SpoiltStops(v: Viewer, e: Event)
    requires Inv(v) && v.state.Starting? && e.AfterHandleStart? && Enabled(v, e) && e.started
    requires e.panicked || (v.pending[e.i].args.rrd.Some? && Fails(v.pending[e.i].args.rrd.value, e.failAt))
    ensures Step(v, e).state.Stopped? && Step(v, e).pending == []
  {
    hide AddAll, RemoveAll;
  }

  // ---- stopping, panics, opening and closing ----

  /** Stopping gives everything up: no handle is held, and with a working `destroy` every handle is freed. */
  lemma StopGivesUp(es: seq<Event>, destroyThrows: bool)
    requires DisciplinedRun(FRESH, es)
    ensures var u, v := Run(FRESH, es), Run(FRESH, es + [Stop(destroyThrows)]);
            && v.state.Stopped? && v.handle.None? && !v.loader && v.created == u.created && v.pending == u.pending
            && (u.handle.Some? && !destroyThrows ==> !v.canvas && v.freed == u.freed + 1)
            && (u.handle.Some? && destroyThrows ==> v.canvas == u.canvas && v.leaked == u.leaked + 1)
            && (u.handle.None? && !u.state.Stopped? ==> !v.canvas)
            && (u.state.Stopped? ==> v == u)
  {
    hide Run, DisciplinedRun;
    RunThen(FRESH, es, Stop(destroyThrows));
    FreshInv();
    RunKeepsInv(FRESH, es);
  }

  /** A panic has the effect of a stop when there is a handle, and none otherwise. */
  lemma PanicStops(es: seq<Event>, destroyThrows: bool)
    requires DisciplinedRun(FRESH, es)
    ensures var u, v := Run(FRESH, es), Run(FRESH, es + [Panic(destroyThrows)]);
            (u.handle.Some? ==> v == Run(FRESH, es + [Stop(destroyThrows)]) && v.state.Stopped? && v.handle.None?)
            && (u.handle.None? ==> v == u)
  {
    hide Run, DisciplinedRun;
    RunThen(FRESH, es, Panic(destroyThrows));
    RunThen(FRESH, es, Stop(destroyThrows));
    FreshInv();
    RunKeepsInv(FRESH, es);
  }

  /** Opening adds the urls with their follow flag and touches no other recording; if a url fails, the viewer stops. */
  lemma OpenAdds(es: seq<Event>, urls: seq<Url>, follow: Option<bool>, failAt: Option<nat>, destroyThrows: bool, x: Url)
    requires DisciplinedRun(FRESH, es)
    ensures var u, v := Run(FRESH, es), Run(FRESH, es + [Open(urls, follow, failAt, destroyThrows)]);
            && (u.handle.None? ==> v == u)
            && (u.handle.Some? && failAt.Some? && failAt.value < |urls| ==>
                  v.state.Stopped? && v.handle.None? && v.created == u.created)
            && (u.handle.Some? && (failAt.None? || failAt.value >= |urls|) ==>
                  && v == u.(handle := v.handle) && v.handle.Some?
                  && (x in v.handle.value <==> x in u.handle.value || x in urls)
                  && (x in urls ==> v.handle.value[x] == follow)
                  && (x in u.handle.value && x !in urls ==> v.handle.value[x] == u.handle.value[x]))
  {
    hide Run, DisciplinedRun, AddAll;
    RunThen(FRESH, es, Open(urls, follow, failAt, destroyThrows));
    FreshInv();
    RunKeepsInv(FRESH, es);
    var u := Run(FRESH, es);
    if u.handle.Some? { AddAllEntry(u.handle.value, urls, follow, x); }
  }

  /** Closing removes the urls and touches no other recording; if a url fails, the viewer stops. */
  lemma CloseRemoves(es: seq<Event>, urls: seq<Url>, failAt: Option<nat>, destroyThrows: bool, x: Url)
    requires DisciplinedRun(FRESH, es)
    ensures var u, v := Run(FRESH, es), Run(FRESH, es + [Close(urls, failAt, destroyThrows)]);
            && (u.handle.None? ==> v == u)
            && (u.handle.Some? && failAt.Some? && failAt.value < |urls| ==>
                  v.state.Stopped? && v.handle.None? && v.created == u.created)
            && (u.handle.Some? && (failAt.None? || failAt.value >= |urls|) ==>
                  && v == u.(handle := v.handle) && v.handle.Some?
                  && (x in v.handle.value <==> x in u.handle.value && x !in urls)
                  && (x in v.handle.value ==> v.handle.value[x] == u.handle.value[x]))
  {
    hide Run, DisciplinedRun, RemoveAll;
    RunThen(FRESH, es, Close(urls, failAt, destroyThrows));
    FreshInv();
    RunKeepsInv(FRESH, es);
    var u := Run(FRESH, es);
    if u.handle.Some? { RemoveAllEntry(u.handle.value, urls, x); }
  }
}

/** The effect of `publish` on crates.io: over one run and over any series of runs, finished or aborted. */
module PublishRuns {
  import opened Basics
  import opened Graphs
  import opened Manifests
  import opened Sanitize
  import opened PublishFlags
  import opened Publishing
  import opened Walker
  import opened WalkInvariant
  import opened WalkSafety
  import opened WalkTheorems
  import opened WalkLiveness

  // ---- one run, from the registry before to the registry after ----

  /** Whatever a run did and wherever it stopped: a crate whose `publish_crate` returned is in the registry,
      and nothing else was added than crates whose `publish_crate` was called. A call that raised, or that was cut off,
      may or may not have uploaded its crate. */
  ghost predicate PublishRun(ws: Workspace, before: set<Name>, after: set<Name>, log: seq<Event>) {
    || (after == before && log == [])
    || exists g, w :: ToPublish(ws, before, g) && Accepted(g) && Walked(g, w, before, after, log)
  }

  ghost predicate Walked(g: Graph, w: Walk, before: set<Name>, after: set<Name>, log: seq<Event>) {
    && Arises(g, w) && log == w.log
    && before <= after
    && (forall n | Completed(n) in log :: n in after)
    && (forall n | n in after :: n in before || Started(n) in log)
  }

  /** The registry holds every workspace dependency of the workspace crates it holds. */
  ghost predicate Closed(ws: Workspace, registry: set<Name>)
    requires ws.Valid()
  {
    forall a, b | a in registry && Reaches(WorkspaceGraph(ws), a, b) :: b in registry
  }

  /** A path from an unpublished publishable crate to another unpublished crate stays among the crates to publish. */
  lemma {:induction false} PathIsWalked(ws: Workspace, registry: set<Name>, g: Graph, p: seq<Name>)
    requires ws.Valid() && PublishableClosed(ws) && Closed(ws, registry) && ToPublish(ws, registry, g)
    requires |p| >= 2 && Chain(WorkspaceGraph(ws), p)
    requires p[0] in g.order && p[|p| - 1] !in registry
    ensures Reaches(g, p[0], p[|p| - 1])
  {
    hide InducedGraph, NoDup, WorkspaceGraph;
    var all, a, b := WorkspaceGraph(ws), p[0], p[1];
    assert Linked(all, p, 0);
    EdgeReaches(all, a, b);
    if |p| > 2 {
      TailIsChain(all, p);
      assert WalkFromTo(all, p[1..], b, p[|p| - 1]);
      assert Reaches(all, b, p[|p| - 1]);
    }
    assert b !in registry && ws.Publishable(b);
    StepIsWalked(ws, registry, g, a, b);
    EdgeReaches(g, a, b);
    if |p| > 2 {
      PathIsWalked(ws, registry, g, p[1..]);
      ReachesTrans(g, a, b, p[|p| - 1]);
    }
  }

  lemma StepIsWalked(ws: Workspace, registry: set<Name>, g: Graph, a: Name, b: Name)
    requires ws.Valid() && ToPublish(ws, registry, g)
    requires Edge(WorkspaceGraph(ws), a, b) && a in g.order && b in g.order
    ensures Edge(g, a, b)
  {
    hide InducedGraph;
    InducedEdge(ws, ws.order, a, b);
    InducedEdge(ws, g.order, a, b);
  }

  /** Over one run: when `publish_crate(c)` is called, every workspace crate that `c` reaches is already published. */
  lemma RunRespectsDependencies(ws: Workspace, before: set<Name>, after: set<Name>, log: seq<Event>, i: nat, d: Name)
    requires ws.Valid() && PublishableClosed(ws) && Closed(ws, before) && PublishRun(ws, before, after, log)
    requires i < |log| && log[i].Started? && Reaches(WorkspaceGraph(ws), log[i].node, d)
    ensures d in before || Completed(d) in log[..i]
  {
    var g, w :| ToPublish(ws, before, g) && Accepted(g) && Walked(g, w, before, after, log);
    StartedIsPlanned(g, w, i);
    InOrder(ws, before, g, log[i].node);
    hide InducedGraph, NoDup, WorkspaceGraph, Arises, PublishableClosed, Closed;
    if d !in before {
      var p :| WalkFromTo(WorkspaceGraph(ws), p, log[i].node, d);
      PathIsWalked(ws, before, g, p);
      StartsFollowDependencies(g, w, i, d);
    }
  }

  lemma InOrder(ws: Workspace, registry: set<Name>, g: Graph, n: Name)
    requires ToPublish(ws, registry, g)
    ensures n in g.deps <==> n in g.order
  {
    assert n in g.deps <==> n in Elements(g.order);
  }

  /** Only nodes of the graph are ever started. */
  lemma StartedIsPlanned(g: Graph, w: Walk, i: nat)
    requires Accepted(g) && Arises(g, w) && i < |w.log| && w.log[i].Started?
    ensures w.log[i].node in g.deps
  {
    hide Accepted, Arises;
    CompleteGraph(g);
    AtMostOnce(g, w, w.log[i].node);
    LoggedMember(Called, w.log, w.log[i]);
  }

  lemma CompleteGraph(g: Graph)
    requires Accepted(g)
    ensures Complete(g)
  {
  }

  lemma RunContents(ws: Workspace, before: set<Name>, after: set<Name>, log: seq<Event>)
    requires PublishRun(ws, before, after, log)
    ensures before <= after
    ensures forall n | Completed(n) in log :: n in after
    ensures forall n | n in after :: n in before || Started(n) in log
  {
    hide ToPublish, Accepted, Arises;
  }

  /** One run, wherever it stopped, keeps the registry closed. */
  lemma RunKeepsClosed(ws: Workspace, before: set<Name>, after: set<Name>, log: seq<Event>)
    requires ws.Valid() && PublishableClosed(ws) && Closed(ws, before) && PublishRun(ws, before, after, log)
    ensures Closed(ws, after)
  {
    forall a, b | a in after && Reaches(WorkspaceGraph(ws), a, b)
      ensures b in after
    {
      hide Graphs.Reaches, PublishRun, PublishableClosed, WorkspaceGraph;
      RunContents(ws, before, after, log);
      if a !in before {
        var i :| 0 <= i < |log| && log[i] == Started(a);
        RunRespectsDependencies(ws, before, after, log, i, b);
      }
    }
  }

  /** One run adds only publishable crates, and calls `publish_crate` only on crates that were not published yet. */
  lemma RunStartsOnlyUnpublished(ws: Workspace, before: set<Name>, after: set<Name>, log: seq<Event>, n: Name)
    requires ws.Valid() && PublishRun(ws, before, after, log)
    ensures before <= after
    ensures Started(n) in log ==> ws.Publishable(n) && n !in before
    ensures n in after && n !in before ==> ws.Publishable(n)
  {
    if Started(n) in log {
      var g, w :| ToPublish(ws, before, g) && Accepted(g) && Walked(g, w, before, after, log);
      var i :| 0 <= i < |log| && log[i] == Started(n);
      StartedIsPlanned(g, w, i);
      InOrder(ws, before, g, n);
    }
  }

  /** A run whose walk returns has published everything publishable. */
  lemma FullRunPublishesAll(ws: Workspace, g: Graph, w: Walk, before: set<Name>, after: set<Name>, n: Name)
    requires ToPublish(ws, before, g) && Accepted(g) && Walked(g, w, before, after, w.log) && w.main.Returned?
    requires ws.Publishable(n)
    ensures n in after
  {
    hide InducedGraph, NoDup, Arises, Accepted, Complete, Logged;
    if n !in before {
      InOrder(ws, before, g, n);
      CompleteGraph(g);
      NormalReturn(g, w);
      assert multiset(g.deps.Keys)[n] == 1;
      LoggedMember(Back, w.log, Completed(n));
    }
  }

  // ---- a run that is left alone ----

  /** A graph to publish is accepted unless it has a cycle. */
  lemma UnblockedIsAccepted(ws: Workspace, registry: set<Name>, g: Graph)
    requires ToPublish(ws, registry, g) && g.order != [] && !BlockedByCycle(ws, registry)
    ensures Accepted(g)
  {
    hide Cyclic, BlockedByCycle, InducedGraph;
    SameToPublish(ws, registry, g);
    InducedComplete(ws, g.order);
    AcyclicHasRank(g);
  }

  /** Any walk allows a registry to be left behind: the one that gained every crate that was called. */
  lemma SomeRegistry(g: Graph, w: Walk, before: set<Name>)
    requires Accepted(g) && Arises(g, w)
    ensures Walked(g, w, before, before + CalledIn(w.log), w.log)
  {
    hide Accepted, Arises;
    CompleteGraph(g);
    forall n | Completed(n) in w.log
      ensures Started(n) in w.log
    {
      CompletedWasCalled(g, w, n);
    }
  }

  function CalledIn(log: seq<Event>): set<Name> {
    set e | e in log && e.Started? :: e.node
  }

  lemma CompletedWasCalled(g: Graph, w: Walk, n: Name)
    requires Complete(g) && Arises(g, w) && Completed(n) in w.log
    ensures Started(n) in w.log
  {
    hide Complete, Arises, Conserved, Counted, Recorded, Controlled;
    ArisesInv(g, w);
    var i :| 0 <= i < |w.log| && w.log[i] == Completed(n);
    assert Justified(g, w.log, i);
  }

  /** From a closed registry, with closed flags and no cycle, every fair run without a failing `publish_crate` ends. It
      leaves the registry closed with every publishable crate in it. */
  lemma FairRunPublishesAll(ws: Workspace, before: set<Name>, g: Graph, run: nat -> Walk, acts: nat -> Action)
    requires ws.Valid() && PublishableClosed(ws) && Closed(ws, before) && !BlockedByCycle(ws, before)
    requires ToPublish(ws, before, g) && g.order != []
    requires FairRun(g, run, acts) && forall i: nat :: NoFailure(run(i).log)
    ensures exists e: nat :: PublishedBy(ws, before, g, run(e))
  {
    hide FairRun, Over, NoFailure, BlockedByCycle, ToPublish, PublishedBy, Accepted;
    UnblockedIsAccepted(ws, before, g);
    EveryFairWalkEnds(g, run, acts);
    var e: nat :| Over(run(e).main) && (run(e).main.Returned? <==> NoFailure(run(e).log));
    FairRunArises(g, run, acts, e);
    ReturnedPublished(ws, before, g, run(e));
  }

  /** The walk has returned. Whatever registry it may have left is closed and holds every publishable crate. */
  ghost predicate PublishedBy(ws: Workspace, before: set<Name>, g: Graph, w: Walk)
    requires ws.Valid()
  {
    && w.main.Returned?
    && (exists after :: Walked(g, w, before, after, w.log))
    && forall after | Walked(g, w, before, after, w.log) ::
        Closed(ws, after) && forall n | ws.Publishable(n) :: n in after
  }

  lemma ReturnedPublished(ws: Workspace, before: set<Name>, g: Graph, w: Walk)
    requires ws.Valid() && PublishableClosed(ws) && Closed(ws, before)
    requires ToPublish(ws, before, g) && Accepted(g) && Arises(g, w) && w.main.Returned?
    ensures PublishedBy(ws, before, g, w)
  {
    hide ToPublish, Accepted, Arises, PublishableClosed, Closed, Workspace.Publishable, CalledIn;
    SomeRegistry(g, w, before);
    forall after | Walked(g, w, before, after, w.log)
      ensures Closed(ws, after)
      ensures forall n | ws.Publishable(n) :: n in after
    {
      RunKeepsClosed(ws, before, after, w.log);
      forall n | ws.Publishable(n)
        ensures n in after
      {
        FullRunPublishesAll(ws, g, w, before, after, n);
      }
    }
  }

  function FirstActs(acts: nat -> Action, i: nat): seq<Action> {
    if i == 0 then [] else FirstActs(acts, i - 1) + [acts(i - 1)]
  }

  /** Every state of a fair run is one that a finite run reaches. */
  lemma {:induction false} FairRunIsRun(g: Graph, run: nat -> Walk, acts: nat -> Action, i: nat)
    requires FairRun(g, run, acts)
    ensures run(i) == Run(run(0), FirstActs(acts, i))
  {
    hide FairRun, Apply, Enabled;
    if i > 0 {
      FairRunIsRun(g, run, acts, i - 1);
      TakeStep(g, run, acts, i - 1);
      assert FirstActs(acts, i)[..|FirstActs(acts, i)| - 1] == FirstActs(acts, i - 1);
    }
  }

  lemma FairRunArises(g: Graph, run: nat -> Walk, acts: nat -> Action, i: nat)
    requires FairRun(g, run, acts)
    ensures Arises(g, run(i))
  {
    hide Run, FirstActs, Fair, StepAt;
    FairRunIsRun(g, run, acts, i);
    var numWorkers: nat, l, now :| run(0) == Begin(g, numWorkers, l, now);
    assert run(i) == After(g, numWorkers, l, now, FirstActs(acts, i));
  }

  // ---- any series of runs ----

  /** One run of the series: the workspace it saw, the registry it left, and its log. */
  datatype Trace = Trace(ws: Workspace, after: set<Name>, log: seq<Event>)

  function WorkspaceAfter(ws: Workspace, runs: seq<Trace>): Workspace {
    if runs == [] then ws else runs[|runs| - 1].ws
  }

  function RegistryAfter(initial: set<Name>, runs: seq<Trace>): set<Name> {
    if runs == [] then initial else runs[|runs| - 1].after
  }

  /** From `ws` to `next` manifests may have been edited, crates added and removed; but no crate that is published
      already lists a workspace crate that it did not list before. Nothing at all may have been edited, too. */
  ghost predicate Edited(ws: Workspace, next: Workspace, registry: set<Name>) {
    forall a, b | a in registry && Lists(next, a, b) :: Lists(ws, a, b)
  }

  /** `ws` can be published from: it is well formed and passes the flag check. */
  ghost predicate Sound(ws: Workspace) {
    ws.Valid() && PublishableClosed(ws)
  }

  /** Each run starts from the registry that the run before it left, however that one ended, on a workspace that may
      have been edited in between. */
  ghost predicate History(ws: Workspace, initial: set<Name>, runs: seq<Trace>) {
    runs == [] ||
    var r, last := runs[..|runs| - 1], runs[|runs| - 1];
    && History(ws, initial, r)
    && Sound(last.ws) && Edited(WorkspaceAfter(ws, r), last.ws, RegistryAfter(initial, r))
    && PublishRun(last.ws, RegistryAfter(initial, r), last.after, last.log)
  }

  /** Edits between runs leave a closed registry closed. */
  lemma EditKeepsClosed(ws: Workspace, next: Workspace, registry: set<Name>)
    requires ws.Valid() && next.Valid() && Closed(ws, registry) && Edited(ws, next, registry)
    ensures Closed(next, registry)
  {
    hide WorkspaceGraph, Edited;
    forall a, b | a in registry && Reaches(WorkspaceGraph(next), a, b)
      ensures b in registry
    {
      var p :| WalkFromTo(WorkspaceGraph(next), p, a, b);
      EditedAlong(ws, next, registry, p);
    }
  }

  lemma {:induction false} EditedAlong(ws: Workspace, next: Workspace, registry: set<Name>, p: seq<Name>)
    requires ws.Valid() && next.Valid() && Closed(ws, registry) && Edited(ws, next, registry)
    requires |p| >= 2 && Chain(WorkspaceGraph(next), p) && p[0] in registry
    ensures p[|p| - 1] in registry
  {
    hide InducedGraph, Graphs.Reaches;
    var a, b := p[0], p[1];
    assert Linked(WorkspaceGraph(next), p, 0);
    InducedEdge(next, next.order, a, b);
    InducedEdge(ws, ws.order, a, b);
    EdgeReaches(WorkspaceGraph(ws), a, b);
    assert b in registry;
    if |p| > 2 {
      TailIsChain(WorkspaceGraph(next), p);
      EditedAlong(ws, next, registry, p[1..]);
    }
  }

  /** Some run of the series saw `n` as publishable. */
  predicate PublishableInSome(runs: seq<Trace>, n: Name) {
    exists k :: 0 <= k < |runs| && runs[k].ws.Publishable(n)
  }

  lemma PublishableInLonger(runs: seq<Trace>, n: Name)
    requires runs != []
    ensures PublishableInSome(runs[..|runs| - 1], n) ==> PublishableInSome(runs, n)
    ensures runs[|runs| - 1].ws.Publishable(n) ==> PublishableInSome(runs, n)
  {
    var r := runs[..|runs| - 1];
    if PublishableInSome(r, n) {
      var k :| 0 <= k < |r| && r[k].ws.Publishable(n);
      assert runs[k] == r[k];
    }
  }

  /** The registry stays closed over every series of runs, only grows, and gains only publishable crates. */
  lemma {:induction false} RegistryStaysClosed(ws: Workspace, initial: set<Name>, runs: seq<Trace>)
    requires ws.Valid() && Closed(ws, initial) && History(ws, initial, runs)
    ensures WorkspaceAfter(ws, runs).Valid()
    ensures Closed(WorkspaceAfter(ws, runs), RegistryAfter(initial, runs)) && initial <= RegistryAfter(initial, runs)
    ensures forall n | n in RegistryAfter(initial, runs) :: n in initial || PublishableInSome(runs, n)
  {
    hide Closed, PublishRun, PublishableClosed, Edited, PublishableInSome, Workspace.Valid, Workspace.Publishable;
    if runs != [] {
      var r, last := runs[..|runs| - 1], runs[|runs| - 1];
      var before := RegistryAfter(initial, r);
      RegistryStaysClosed(ws, initial, r);
      EditKeepsClosed(WorkspaceAfter(ws, r), last.ws, before);
      RunKeepsClosed(last.ws, before, last.after, last.log);
      forall n
        ensures before <= last.after
        ensures n in last.after ==> n in initial || PublishableInSome(runs, n)
      {
        RunStartsOnlyUnpublished(last.ws, before, last.after, last.log, n);
        PublishableInLonger(runs, n);
      }
    }
  }

  lemma {:induction false} HistoryPrefix(ws: Workspace, initial: set<Name>, runs: seq<Trace>, k: nat)
    requires History(ws, initial, runs) && k < |runs|
    ensures History(ws, initial, runs[..k])
    ensures var r := runs[..k];
            Sound(runs[k].ws) && Edited(WorkspaceAfter(ws, r), runs[k].ws, RegistryAfter(initial, r))
            && PublishRun(runs[k].ws, RegistryAfter(initial, r), runs[k].after, runs[k].log)
  {
    hide PublishRun, Sound, Edited;
    var r := runs[..|runs| - 1];
    if k < |r| {
      HistoryPrefix(ws, initial, r, k);
      assert r[..k] == runs[..k];
    }
  }

  /** In every run of every series: when `publish_crate(c)` is called, each workspace crate that `c` reaches was
      published by an earlier run, or by this run before the call, and `c` itself was not published by an earlier
      run. */
  lemma DependenciesPublishedFirst(ws: Workspace, initial: set<Name>, runs: seq<Trace>, k: nat, i: nat, d: Name)
    requires ws.Valid() && Closed(ws, initial) && History(ws, initial, runs)
    requires k < |runs| && i < |runs[k].log| && runs[k].log[i].Started?
    requires runs[k].ws.Valid() && Reaches(WorkspaceGraph(runs[k].ws), runs[k].log[i].node, d)
    ensures d in RegistryAfter(initial, runs[..k]) || Completed(d) in runs[k].log[..i]
    ensures runs[k].log[i].node !in RegistryAfter(initial, runs[..k])
  {
    hide Closed, PublishRun, PublishableClosed, Edited, Graphs.Reaches, History, Workspace.Valid;
    var run, before := runs[k], RegistryAfter(initial, runs[..k]);
    HistoryPrefix(ws, initial, runs, k);
    RegistryStaysClosed(ws, initial, runs[..k]);
    EditKeepsClosed(WorkspaceAfter(ws, runs[..k]), run.ws, before);
    RunRespectsDependencies(run.ws, before, run.after, run.log, i, d);
    RunStartsOnlyUnpublished(run.ws, before, run.after, run.log, run.log[i].node);
  }
}

/** `check_publish_flags`: no crate that is published may depend on one that is not. */
module PublishFlags {
  import opened Basics
  import opened Graphs
  import opened Manifests

  datatype FlagVerdict =
    | FlagMissing               // KeyError: a crate without `package.publish`
    | AllCorrect
    | Wrong(names: set<Name>)   // exit status 1

  /** The publishable crates are closed under dependencies of every kind, direct and transitive. */
  ghost predicate PublishableClosed(ws: Workspace)
    requires ws.Valid()
  {
    forall a, b | ws.Publishable(a) && Reaches(WorkspaceGraph(ws), a, b) :: ws.Publishable(b)
  }

  /** The unpublished crates among `deps`. */
  function Offenders(ws: Workspace, deps: seq<Name>): set<Name> {
    set d | d in deps && d in ws.crates && ws.Publish(d) == Some(false) :: d
  }

  /** The unpublished crates that crate `n` lists. */
  function Offending(ws: Workspace, n: Name): set<Name>
    requires n in ws.crates
  {
    Offenders(ws, DepNames(ws.crates[n]))
  }

  /** In terms of the manifests: the offenders of `n` are the unpublished workspace crates with an entry in its
      tables. */
  lemma OffendingMeans(ws: Workspace, n: Name, d: Name)
    requires ws.Valid() && n in ws.crates
    ensures d in Offending(ws, n) <==>
              d in ws.crates && ws.crates[d].publish == Some(false) && DependsOn(ws.crates[n], d)
  {
    hide DepNames, DependsOn, Manifest.Valid;
    DepNamesComplete(ws.crates[n], d);
  }

  ghost predicate AllFlagged(ws: Workspace) {
    forall n | n in ws.crates :: ws.crates[n].publish.Some?
  }

  class FlagChecker {
    const ws: Workspace
    var out: set<Name>

    constructor (ws: Workspace)
      ensures this.ws == ws && out == {}
    {
      this.ws := ws;
      out := {};
    }

    /** How deep `traverse` can still recurse: a name in `out` returns at once. */
    ghost function Depth(name: Name): nat
      reads this
    {
      |ws.crates.Keys - out| + if name in out then 0 else 1
    }

    /** `traverse`. False: a dependency has no `publish` flag. The recursive call never gets past its first test. */
    method Traverse(name: Name) returns (ok: bool)
      requires name in ws.crates
      modifies this
      decreases Depth(name), 2
      ensures ok ==> out == old(out) + if name in old(out) then {} else Offending(ws, name)
      ensures !ok ==> !AllFlagged(ws)
    {
      hide DepNames;
      if name in out { return true; }
      var deps := DepNames(ws.crates[name]);
      for k := 0 to |deps|
        invariant out == old(out) + Offenders(ws, deps[..k])
      {
        OffendersStep(ws, deps, k);
        Smaller(ws, name, old(out), out);
        ok := Check(deps[k]);
        if !ok { return; }
      }
      assert deps[..|deps|] == deps;
      return true;
    }

    /** The body of the loop, for one dependency. */
    method Check(dep: Name) returns (ok: bool)
      modifies this
      decreases |ws.crates.Keys - out| + 1, 1
      ensures ok ==> out == old(out) + Offenders(ws, [dep])
      ensures !ok ==> !AllFlagged(ws)
    {
      if dep !in ws.crates { return true; }
      var shouldPublish := ws.crates[dep].publish;
      if shouldPublish.None? { return false; }
      if !shouldPublish.value {
        Smaller(ws, dep, out, out + {dep});
        out := out + {dep};
        ok := Traverse(dep);
        if !ok { return; }
      }
      return true;
    }
  }

  lemma Smaller(ws: Workspace, name: Name, before: set<Name>, after: set<Name>)
    requires before <= after
    ensures |ws.crates.Keys - after| <= |ws.crates.Keys - before|
  {
    SubsetSize(ws.crates.Keys - after, ws.crates.Keys - before);
  }

  lemma OffendersStep(ws: Workspace, deps: seq<Name>, k: nat)
    requires k < |deps|
    ensures Offenders(ws, deps[..k + 1]) == Offenders(ws, deps[..k])
         + Offenders(ws, [deps[k]])
  {
    assert deps[..k + 1] == deps[..k] + [deps[k]];
  }

  /** What the first `k` crates of the workspace contribute to the verdict. */
  function OffendingUpTo(ws: Workspace, k: nat): set<Name>
    requires ws.Valid() && k <= |ws.order|
  {
    if k == 0 then {} else
      OffendingUpTo(ws, k - 1) + if ws.Publishable(ws.order[k - 1]) then Offending(ws, ws.order[k - 1]) else {}
  }

  lemma {:induction false} OffendingMember(ws: Workspace, k: nat, d: Name)
    requires ws.Valid() && k <= |ws.order|
    ensures d in OffendingUpTo(ws, k) <==> exists a :: a in ws.order[..k] && ws.Publishable(a) && d in Offending(ws, a)
  {
    hide Offending, Workspace.Publishable;
    if k > 0 {
      OffendingMember(ws, k - 1, d);
      OneMore(ws.order, k - 1);
    }
  }

  lemma OneMore(s: seq<Name>, k: nat)
    requires k < |s|
    ensures forall a :: a in s[..k + 1] <==> a in s[..k] || a == s[k]
  {
    assert s[..k + 1] == s[..k] + [s[k]];
  }

  /** Checking direct dependencies is enough for closure under transitive ones. */
  lemma {:induction false} ClosedAlong(ws: Workspace, w: seq<Name>)
    requires ws.Valid() && |w| >= 2 && Chain(WorkspaceGraph(ws), w) && ws.Publishable(w[0])
    requires forall a, b | ws.Publishable(a) && Edge(WorkspaceGraph(ws), a, b) :: ws.Publishable(b)
    ensures ws.Publishable(w[|w| - 1])
  {
    hide WorkspaceGraph;
    assert Linked(WorkspaceGraph(ws), w, 0);
    assert ws.Publishable(w[1]);
    if |w| > 2 {
      TailIsChain(WorkspaceGraph(ws), w);
      ClosedAlong(ws, w[1..]);
    }
  }

  lemma PublishedOrOffending(ws: Workspace, a: Name, b: Name)
    requires ws.Valid() && AllFlagged(ws) && Lists(ws, a, b)
    ensures ws.Publishable(b) <==> b !in Offending(ws, a)
  {
    hide DepNames, Workspace.Valid;
    assert ws.crates[b].publish.Some?;
    if !ws.crates[b].publish.value {
      assert ws.Publish(b) == Some(false);
      assert b in Offenders(ws, DepNames(ws.crates[a]));
    }
  }

  lemma DirectIsEnough(ws: Workspace)
    requires ws.Valid() && AllFlagged(ws)
    ensures OffendingUpTo(ws, |ws.order|) == {} <==> PublishableClosed(ws)
  {
    hide DepNames, InducedGraph;
    var g, bad := WorkspaceGraph(ws), OffendingUpTo(ws, |ws.order|);
    assert ws.order[..|ws.order|] == ws.order;
    if d :| d in bad {
      OffendingMember(ws, |ws.order|, d);
      var a :| a in ws.order && ws.Publishable(a) && d in Offending(ws, a);
      InducedEdge(ws, ws.order, a, d);
      EdgeReaches(g, a, d);
      assert !ws.Publishable(d);
    } else {
      forall a, b | ws.Publishable(a) && Edge(g, a, b)
        ensures ws.Publishable(b)
      {
        InducedEdge(ws, ws.order, a, b);
        OffendingMember(ws, |ws.order|, b);
        PublishedOrOffending(ws, a, b);
        assert b in Offending(ws, a) ==> b in bad;
      }
      forall a, b | ws.Publishable(a) && Reaches(g, a, b)
        ensures ws.Publishable(b)
      {
        var w :| WalkFromTo(g, w, a, b);
        ClosedAlong(ws, w);
      }
    }
  }

  /** `d` is an unpublished crate of the workspace, and a published one has an entry for it. */
  ghost predicate OffendsSome(ws: Workspace, d: Name) {
    && d in ws.crates && ws.crates[d].publish == Some(false)
    && exists a :: a in ws.crates && ws.crates[a].publish == Some(true) && DependsOn(ws.crates[a], d)
  }

  /** The verdict: an exception exactly when a flag is missing; otherwise the check passes exactly when the
      publishable crates are closed under reachability, and a failure names the unpublished direct dependencies of
      published crates. */
  method CheckPublishFlags(ws: Workspace) returns (v: FlagVerdict)
    requires ws.Valid()
    ensures v.FlagMissing? <==> !AllFlagged(ws)
    ensures v.AllCorrect? <==> AllFlagged(ws) && PublishableClosed(ws)
    ensures v.Wrong? ==> forall d :: d in v.names <==> OffendsSome(ws, d)
  {
    hide PublishableClosed, Offending, DepNames;
    var checker := new FlagChecker(ws);
    for k := 0 to |ws.order|
      invariant checker.ws == ws && checker.out == OffendingUpTo(ws, k)
      invariant forall j | 0 <= j < k :: ws.crates[ws.order[j]].publish.Some?
    {
      var name := ws.order[k];
      var shouldPublish := ws.crates[name].publish;
      if shouldPublish.None? { return FlagMissing; }
      if shouldPublish.value {
        OutUnpublished(ws, k, name);
        var ok := checker.Traverse(name);
        if !ok { return FlagMissing; }
      }
    }
    Verdict(ws);
    if checker.out != {} { return Wrong(checker.out); }
    return AllCorrect;
  }

  /** What the collected set says once every crate has been looked at. */
  lemma Verdict(ws: Workspace)
    requires ws.Valid() && forall j | 0 <= j < |ws.order| :: ws.crates[ws.order[j]].publish.Some?
    ensures AllFlagged(ws)
    ensures OffendingUpTo(ws, |ws.order|) == {} <==> PublishableClosed(ws)
    ensures forall d :: d in OffendingUpTo(ws, |ws.order|) <==> OffendsSome(ws, d)
  {
    assert ws.order[..|ws.order|] == ws.order;
    EveryoneFlagged(ws);
    hide PublishableClosed, Offending, OffendingUpTo, AllFlagged, OffendsSome;
    DirectIsEnough(ws);
    forall d
      ensures d in OffendingUpTo(ws, |ws.order|) <==> OffendsSome(ws, d)
    {
      OffendingMember(ws, |ws.order|, d);
      SomeoneOffends(ws, d);
    }
  }

  lemma SomeoneOffends(ws: Workspace, d: Name)
    requires ws.Valid()
    ensures OffendsSome(ws, d) <==> exists a :: a in ws.order && ws.Publishable(a) && d in Offending(ws, a)
  {
    hide Offending, DependsOn;
    forall a | a in ws.crates
      ensures d in Offending(ws, a) <==>
                d in ws.crates && ws.crates[d].publish == Some(false) && DependsOn(ws.crates[a], d)
    {
      OffendingMeans(ws, a, d);
    }
  }

  lemma EveryoneFlagged(ws: Workspace)
    requires ws.Valid() && forall j | 0 <= j < |ws.order| :: ws.crates[ws.order[j]].publish.Some?
    ensures AllFlagged(ws)
  {
    forall n | n in ws.crates
      ensures ws.crates[n].publish.Some?
    {
      assert n in ws.order;
    }
  }

  /** Only unpublished crates are ever added, so no published crate is skipped. */
  lemma OutUnpublished(ws: Workspace, k: nat, n: Name)
    requires ws.Valid() && k <= |ws.order| && ws.Publishable(n)
    ensures n !in OffendingUpTo(ws, k)
  {
    OffendingMember(ws, k, n);
  }
}

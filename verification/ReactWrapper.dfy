/** The React wrapper: it starts a viewer, restarts it when startup options change, and keeps the open recordings in
    step with the props. Updates that arrive while the viewer is not ready are dropped and caught up later. */
module ReactWrapper {
  import opened Basics
  import opened ViewerLifecycle

  datatype Rrd = Missing | One(url: Url) | Many(urls: seq<Url>)

  /** `options`: all other props, by name. */
  datatype Props = Props(rrd: Rrd, follow: Option<bool>, options: map<string, string>)

  const STARTUP_KEYS: seq<string> := ["hide_welcome_screen", "manifest_url", "render_backend"]

  function ToArray(r: Rrd): seq<Url> {
    match r
    case Missing => []
    case One(url) => [url]
    case Many(urls) => urls
  }

  /** The prop names `x` as a recording to show. */
  predicate Wanted(rrd: Rrd, x: Url) {
    match rrd
    case Missing => false
    case One(url) => x == url
    case Many(urls) => x in urls
  }

  lemma ToArrayIsWanted(rrd: Rrd, x: Url)
    ensures x in ToArray(rrd) <==> Wanted(rrd, x)
  {
  }

  function Prop(options: map<string, string>, key: string): Option<string> {
    if key in options then Some(options[key]) else None
  }

  /** True exactly when one of the keys was added, removed or given another value. */
  predicate KeysChanged(prev: map<string, string>, curr: map<string, string>, keys: seq<string>)
    ensures KeysChanged(prev, curr, keys) <==> exists key :: key in keys && Prop(prev, key) != Prop(curr, key)
  {
    keys != [] && (Prop(prev, keys[0]) != Prop(curr, keys[0]) || KeysChanged(prev, curr, keys[1..]))
  }

  // ---- list arithmetic ----

  /** `list.filter`, keeping the elements that are (`wanted`) or are not in `s`. */
  function Select(list: seq<Url>, s: seq<Url>, wanted: bool): (r: seq<Url>)
    ensures forall x :: x in r <==> x in list && (x in s <==> wanted)
  {
    if list == [] then [] else
      var x := list[|list| - 1];
      assert list == list[..|list| - 1] + [x];
      Select(list[..|list| - 1], s, wanted) + if x in s <==> wanted then [x] else []
  }

  function SelectHttp(list: seq<Url>, isHttp: Url -> bool): (r: seq<Url>)
    ensures forall x :: x in r <==> x in list && isHttp(x)
  {
    if list == [] then [] else
      var x := list[|list| - 1];
      assert list == list[..|list| - 1] + [x];
      SelectHttp(list[..|list| - 1], isHttp) + if isHttp(x) then [x] else []
  }

  /** What `syncRecordings` has to close, reopen and open. */
  datatype Changes = Changes(removed: seq<Url>, reopened: seq<Url>, added: seq<Url>)

  function Diff(prev: seq<Url>, current: seq<Url>, prevFollow: Option<bool>, follow: Option<bool>,
                isHttp: Url -> bool): (c: Changes) {
    Changes(
      Select(prev, current, false),
      if prevFollow != follow then SelectHttp(Select(current, prev, true), isHttp) else [],
      Select(current, prev, false))
  }

  // ---- the effect on the open recordings ----

  function Applied(r: Receivers, c: Changes, follow: Option<bool>): Receivers {
    AddAll(AddAll(RemoveAll(r, c.removed + c.reopened), c.added, follow), c.reopened, follow)
  }

  lemma AppliedEntry(r: Receivers, c: Changes, follow: Option<bool>, x: Url)
    ensures x in Applied(r, c, follow) <==> x in c.added || x in c.reopened || (x in r && x !in c.removed)
    ensures x in c.added || x in c.reopened ==> Applied(r, c, follow)[x] == follow
    ensures x !in c.added && x !in c.reopened && x !in c.removed && x in r ==> Applied(r, c, follow)[x] == r[x]
  {
    var gone := RemoveAll(r, c.removed + c.reopened);
    RemoveAllEntry(r, c.removed + c.reopened, x);
    AddAllEntry(gone, c.added, follow, x);
    AddAllEntry(AddAll(gone, c.added, follow), c.reopened, follow, x);
  }

  /** The open recordings are exactly those of the props, and http sources carry the latest follow flag. */
  ghost predicate Agrees(r: Receivers, urls: seq<Url>, follow: Option<bool>, isHttp: Url -> bool) {
    && (forall x :: x in r <==> x in urls)
    && forall x | x in r && isHttp(x) :: r[x] == follow
  }

  /** Between readiness and catch-up: the viewer was opened on the initial urls, updates may have come on top. */
  ghost predicate Behind(r: Receivers, initial: seq<Url>, initialFollow: Option<bool>, urls: seq<Url>,
                         follow: Option<bool>, isHttp: Url -> bool)
  {
    && (forall x | x in r :: x in initial || x in urls)
    && (forall x | x in initial && x in urls :: x in r)
    && forall x | x in r && x in urls && isHttp(x) :: r[x] == follow || (x in initial && r[x] == initialFollow)
  }

  lemma OpenedIsBehind(initial: seq<Url>, initialFollow: Option<bool>, urls: seq<Url>, follow: Option<bool>,
                       isHttp: Url -> bool)
    ensures Behind(AddAll(map[], initial, initialFollow), initial, initialFollow, urls, follow, isHttp)
  {
    forall x: Url
      ensures x in AddAll(map[], initial, initialFollow) <==> x in initial
      ensures x in initial ==> AddAll(map[], initial, initialFollow)[x] == initialFollow
    {
      AddAllEntry(map[], initial, initialFollow, x);
    }
    hide AddAll;
  }

  /** An update in step stays in step. */
  lemma SyncKeepsAgreement(r: Receivers, prev: seq<Url>, urls: seq<Url>, prevFollow: Option<bool>, follow: Option<bool>,
                           isHttp: Url -> bool)
    requires Agrees(r, prev, prevFollow, isHttp)
    ensures Agrees(Applied(r, Diff(prev, urls, prevFollow, follow, isHttp), follow), urls, follow, isHttp)
  {
    hide Applied, Select, SelectHttp;
    var c := Diff(prev, urls, prevFollow, follow, isHttp);
    forall x
      ensures x in Applied(r, c, follow) <==> x in urls
      ensures x in Applied(r, c, follow) && isHttp(x) ==> Applied(r, c, follow)[x] == follow
    {
      AppliedEntry(r, c, follow, x);
    }
  }

  /** An update before catch-up keeps what catch-up needs. */
  lemma SyncStaysBehind(r: Receivers, initial: seq<Url>, initialFollow: Option<bool>, prev: seq<Url>, urls: seq<Url>,
                        prevFollow: Option<bool>, follow: Option<bool>, isHttp: Url -> bool)
    requires Behind(r, initial, initialFollow, prev, prevFollow, isHttp)
    ensures Behind(Applied(r, Diff(prev, urls, prevFollow, follow, isHttp), follow), initial, initialFollow, urls,
              follow, isHttp)
  {
    hide Applied, Select, SelectHttp;
    var c := Diff(prev, urls, prevFollow, follow, isHttp);
    var s := Applied(r, c, follow);
    forall x
      ensures x in s ==> x in initial || x in urls
      ensures x in initial && x in urls ==> x in s
      ensures x in s && x in urls && isHttp(x) ==> s[x] == follow || (x in initial && s[x] == initialFollow)
    {
      AppliedEntry(r, c, follow, x);
    }
  }

  /** Catching up from the initial urls reaches agreement, whatever updates came in between. */
  lemma CatchUpAgrees(r: Receivers, initial: seq<Url>, initialFollow: Option<bool>, urls: seq<Url>,
                      follow: Option<bool>, isHttp: Url -> bool)
    requires Behind(r, initial, initialFollow, urls, follow, isHttp)
    ensures Agrees(Applied(r, Diff(initial, urls, initialFollow, follow, isHttp), follow), urls, follow, isHttp)
  {
    hide Applied, Select, SelectHttp;
    var c := Diff(initial, urls, initialFollow, follow, isHttp);
    var s := Applied(r, c, follow);
    forall x
      ensures x in s <==> x in urls
      ensures x in s && isHttp(x) ==> s[x] == follow
    {
      AppliedEntry(r, c, follow, x);
    }
  }

  /** A callback that comes late, with whatever initial urls it captured, disturbs neither. */
  lemma LateCallbackKeepsAgreement(r: Receivers, earlier: seq<Url>, earlierFollow: Option<bool>, urls: seq<Url>,
                                   follow: Option<bool>, isHttp: Url -> bool)
    requires Agrees(r, urls, follow, isHttp)
    ensures Agrees(Applied(r, Diff(earlier, urls, earlierFollow, follow, isHttp), follow), urls, follow, isHttp)
  {
    hide Applied, Select, SelectHttp;
    var c := Diff(earlier, urls, earlierFollow, follow, isHttp);
    var s := Applied(r, c, follow);
    forall x
      ensures x in s <==> x in urls
      ensures x in s && isHttp(x) ==> s[x] == follow
    {
      AppliedEntry(r, c, follow, x);
    }
  }

  lemma LateCallbackStaysBehind(r: Receivers, initial: seq<Url>, initialFollow: Option<bool>, earlier: seq<Url>,
                                earlierFollow: Option<bool>, urls: seq<Url>, follow: Option<bool>, isHttp: Url -> bool)
    requires Behind(r, initial, initialFollow, urls, follow, isHttp)
    ensures Behind(Applied(r, Diff(earlier, urls, earlierFollow, follow, isHttp), follow), initial, initialFollow,
              urls, follow, isHttp)
  {
    hide Applied, Select, SelectHttp;
    var c := Diff(earlier, urls, earlierFollow, follow, isHttp);
    var s := Applied(r, c, follow);
    forall x
      ensures x in s ==> x in initial || x in urls
      ensures x in initial && x in urls ==> x in s
      ensures x in s && x in urls && isHttp(x) ==> s[x] == follow || (x in initial && s[x] == initialFollow)
    {
      AppliedEntry(r, c, follow, x);
    }
  }

  // ---- syncRecordings on a viewer ----

  /** Which foreign calls of one `syncRecordings` throw. */
  datatype Failures = Failures(close: Option<nat>, added: Option<nat>, reopened: Option<nat>, destroyThrows: bool)

  function Closed(v: Viewer, c: Changes, f: Failures): Viewer {
    if c.removed + c.reopened == [] then v else Closing(v, c.removed + c.reopened, f.close, f.destroyThrows)
  }

  predicate CloseThrows(v: Viewer, c: Changes, f: Failures) {
    c.removed + c.reopened != [] && Throws(v, c.removed + c.reopened, f.close)
  }

  function Added(v: Viewer, urls: seq<Url>, follow: Option<bool>, failAt: Option<nat>, destroyThrows: bool): Viewer {
    if urls == [] then v else Opening(v, urls, follow, failAt, destroyThrows)
  }

  predicate OpenThrows(v: Viewer, urls: seq<Url>, failAt: Option<nat>) {
    urls != [] && Throws(v, urls, failAt)
  }

  /** The first call that throws ends the synchronisation. */
  function Synced(v: Viewer, c: Changes, follow: Option<bool>, f: Failures): Viewer {
    var closed := Closed(v, c, f);
    if CloseThrows(v, c, f) then closed
    else
      var some := Added(closed, c.added, follow, f.added, f.destroyThrows);
      if OpenThrows(closed, c.added, f.added) then some
      else Added(some, c.reopened, follow, f.reopened, f.destroyThrows)
  }

  /** A ready viewer with these receivers, or a stopped one. */
  predicate ReadyOrStopped(v: Viewer, r: Receivers) {
    Inv(v) && v.pending == [] && (v.state.Stopped? || (v.state.Ready? && v.handle == Some(r)))
  }

  lemma ClosedOrStopped(v: Viewer, c: Changes, f: Failures)
    requires Inv(v) && v.state.Ready?
    ensures ReadyOrStopped(Closed(v, c, f), RemoveAll(v.handle.value, c.removed + c.reopened))
    ensures !CloseThrows(v, c, f) <==> Closed(v, c, f).state.Ready?
  {
    hide AddAll;
  }

  lemma AddedOrStopped(v: Viewer, urls: seq<Url>, follow: Option<bool>, failAt: Option<nat>, destroyThrows: bool)
    requires Inv(v) && v.state.Ready?
    ensures ReadyOrStopped(Added(v, urls, follow, failAt, destroyThrows), AddAll(v.handle.value, urls, follow))
    ensures !OpenThrows(v, urls, failAt) <==> Added(v, urls, follow, failAt, destroyThrows).state.Ready?
  {
    hide RemoveAll;
  }

  /** On a ready viewer a synchronisation takes full effect, or it fails and stops the viewer. */
  lemma SyncedOrStopped(v: Viewer, c: Changes, follow: Option<bool>, f: Failures)
    requires Inv(v) && v.state.Ready?
    ensures ReadyOrStopped(Synced(v, c, follow, f), Applied(v.handle.value, c, follow))
  {
    hide AddAll, RemoveAll, Closed, Added, CloseThrows, OpenThrows;
    ClosedOrStopped(v, c, f);
    if !CloseThrows(v, c, f) {
      var closed := Closed(v, c, f);
      AddedOrStopped(closed, c.added, follow, f.added, f.destroyThrows);
      if !OpenThrows(closed, c.added, f.added) {
        AddedOrStopped(Added(closed, c.added, follow, f.added, f.destroyThrows), c.reopened, follow, f.reopened,
            f.destroyThrows);
      }
    }
  }

  method SyncRecordings(handle: WebViewer, prev: seq<Url>, current: seq<Url>, prevFollow: Option<bool>,
                        follow: Option<bool>, isHttp: Url -> bool, f: Failures)
    returns (threw: bool)
    modifies handle, handle.handle
    ensures handle.Model() == Synced(old(handle.Model()), Diff(prev, current, prevFollow, follow, isHttp), follow, f)
    ensures handle.handle == null || handle.handle == old(handle.handle)
  {
    hide Opening, Closing, Select, SelectHttp, Diff;
    var c := Diff(prev, current, prevFollow, follow, isHttp);
    if |c.removed| > 0 || |c.reopened| > 0 {
      threw := handle.Close(c.removed + c.reopened, f.close, f.destroyThrows);
      if threw { return; }
    }
    if |c.added| > 0 {
      threw := handle.Open(c.added, follow, f.added, f.destroyThrows);
      if threw { return; }
    }
    if |c.reopened| > 0 {
      threw := handle.Open(c.reopened, follow, f.reopened, f.destroyThrows);
      if threw { return; }
    }
    return false;
  }
}

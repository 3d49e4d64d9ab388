/** The component class: its methods take the steps that `ReactRuns` puts into sequence. */
module ReactComponent {
  import opened ViewerLifecycle
  import opened ReactWrapper
  import opened ReactRuns

  class Component {
    const isHttp: Url -> bool
    var props: Props
    var handle: WebViewer

    constructor (props: Props, isHttp: Url -> bool)
      ensures this.props == props && this.isHttp == isHttp
      ensures fresh(handle) && handle.Model() == UNSTARTED.viewer
    {
      this.props := props;
      this.isHttp := isHttp;
      handle := new WebViewer();
    }

    /** `startViewer`, up to the first suspension. What it captured goes on to the callback. */
    static method StartViewer(handle: WebViewer, props: Props, ghost due: seq<StartArgs>)
      returns (args: StartArgs, suspended: bool)
      modifies handle
      ensures args == Args(props) && GivenProps(args, props)
      ensures suspended <==> old(handle.state) == Stopped
      ensures Instance(handle.Model(), if suspended then due else due + [args])
           == Launched(Instance(old(handle.Model()), due), props)
      ensures handle.handle == old(handle.handle)
    {
      ArgsAreGiven(props);
      args := Args(props);
      suspended := handle.Start(args);
    }

    /** `componentDidMount`. If the start returned at once, its callback is due. */
    method DidMount(ghost due: seq<StartArgs>) returns (args: StartArgs, suspended: bool)
      modifies handle
      ensures args == Args(props) && GivenProps(args, props)
      ensures suspended <==> old(handle.state) == Stopped
      ensures Instance(handle.Model(), if suspended then due else due + [args])
           == Launched(Instance(old(handle.Model()), due), props)
    {
      args, suspended := StartViewer(handle, props, due);
    }

    /** The restart in `componentDidUpdate`. */
    method Restart(destroyThrows: bool) returns (threw: bool)
      modifies this`handle, handle
      ensures threw <==> StopThrows(old(handle.Model()), destroyThrows)
      ensures threw <==> old(handle.state) != Stopped && old(handle.handle) != null && destroyThrows
      ensures old(handle).Model() == Stopping(old(handle.Model()), destroyThrows)
      ensures threw ==> handle == old(handle)
      ensures !threw ==> fresh(handle) && handle.Model() == Launched(UNSTARTED, props).viewer
    {
      hide Stopping;
      threw := handle.Stop(destroyThrows);
      if threw { return; }
      handle := new WebViewer();
      var _, _ := StartViewer(handle, props, []);
    }

    /** `componentDidUpdate`; `x` is the record of the current viewer. */
    method DidUpdate(next: Props, f: Failures, ghost x: Instance) returns (threw: bool)
      requires x.viewer == handle.Model()
      modifies this`props, this`handle, handle, handle.handle
      ensures var w := Update(World(Mounted, old(props), [x]), next, f, isHttp);
              && props == w.props && handle.Model() == Current(w).viewer
              && old(handle).Model() == w.handles[0].viewer
              && (|w.handles| == 2 ==> fresh(handle)) && (|w.handles| == 1 ==> handle == old(handle))
    {
      hide Synced, Diff, Stopping, KeysChanged, Launched, StopThrows;
      var prevProps := props;
      props := next;
      if KeysChanged(prevProps.options, props.options, STARTUP_KEYS) {
        threw := Restart(f.destroyThrows);
      } else if !handle.IsReady() {
        threw := false;
      } else {
        threw := SyncRecordings(handle, ToArray(prevProps.rrd), ToArray(props.rrd), prevProps.follow, props.follow,
            isHttp, f);
      }
    }

    /** `componentWillUnmount` */
    method WillUnmount(destroyThrows: bool) returns (threw: bool)
      modifies handle
      ensures handle.Model() == Stopping(old(handle.Model()), destroyThrows)
    {
      threw := handle.Stop(destroyThrows);
    }

    /** The `then` of a start of `viewer`. An exception is swallowed. */
    method Callback(viewer: WebViewer, args: StartArgs, f: Failures)
      modifies viewer, viewer.handle
      ensures viewer.Model() == CalledBack(Instance(old(viewer.Model()), []), args, props, f, isHttp).viewer
    {
      hide Synced, Diff;
      if !viewer.IsReady() { return; }
      var _ := SyncRecordings(viewer, Initial(args), ToArray(props.rrd), args.follow, props.follow, isHttp, f);
    }
  }
}

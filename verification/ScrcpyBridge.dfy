/** The capture bridge's methods, each one section under its lock. */
module ScrcpyBridge {
  import opened Wrappers
  import opened CaptureModel

  class ScrcpyBridge {
    var process: Option<Launch>
    var streamCancel: Option<Launch>
    var controlConn: Option<Launch>
    var options: Options
    var videoCodec: Option<From<string>>
    var videoReady: Option<Launch>
    var captureErr: Option<From<string>>
    var size: Option<From<(int, int)>>

    // The contexts that are done, the channels that are closed, and how launches ended.
    var launches: nat
    var cancelled: set<Launch>
    var closed: seq<Launch>
    ghost var ended: map<Launch, Ending>

    ghost function State(): Bridge
      reads this
    {
      Bridge(process, streamCancel, controlConn, options, videoCodec, videoReady, captureErr, size, launches,
        cancelled, closed, ended)
    }

    constructor ()
      ensures State() == IDLE
    {
      process, streamCancel, controlConn, options := None, None, None, NO_OPTIONS;
      videoCodec, videoReady, captureErr, size := None, None, None, None;
      launches, cancelled, closed, ended := 0, {}, [], map[];
    }

    /** Launches a process, with a context and a ready channel of its own. */
    method StartLocked(wanted: Options, launched: bool)
      modifies this
      ensures State() == CaptureModel.StartLocked(old(State()), wanted, launched)
    {
      if !launched { return; }
      var g := launches;
      launches := launches + 1;
      process, streamCancel, options := Some(g), Some(g), wanted;
      videoCodec, videoReady, captureErr := None, Some(g), None;
    }

    method StopLocked(ghost why: Ending)
      modifies this
      ensures State() == CaptureModel.StopLocked(old(State()), why)
    {
      if process.Some? {
        ended := ended[process.value := why];
      }
      process := None;
      if videoReady.Some? {
        closed := closed + [videoReady.value];
        videoReady := None;
      }
      controlConn := None;
      if streamCancel.Some? {
        cancelled := cancelled + {streamCancel.value};
        streamCancel := None;
      }
    }

    /** Starts a capture; whether the old process stops in time and the new one launches is up to the device. */
    method Start(wanted: Options, stops: bool, launched: bool)
      modifies this
      ensures State() == CaptureModel.Start(old(State()), wanted, stops, launched)
    {
      hide CaptureModel.StopLocked, CaptureModel.StartLocked;
      if process.Some? {
        if wanted.preview && !wanted.reconfigure { return; }
        if wanted.powerOff == options.powerOff && wanted.debug == options.debug
           && wanted.arguments == options.arguments
        {
          options := wanted;
          return;
        }
        StopLocked(Replaced);
        if !stops { return; }
      }
      StartLocked(wanted, launched);
    }

    method Stop()
      modifies this
      ensures State() == CaptureModel.StopLocked(old(State()), Stopped)
    {
      StopLocked(Stopped);
    }

    /** Records a failure of the running process; one of an earlier process is ignored. */
    method CaptureFailed(g: Launch, error: string) returns (publishes: bool)
      modifies this
      ensures State() == CaptureModel.CaptureFailed(old(State()), g, error)
      ensures publishes <==> old(process) == Some(g)
    {
      hide CaptureModel.StopLocked;
      if process != Some(g) { return false; }
      captureErr := Some(From(g, error));
      StopLocked(Failed);
      publishes := true;
    }

    method SetControlConn(g: Launch) returns (kept: bool)
      modifies this
      ensures State() == CaptureModel.SetControlConn(old(State()), g)
      ensures kept <==> g !in old(cancelled)
    {
      if g in cancelled { return false; }
      controlConn := Some(g);
      kept := true;
    }

    method ClearControlConn(g: Launch)
      modifies this
      ensures State() == CaptureModel.ClearControlConn(old(State()), g)
    {
      if controlConn == Some(g) {
        controlConn := None;
      }
    }

    /** A config packet of a launch that may no longer be the running one. */
    method OnConfigPacket(g: Launch, codec: string)
      modifies this
      ensures State() == Configure(old(State()), g, codec)
    {
      if process == Some(g) {
        videoCodec := if codec == "" then None else Some(From(g, codec));
        if codec != "" && videoReady.Some? {
          closed := closed + [videoReady.value];
          videoReady := None;
        }
      }
    }

    method OnSessionPacket(g: Launch, width: int, height: int)
      modifies this
      ensures State() == Resize(old(State()), g, width, height)
    {
      size := Some(From(g, (width, height)));
    }
  }
}

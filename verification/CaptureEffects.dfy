/** What each call and packet does to the capture bridge, told from what was asked and what the running launch is. */
module CaptureEffects {
  import opened Wrappers
  import opened CaptureModel

  lemma RunNext(events: seq<Event>, k: nat)
    requires k < |events|
    ensures Run(events[..k + 1]) == Step(Run(events[..k]), events[k])
  {
    hide Step;
    assert events[..k + 1][..k] == events[..k];
  }

  lemma RunMore(events: seq<Event>, e: Event)
    ensures Run(events + [e]) == Step(Run(events), e)
  {
    hide Step;
    assert (events + [e])[..|events|] == events;
  }

  // ---------------------------------------------------------------- the options of the running launch

  /** The start that made a launch. */
  predicate Launches(events: seq<Event>, k: nat, g: Launch) {
    k < |events| && events[k].StartCall?
    && Run(events[..k]).b.launches == g && Run(events[..k + 1]).b.launches == g + 1
  }

  lemma SafeIsSound(w: World)
    requires Safe(w)
    ensures Sound(w.b)
  {
  }

  /** The same settings, but for those that a running process takes on. */
  predicate SameProcess(b: Bridge, r: Bridge) {
    && r.process == b.process && r.options.powerOff == b.options.powerOff && r.options.debug == b.options.debug
    && r.options.arguments == b.options.arguments
  }

  lemma StartOptions(b: Bridge, options: Options, stops: bool, launched: bool)
    requires Sound(b) && Start(b, options, stops, launched).process.Some?
    ensures
      var r := Start(b, options, stops, launched);
      if r.launches > b.launches then
        r.options == options && r.launches == b.launches + 1 && r.process == Some(b.launches)
      else SameProcess(b, r)
  {
    hide Sound;
  }

  lemma OtherOptions(b: Bridge, g: Launch, text: string, width: int, height: int)
    ensures CaptureFailed(b, g, text).process.Some? ==> SameProcess(b, CaptureFailed(b, g, text))
    ensures SameProcess(b, Configure(b, g, text)) && SameProcess(b, Resize(b, g, width, height))
    ensures SameProcess(b, SetControlConn(b, g)) && SameProcess(b, ClearControlConn(b, g))
  {
  }

  lemma OptionsStep(w: World, e: Event)
    requires Safe(w) && Step(w, e).b.process.Some?
    ensures
      var v := Step(w, e);
      if v.b.launches > w.b.launches then
        && e.StartCall? && v.b.options == e.options
        && v.b.launches == w.b.launches + 1 && v.b.process == Some(w.b.launches)
      else SameProcess(w.b, v.b)
  {
    SafeIsSound(w);
    hide Safe, Sound, Start, StopLocked, CaptureFailed, Configure, Resize, SetControlConn, ClearControlConn;
    match e {
      case StartCall(options, stops, launched) => StartOptions(w.b, options, stops, launched);
      case StopCall => StoppedIsIdle(w.b, Stopped);
      case Attach(g) => OtherOptions(w.b, g, "", 0, 0);
      case ConfigPacket(g, codec) => OtherOptions(w.b, g, codec, 0, 0);
      case SessionPacket(g, width, height) => OtherOptions(w.b, g, "", width, height);
      case LeaveSocket(g) => OtherOptions(w.b, g, "", 0, 0);
      case MediaReports(g, error) => OtherOptions(w.b, g, error, 0, 0);
      case WaiterReports(g, error) => OtherOptions(w.b, g, error, 0, 0);
      case _ =>
    }
  }

  /**
   * While a launch is the running one, the bridge's options agree with those it was launched with in everything that
   * only a new process can take on.
   */
  lemma {:induction false} OptionsAreTheLaunchs(events: seq<Event>, n: nat) returns (k: nat)
    requires n <= |events| && Run(events[..n]).b.process.Some?
    ensures k < n && Launches(events, k, Run(events[..n]).b.process.value)
    ensures
      var own, b := events[k].options, Run(events[..n]).b;
      b.options.powerOff == own.powerOff && b.options.debug == own.debug && b.options.arguments == own.arguments
    decreases n
  {
    hide Step, Safe;
    RunsAreSafe(events[..n - 1]);
    RunNext(events, n - 1);
    OptionsStep(Run(events[..n - 1]), events[n - 1]);
    if Run(events[..n]).b.launches > Run(events[..n - 1]).b.launches {
      k := n - 1;
    } else {
      k := OptionsAreTheLaunchs(events, n - 1);
    }
  }

  // ---------------------------------------------------------------- starts

  /**
   * A start while a launch is running replaces it if and only if it is not for a plain preview and it differs from what
   * that launch was launched with in power, debugging or arguments. Otherwise the launch goes on, and the options are
   * taken over unless it was for a plain preview. A replaced launch is followed by a new one exactly if the old process
   * stops and the new one launches.
   */
  lemma ReplacedExactly(events: seq<Event>, options: Options, stops: bool, launched: bool, k: nat, g: Launch)
    requires Run(events).b.process == Some(g) && Launches(events, k, g)
    ensures
      var b, r, own := Run(events).b, Run(events + [StartCall(options, stops, launched)]).b, events[k].options;
      var relaunches := (!options.preview || options.reconfigure)
        && (options.powerOff != own.powerOff || options.debug != own.debug || options.arguments != own.arguments);
      && (EndedAs(r, g, Replaced) <==> relaunches)
      && if relaunches then
        && g in r.cancelled && g in r.closed && r.process == (if stops && launched then Some(g + 1) else None)
        && (stops && launched ==> r.options == options && r.videoReady == Some(g + 1))
      else
        && r.process == Some(g) && r.launches == b.launches
        && r.options == if options.preview && !options.reconfigure then b.options else options
  {
    hide Run, Safe;
    RunsAreSafe(events);
    assert events[..|events|] == events;
    var l := OptionsAreTheLaunchs(events, |events|);
    OneLaunch(events, k, l, g);
    RunMore(events, StartCall(options, stops, launched));
    StartTells(Run(events).b, options, stops, launched, g) by { SafeIsSound(Run(events)); }
  }

  /** A launch is made once. */
  lemma OneLaunch(events: seq<Event>, k: nat, l: nat, g: Launch)
    requires Launches(events, k, g) && Launches(events, l, g)
    ensures k == l
  {
    hide Step;
    if k < l { LaunchesRise(events, k + 1, l); }
    if l < k { LaunchesRise(events, l + 1, k); }
  }

  lemma {:induction false} LaunchesRise(events: seq<Event>, i: nat, j: nat)
    requires i <= j <= |events|
    ensures Run(events[..i]).b.launches <= Run(events[..j]).b.launches
    decreases j
  {
    hide Step;
    if i < j {
      LaunchesRise(events, i, j - 1);
      RunNext(events, j - 1);
      LaunchesStep(Run(events[..j - 1]), events[j - 1]);
    }
  }

  lemma LaunchesStep(w: World, e: Event)
    ensures w.b.launches <= Step(w, e).b.launches
  {
    hide Start, StopLocked, CaptureFailed, Configure, SetControlConn, ClearControlConn;
  }

  lemma StartTells(b: Bridge, options: Options, stops: bool, launched: bool, g: Launch)
    requires Sound(b) && b.process == Some(g)
    ensures
      var r, own := Start(b, options, stops, launched), b.options;
      var relaunches := (!options.preview || options.reconfigure)
        && (options.powerOff != own.powerOff || options.debug != own.debug || options.arguments != own.arguments);
      && (EndedAs(r, g, Replaced) <==> relaunches)
      && if relaunches then
        && g in r.cancelled && g in r.closed && r.process == (if stops && launched then Some(g + 1) else None)
        && (stops && launched ==> r.options == options && r.videoReady == Some(g + 1))
      else
        && r.process == Some(g) && r.launches == b.launches
        && r.options == if options.preview && !options.reconfigure then b.options else options
  {
  }

  /** A start while nothing is running launches, if the device lets it. */
  lemma StartsWhenIdle(events: seq<Event>, options: Options, stops: bool, launched: bool)
    requires Run(events).b.process.None?
    ensures
      var b, w := Run(events).b, Run(events + [StartCall(options, stops, launched)]);
      if launched then
        && w.b.process == Some(b.launches) && w.b.options == options && w.b.videoReady == Some(b.launches)
        && w.b.videoCodec.None? && w.b.captureErr.None?
        && MediaAt(w, b.launches, Connecting) && WaiterAt(w, b.launches, Waiting)
      else w == Run(events)
  {
    hide Run;
    RunMore(events, StartCall(options, stops, launched));
  }

  // ---------------------------------------------------------------- stops, packets and failures

  /** A stop ends the running launch, cancels it and lets nobody wait for its video. */
  lemma StopEnds(events: seq<Event>)
    ensures
      var b, r := Run(events).b, Run(events + [StopCall]).b;
      && r.process.None? && r.videoReady.None? && r.controlConn.None?
      && (b.process.Some? ==> EndedAs(r, b.process.value, Stopped) && b.process.value in r.cancelled)
      && (b.videoReady.Some? ==> b.videoReady.value in r.closed)
  {
    hide Run, Safe;
    RunsAreSafe(events);
    RunMore(events, StopCall);
    SafeIsSound(Run(events));
  }

  /** A config packet that the running launch reads gives the codec, and its first one lets those go on who wait. */
  lemma ConfigTells(events: seq<Event>, g: Launch, codec: string)
    requires Run(events).b.process == Some(g) && MediaAt(Run(events), g, Streaming)
    ensures
      var b, r := Run(events).b, Run(events + [ConfigPacket(g, codec)]).b;
      && r.videoCodec == (if codec == "" then None else Some(From(g, codec)))
      && (codec != "" ==> r.videoReady.None? && g in r.closed)
  {
    hide Run, Safe;
    RunsAreSafe(events);
    RunMore(events, ConfigPacket(g, codec));
    SafeIsSound(Run(events));
  }

  /** A socket that the running launch attaches is the control socket, unless its context is done. */
  lemma AttachTells(events: seq<Event>, g: Launch)
    requires MediaAt(Run(events), g, Connecting)
    ensures
      var w, v := Run(events), Run(events + [Attach(g)]);
      if g in w.b.cancelled then v.b == w.b && MediaAt(v, g, MediaChecking)
      else v.b.controlConn == Some(g) && MediaAt(v, g, Streaming)
  {
    hide Run;
    RunMore(events, Attach(g));
  }

  /** A failure of the running launch ends it, is recorded with its text, and is on its way to be published. */
  lemma FailureTells(events: seq<Event>, g: Launch, error: string)
    requires Run(events).b.process == Some(g)
    ensures
      var r := Run(events + [MediaReports(g, error)]);
      MediaAt(Run(events), g, MediaReporting) ==>
        r.b.process.None? && r.b.captureErr == Some(From(g, error)) && EndedAs(r.b, g, Failed) && g in r.publishing
    ensures
      var r := Run(events + [WaiterReports(g, error)]);
      WaiterAt(Run(events), g, WaiterReporting) ==>
        r.b.process.None? && r.b.captureErr == Some(From(g, error)) && EndedAs(r.b, g, Failed) && g in r.publishing
  {
    hide Run;
    RunMore(events, MediaReports(g, error));
    RunMore(events, WaiterReports(g, error));
    var all := Run(events).publishing + [g];
    assert all[|all| - 1] == g;
  }

  /** The goroutine whose connection fails comes to report it, unless its context is done. */
  lemma ConnectFailureIsReported(events: seq<Event>, g: Launch)
    requires MediaAt(Run(events), g, Connecting) && g !in Run(events).b.cancelled
    ensures MediaAt(Run(events + [MediaFails(g)] + [MediaChecks(g)]), g, MediaReporting)
  {
    hide Run, Start, StopLocked, CaptureFailed, Configure, SetControlConn, Resize;
    RunMore(events, MediaFails(g));
    RunMore(events + [MediaFails(g)], MediaChecks(g));
  }

  /** The goroutine whose stream fails takes its socket back and comes to report it, unless its context is done. */
  lemma StreamFailureIsReported(events: seq<Event>, g: Launch)
    requires MediaAt(Run(events), g, Streaming) && g !in Run(events).b.cancelled
    ensures Run(events + [MediaFails(g)] + [LeaveSocket(g)]).b.controlConn != Some(g)
    ensures MediaAt(Run(events + [MediaFails(g)] + [LeaveSocket(g)] + [MediaChecks(g)]), g, MediaReporting)
  {
    hide Run, Start, StopLocked, CaptureFailed, Configure, SetControlConn, Resize;
    RunMore(events, MediaFails(g));
    RunMore(events + [MediaFails(g)], LeaveSocket(g));
    RunMore(events + [MediaFails(g)] + [LeaveSocket(g)], MediaChecks(g));
  }

  /** The goroutine whose process exits comes to report it, unless its context is done. */
  lemma ExitIsReported(events: seq<Event>, g: Launch)
    requires WaiterAt(Run(events), g, Waiting) && g !in Run(events).b.cancelled
    ensures WaiterAt(Run(events + [ProcessExits(g)] + [WaiterChecks(g)]), g, WaiterReporting)
  {
    hide Run, Start, StopLocked, CaptureFailed, Configure, SetControlConn, Resize;
    RunMore(events, ProcessExits(g));
    RunMore(events + [ProcessExits(g)], WaiterChecks(g));
  }

  /** What is on its way is published, and only that. */
  lemma PublishTells(events: seq<Event>, i: nat)
    requires i < |Run(events).publishing|
    ensures
      var w, v := Run(events), Run(events + [Publish(i)]);
      v.published == w.published + [w.publishing[i]] && |v.publishing| == |w.publishing| - 1 && v.b == w.b
  {
    hide Run;
    RunMore(events, Publish(i));
  }
}

/** The capture bridge: one scrcpy process at a time, and goroutines of earlier ones that may still be running. */
module CaptureModel {
  import opened Wrappers

  /** Launches are numbered in order; the number stands for the process, its context, its channel and its sockets. */
  type Launch = nat

  datatype Options = Options(preview: bool, reconfigure: bool, powerOff: bool, debug: bool, arguments: string)

  /** A value with the launch it came from. */
  datatype From<T> = From(launch: Launch, value: T)

  datatype Ending = Stopped | Replaced | Failed

  /** The bridge's fields, and what has become of the launches so far. */
  datatype Bridge = Bridge(
    process: Option<Launch>,
    streamCancel: Option<Launch>,
    controlConn: Option<Launch>,
    options: Options,
    videoCodec: Option<From<string>>,
    videoReady: Option<Launch>,
    captureErr: Option<From<string>>,
    size: Option<From<(int, int)>>,
    launches: nat,
    cancelled: set<Launch>,
    closed: seq<Launch>,
    ended: map<Launch, Ending>)

  const NO_OPTIONS := Options(false, false, false, false, "")
  const IDLE := Bridge(None, None, None, NO_OPTIONS, None, None, None, None, 0, {}, [], map[])

  // ---------------------------------------------------------------- the sections under the lock

  function AsSet(l: Option<Launch>): set<Launch> {
    if l.Some? then {l.value} else {}
  }

  function AsSeq(l: Option<Launch>): seq<Launch> {
    if l.Some? then [l.value] else []
  }

  /** Forgets the process, closes its channel and control socket and cancels its context. */
  function StopLocked(b: Bridge, why: Ending): (r: Bridge)
    ensures r.launches == b.launches
  {
    b.(process := None, videoReady := None, closed := b.closed + AsSeq(b.videoReady), controlConn := None,
       streamCancel := None, cancelled := b.cancelled + AsSet(b.streamCancel),
       ended := if b.process.Some? then b.ended[b.process.value := why] else b.ended)
  }

  /** A launch that succeeds; one that fails changes nothing. */
  function StartLocked(b: Bridge, options: Options, launched: bool): (r: Bridge)
    ensures b.launches <= r.launches <= b.launches + 1
  {
    if !launched then b
    else
      b.(process := Some(b.launches), streamCancel := Some(b.launches), options := options, videoCodec := None,
         videoReady := Some(b.launches), captureErr := None, launches := b.launches + 1)
  }

  predicate SameCapture(a: Options, b: Options) {
    a.powerOff == b.powerOff && a.debug == b.debug && a.arguments == b.arguments
  }

  function Start(b: Bridge, options: Options, stops: bool, launched: bool): (r: Bridge)
    ensures b.launches <= r.launches <= b.launches + 1
  {
    if b.process.None? then StartLocked(b, options, launched)
    else if options.preview && !options.reconfigure then b
    else if SameCapture(options, b.options) then b.(options := options)
    else if !stops then StopLocked(b, Replaced)
    else StartLocked(StopLocked(b, Replaced), options, launched)
  }

  function CaptureFailed(b: Bridge, g: Launch, error: string): (r: Bridge)
    ensures r.launches == b.launches
  {
    if b.process != Some(g) then b else StopLocked(b.(captureErr := Some(From(g, error))), Failed)
  }

  function SetControlConn(b: Bridge, g: Launch): (r: Bridge)
    ensures r.launches == b.launches
  {
    if g in b.cancelled then b else b.(controlConn := Some(g))
  }

  function ClearControlConn(b: Bridge, g: Launch): (r: Bridge)
    ensures r.launches == b.launches
  {
    if b.controlConn == Some(g) then b.(controlConn := None) else b
  }

  /** A config packet: the codec it names, which is empty when the packet is not understood. */
  function Configure(b: Bridge, g: Launch, codec: string): (r: Bridge)
    ensures r.launches == b.launches
  {
    if b.process != Some(g) then b
    else if codec == "" then b.(videoCodec := None)
    else
      b.(videoCodec := Some(From(g, codec)), videoReady := None, closed := b.closed + AsSeq(b.videoReady))
  }

  function Resize(b: Bridge, g: Launch, width: int, height: int): (r: Bridge)
    ensures r.launches == b.launches
  {
    b.(size := Some(From(g, (width, height))))
  }

  // ---------------------------------------------------------------- the goroutines

  /** Where a goroutine of a launch is. A checking one is about to look at its context, a reporting one has. */
  datatype Media = Connecting | Streaming | Leaving | MediaChecking | MediaReporting | MediaDone

  datatype Waiter = Waiting | WaiterChecking | WaiterReporting | WaiterDone

  datatype World = World(
    b: Bridge, media: map<Launch, Media>, waiters: map<Launch, Waiter>,
    publishing: seq<Launch>, published: seq<Launch>)

  const QUIET := World(IDLE, map[], map[], [], [])

  datatype Event =
    | StartCall(options: Options, stops: bool, launched: bool)
    | StopCall
    | ParentDone(g: Launch)
    | Attach(g: Launch)
    | ConfigPacket(g: Launch, codec: string)
    | SessionPacket(g: Launch, width: int, height: int)
    | MediaFails(g: Launch)
    | LeaveSocket(g: Launch)
    | MediaChecks(g: Launch)
    | MediaReports(g: Launch, error: string)
    | ProcessExits(g: Launch)
    | WaiterChecks(g: Launch)
    | WaiterReports(g: Launch, error: string)
    | Publish(i: nat)

  /** A start that launches also starts the two goroutines of the launch. */
  function Started(w: World, b: Bridge): World {
    if b.launches == w.b.launches then w.(b := b)
    else w.(b := b, media := w.media[w.b.launches := Connecting], waiters := w.waiters[w.b.launches := Waiting])
  }

  /** A failure of the running launch is recorded; it will be published once the lock is free. */
  function Reported(w: World, g: Launch, error: string): World {
    w.(b := CaptureFailed(w.b, g, error),
       publishing := if w.b.process == Some(g) then w.publishing + [g] else w.publishing)
  }

  predicate MediaAt(w: World, g: Launch, m: Media) {
    g in w.media && w.media[g] == m
  }

  predicate WaiterAt(w: World, g: Launch, m: Waiter) {
    g in w.waiters && w.waiters[g] == m
  }

  /** One atomic step; a step its goroutine is not at does nothing. */
  function Step(w: World, e: Event): World {
    match e
    case StartCall(options, stops, launched) => Started(w, Start(w.b, options, stops, launched))
    case StopCall => w.(b := StopLocked(w.b, Stopped))
    case ParentDone(g) => w.(b := w.b.(cancelled := w.b.cancelled + {g}))
    case Attach(g) =>
      if !MediaAt(w, g, Connecting) then w
      else
        w.(b := SetControlConn(w.b, g),
           media := w.media[g := if g in w.b.cancelled then MediaChecking else Streaming])
    case ConfigPacket(g, codec) => if MediaAt(w, g, Streaming) then w.(b := Configure(w.b, g, codec)) else w
    case SessionPacket(g, width, height) =>
      if MediaAt(w, g, Streaming) then w.(b := Resize(w.b, g, width, height)) else w
    case MediaFails(g) =>
      if MediaAt(w, g, Connecting) then w.(media := w.media[g := MediaChecking])
      else if MediaAt(w, g, Streaming) then w.(media := w.media[g := Leaving])
      else w
    case LeaveSocket(g) =>
      if MediaAt(w, g, Leaving) then w.(b := ClearControlConn(w.b, g), media := w.media[g := MediaChecking]) else w
    case MediaChecks(g) =>
      if MediaAt(w, g, MediaChecking) then
        w.(media := w.media[g := if g in w.b.cancelled then MediaDone else MediaReporting])
      else w
    case MediaReports(g, error) =>
      if MediaAt(w, g, MediaReporting) then Reported(w, g, error).(media := w.media[g := MediaDone]) else w
    case ProcessExits(g) => if WaiterAt(w, g, Waiting) then w.(waiters := w.waiters[g := WaiterChecking]) else w
    case WaiterChecks(g) =>
      if WaiterAt(w, g, WaiterChecking) then
        w.(waiters := w.waiters[g := if g in w.b.cancelled then WaiterDone else WaiterReporting])
      else w
    case WaiterReports(g, error) =>
      if WaiterAt(w, g, WaiterReporting) then Reported(w, g, error).(waiters := w.waiters[g := WaiterDone]) else w
    case Publish(i) =>
      if i < |w.publishing| then
        w.(publishing := w.publishing[..i] + w.publishing[i + 1..], published := w.published + [w.publishing[i]])
      else w
  }

  function Run(events: seq<Event>): World {
    if events == [] then QUIET else Step(Run(events[..|events| - 1]), events[|events| - 1])
  }

  // ---------------------------------------------------------------- the invariant

  predicate Distinct(s: seq<Launch>) {
    forall i, j | 0 <= i < j < |s| :: s[i] != s[j]
  }

  predicate LatestOnly<T>(b: Bridge, x: Option<From<T>>) {
    x.Some? ==> x.value.launch + 1 == b.launches
  }

  /** What every section under the lock keeps. */
  ghost predicate Sound(b: Bridge) {
    && (b.process.Some? ==> b.process.value + 1 == b.launches)
    && b.streamCancel == b.process
    && (b.videoReady.Some? ==> b.videoReady == b.process)
    && (b.controlConn.Some? ==> b.controlConn == b.process)
    && LatestOnly(b, b.videoCodec) && LatestOnly(b, b.captureErr)
    && (b.captureErr.Some? ==> b.process.None? && EndedAs(b, b.captureErr.value.launch, Failed))
    && Distinct(b.closed)
    && (forall g: nat :: g in b.closed <==> g < b.launches && b.videoReady != Some(g))
    && (forall g: nat :: g in b.ended <==> g < b.launches && b.process != Some(g))
    && (forall g: nat :: g < b.launches && b.process != Some(g) ==> g in b.cancelled)
  }

  predicate EndedAs(b: Bridge, g: Launch, why: Ending) {
    g in b.ended && b.ended[g] == why
  }

  /** Failures to publish and published ones are of different launches, which all ended by failing. */
  ghost predicate ReportsFit(w: World) {
    Distinct(w.published + w.publishing) && forall g | g in w.published + w.publishing :: EndedAs(w.b, g, Failed)
  }

  lemma AppendOne(s: seq<Launch>, l: Option<Launch>)
    requires Distinct(s) && (l.Some? ==> l.value !in s)
    ensures Distinct(s + AsSeq(l))
    ensures forall g :: g in s + AsSeq(l) <==> g in s || l == Some(g)
  {
  }

  /** Endings are final. */
  ghost predicate EndingsKept(b: Bridge, c: Bridge) {
    forall g, e | EndedAs(b, g, e) :: EndedAs(c, g, e)
  }

  lemma StopSound(b: Bridge, why: Ending)
    requires Sound(b)
    ensures Sound(StopLocked(b, why)) && EndingsKept(b, StopLocked(b, why))
    ensures b.process.Some? ==> EndedAs(StopLocked(b, why), b.process.value, why)
  {
    AppendOne(b.closed, b.videoReady);
  }

  lemma StartLockedSound(b: Bridge, options: Options, launched: bool)
    requires Sound(b) && b.process.None?
    ensures Sound(StartLocked(b, options, launched)) && EndingsKept(b, StartLocked(b, options, launched))
  {
  }

  lemma StartSound(b: Bridge, options: Options, stops: bool, launched: bool)
    requires Sound(b)
    ensures Sound(Start(b, options, stops, launched)) && EndingsKept(b, Start(b, options, stops, launched))
  {
    hide StopLocked, StartLocked, SameCapture;
    if b.process.None? {
      StartLockedSound(b, options, launched);
    } else {
      StopSound(b, Replaced);
      StoppedIsIdle(b, Replaced);
      StartLockedSound(StopLocked(b, Replaced), options, launched);
    }
  }

  lemma StoppedIsIdle(b: Bridge, why: Ending)
    ensures StopLocked(b, why).process.None? && StopLocked(b, why).launches == b.launches
  {
  }

  lemma FailedSound(b: Bridge, g: Launch, error: string)
    requires Sound(b)
    ensures Sound(CaptureFailed(b, g, error)) && EndingsKept(b, CaptureFailed(b, g, error))
    ensures b.process == Some(g) ==> EndedAs(CaptureFailed(b, g, error), g, Failed) && g !in b.ended
  {
    if b.process == Some(g) {
      StopSound(b, Failed);
      assert CaptureFailed(b, g, error) == StopLocked(b, Failed).(captureErr := Some(From(g, error)));
    }
  }

  lemma ConfigureSound(b: Bridge, g: Launch, codec: string)
    requires Sound(b)
    ensures Sound(Configure(b, g, codec)) && EndingsKept(b, Configure(b, g, codec))
  {
    AppendOne(b.closed, b.videoReady);
  }

  lemma ControlSound(b: Bridge, g: Launch)
    requires Sound(b) && g < b.launches
    ensures Sound(SetControlConn(b, g)) && EndingsKept(b, SetControlConn(b, g))
    ensures Sound(ClearControlConn(b, g)) && EndingsKept(b, ClearControlConn(b, g))
  {
  }

  lemma CancelSound(b: Bridge, g: Launch)
    requires Sound(b)
    ensures Sound(b.(cancelled := b.cancelled + {g})) && EndingsKept(b, b.(cancelled := b.cancelled + {g}))
  {
  }

  lemma ResizeSound(b: Bridge, g: Launch, width: int, height: int)
    requires Sound(b)
    ensures Sound(Resize(b, g, width, height)) && EndingsKept(b, Resize(b, g, width, height))
  {
  }

  // ---------------------------------------------------------------- every step keeps it

  /** Goroutines belong to launches that happened. */
  ghost predicate Rooted(w: World) {
    (forall g | g in w.media :: g < w.b.launches) && (forall g | g in w.waiters :: g < w.b.launches)
  }

  ghost predicate Safe(w: World) {
    Sound(w.b) && ReportsFit(w) && Rooted(w)
  }

  lemma ReportsStay(w: World, v: World)
    requires ReportsFit(w) && v.publishing == w.publishing && v.published == w.published && EndingsKept(w.b, v.b)
    ensures ReportsFit(v)
  {
  }

  lemma ReportedSafe(w: World, g: Launch, error: string)
    requires Safe(w)
    ensures Safe(Reported(w, g, error)) && EndingsKept(w.b, Reported(w, g, error).b)
    ensures Reported(w, g, error).media == w.media && Reported(w, g, error).waiters == w.waiters
    ensures Reported(w, g, error).b.launches == w.b.launches
  {
    hide Sound;
    var v := Reported(w, g, error);
    FailedSound(w.b, g, error);
    if w.b.process == Some(g) {
      var all := w.published + w.publishing;
      assert v.published + v.publishing == all + AsSeq(Some(g));
      assert !EndedAs(w.b, g, Failed);
      AppendOne(all, Some(g));
    } else {
      ReportsStay(w, v);
    }
  }

  lemma PublishSafe(w: World, i: nat)
    requires ReportsFit(w) && i < |w.publishing|
    ensures ReportsFit(Step(w, Publish(i)))
  {
    var v := Step(w, Publish(i));
    var all, moved, n := w.published + w.publishing, v.published + v.publishing, |w.published|;
    assert forall k | 0 <= k < |moved| ::
      moved[k] == all[if k < n then k else if k == n then n + i else if k - n - 1 < i then k - 1 else k];
    forall g | g in moved ensures EndedAs(v.b, g, Failed) { assert g in all; }
  }

  lemma StepSafe(w: World, e: Event)
    requires Safe(w)
    ensures Safe(Step(w, e)) && EndingsKept(w.b, Step(w, e).b)
  {
    hide Sound, Start, StopLocked, CaptureFailed, Configure, SetControlConn, ClearControlConn, ReportsFit;
    hide EndedAs, Reported;
    var v := Step(w, e);
    match e
    case StartCall(options, stops, launched) =>
      StartSound(w.b, options, stops, launched);
      ReportsStay(w, v);
    case StopCall =>
      StopSound(w.b, Stopped);
      StoppedIsIdle(w.b, Stopped);
      ReportsStay(w, v);
    case ParentDone(g) =>
      CancelSound(w.b, g);
      ReportsStay(w, v);
    case Attach(g) =>
      if MediaAt(w, g, Connecting) { ControlSound(w.b, g); }
      ReportsStay(w, v);
    case ConfigPacket(g, codec) =>
      ConfigureSound(w.b, g, codec);
      ReportsStay(w, v);
    case SessionPacket(g, width, height) =>
      ResizeSound(w.b, g, width, height);
      ReportsStay(w, v);
    case LeaveSocket(g) =>
      if MediaAt(w, g, Leaving) { ControlSound(w.b, g); }
      ReportsStay(w, v);
    case MediaReports(g, error) =>
      ReportedSafe(w, g, error);
      if MediaAt(w, g, MediaReporting) { ReportsStay(Reported(w, g, error), v); } else { ReportsStay(w, v); }
    case WaiterReports(g, error) =>
      ReportedSafe(w, g, error);
      if WaiterAt(w, g, WaiterReporting) { ReportsStay(Reported(w, g, error), v); } else { ReportsStay(w, v); }
    case Publish(i) => if i < |w.publishing| { PublishSafe(w, i); }
    case _ => ReportsStay(w, v);
  }

  // ---------------------------------------------------------------- the theorems

  lemma {:induction false} RunsAreSafe(events: seq<Event>)
    ensures Safe(Run(events))
  {
    hide Step, Safe;
    if events == [] {
      QuietIsSafe();
    } else {
      RunsAreSafe(events[..|events| - 1]);
      StepSafe(Run(events[..|events| - 1]), events[|events| - 1]);
    }
  }

  lemma QuietIsSafe()
    ensures Safe(QUIET)
  {
  }

  lemma {:induction false} EndingsAreFinal(events: seq<Event>, i: nat)
    requires i <= |events|
    ensures EndingsKept(Run(events[..i]).b, Run(events).b)
  {
    hide Step, Safe, EndedAs;
    if i < |events| {
      var front := events[..|events| - 1];
      assert front[..i] == events[..i];
      EndingsAreFinal(front, i);
      RunsAreSafe(front);
      StepSafe(Run(front), events[|events| - 1]);
    } else {
      assert events[..i] == events;
    }
  }

  /** In every interleaving each launch is reported failed at most once. */
  lemma ReportedOnce(events: seq<Event>)
    ensures Distinct(Run(events).published)
  {
    hide Run;
    RunsAreSafe(events);
    PublishedDistinct(Run(events));
  }

  /**
   * In every interleaving a launch is reported failed only if it was still running when its failure was recorded: a
   * launch that was stopped or replaced first is never reported.
   */
  lemma NeverReportedAfterStop(events: seq<Event>, i: nat, g: Launch)
    requires i <= |events| && (EndedAs(Run(events[..i]).b, g, Stopped) || EndedAs(Run(events[..i]).b, g, Replaced))
    ensures g !in Run(events).published && g !in Run(events).publishing
  {
    hide Step, Sound, Run;
    RunsAreSafe(events);
    EndingsAreFinal(events, i);
    var w := Run(events);
    assert forall h | h in w.published + w.publishing :: EndedAs(w.b, h, Failed);
    assert !EndedAs(w.b, g, Failed);
    PublishedDistinct(w);
  }

  lemma PublishedDistinct(w: World)
    requires ReportsFit(w)
    ensures Distinct(w.published)
    ensures forall g | g in w.published || g in w.publishing :: g in w.published + w.publishing
  {
    var all := w.published + w.publishing;
    assert forall k | 0 <= k < |w.published| :: all[k] == w.published[k];
  }

  /** A codec, an error and a control socket always stem from the latest launch, the socket from the running one. */
  lemma FieldsStemFromTheLatest(events: seq<Event>)
    ensures
      var b := Run(events).b;
      && LatestOnly(b, b.videoCodec) && LatestOnly(b, b.captureErr)
      && (b.controlConn.Some? ==> b.controlConn == b.process)
      && (b.process.Some? ==> b.process.value + 1 == b.launches)
      && (b.captureErr.Some? ==> EndedAs(b, b.captureErr.value.launch, Failed))
  {
    hide Run;
    RunsAreSafe(events);
  }

  /** The ready channel of a launch is closed at most once, and exactly once by the time the launch has ended. */
  lemma ReadyClosedOnce(events: seq<Event>, g: Launch)
    ensures Distinct(Run(events).b.closed)
    ensures g < Run(events).b.launches && Run(events).b.process != Some(g) ==> g in Run(events).b.closed
    ensures g in Run(events).b.closed ==> Run(events).b.videoReady != Some(g)
  {
    hide Run;
    RunsAreSafe(events);
  }

  // ---------------------------------------------------------------- the frame size, which is not guarded

  /** The world after further events. */
  function RunFrom(w: World, events: seq<Event>): World {
    if events == [] then w else Step(RunFrom(w, events[..|events| - 1]), events[|events| - 1])
  }

  /** The frame size is as it was, or was set by a launch or one of its successors. */
  predicate SizeSince(w: World, v: World, g: Launch) {
    v.b.size == w.b.size || (v.b.size.Some? && v.b.size.value.launch >= g)
  }

  /** Launches before one are over, and none of their goroutines is streaming, nor will be. */
  predicate Quiet(w: World, g: Launch) {
    forall h: nat | h < g :: h in w.b.cancelled && !MediaAt(w, h, Streaming)
  }

  lemma SizeKept(b: Bridge, g: Launch, options: Options, stops: bool, launched: bool, why: Ending, text: string)
    ensures Start(b, options, stops, launched).size == b.size && StopLocked(b, why).size == b.size
    ensures CaptureFailed(b, g, text).size == b.size && Configure(b, g, text).size == b.size
    ensures SetControlConn(b, g).size == b.size && ClearControlConn(b, g).size == b.size
  {
  }

  lemma CancelledKept(b: Bridge, g: Launch, options: Options, stops: bool, launched: bool, why: Ending, text: string)
    ensures b.cancelled <= Start(b, options, stops, launched).cancelled && b.cancelled <= StopLocked(b, why).cancelled
    ensures b.cancelled <= CaptureFailed(b, g, text).cancelled && b.cancelled <= Configure(b, g, text).cancelled
    ensures b.cancelled <= SetControlConn(b, g).cancelled && b.cancelled <= ClearControlConn(b, g).cancelled
  {
  }

  /** A step keeps earlier launches quiet, and sets no size of theirs. */
  lemma QuietStep(w: World, e: Event, g: Launch)
    requires Quiet(w, g) && g <= w.b.launches
    ensures Quiet(Step(w, e), g) && g <= Step(w, e).b.launches && SizeSince(w, Step(w, e), g)
  {
    hide Start, StopLocked, CaptureFailed, Configure, SetControlConn, ClearControlConn;
    match e {
      case StartCall(options, stops, launched) =>
        SizeKept(w.b, 0, options, stops, launched, Stopped, "");
        CancelledKept(w.b, 0, options, stops, launched, Stopped, "");
      case StopCall =>
        SizeKept(w.b, 0, NO_OPTIONS, true, true, Stopped, "");
        CancelledKept(w.b, 0, NO_OPTIONS, true, true, Stopped, "");
      case ParentDone(h) =>
      case SessionPacket(h, width, height) =>
      case Attach(h) =>
        SizeKept(w.b, h, NO_OPTIONS, true, true, Stopped, "");
        CancelledKept(w.b, h, NO_OPTIONS, true, true, Stopped, "");
      case ConfigPacket(h, codec) =>
        SizeKept(w.b, h, NO_OPTIONS, true, true, Stopped, codec);
        CancelledKept(w.b, h, NO_OPTIONS, true, true, Stopped, codec);
      case LeaveSocket(h) =>
        SizeKept(w.b, h, NO_OPTIONS, true, true, Stopped, "");
        CancelledKept(w.b, h, NO_OPTIONS, true, true, Stopped, "");
      case MediaReports(h, error) =>
        SizeKept(w.b, h, NO_OPTIONS, true, true, Stopped, error);
        CancelledKept(w.b, h, NO_OPTIONS, true, true, Stopped, error);
      case WaiterReports(h, error) =>
        SizeKept(w.b, h, NO_OPTIONS, true, true, Stopped, error);
        CancelledKept(w.b, h, NO_OPTIONS, true, true, Stopped, error);
      case _ =>
    }
    forall h: nat | h < g ensures h in Step(w, e).b.cancelled && !MediaAt(Step(w, e), h, Streaming) {
      assert h in w.b.cancelled && !MediaAt(w, h, Streaming);
    }
  }

  lemma {:induction false} QuietForever(w: World, events: seq<Event>, g: Launch)
    requires Quiet(w, g) && g <= w.b.launches
    ensures Quiet(RunFrom(w, events), g) && g <= RunFrom(w, events).b.launches && SizeSince(w, RunFrom(w, events), g)
  {
    hide Step, Quiet;
    if events != [] {
      QuietForever(w, events[..|events| - 1], g);
      QuietStep(RunFrom(w, events[..|events| - 1]), events[|events| - 1], g);
    }
  }

  /** A launch that is still streaming sets the frame size, whatever was launched after it. */
  lemma StreamingSetsSize(w: World, h: Launch, width: int, height: int)
    requires MediaAt(w, h, Streaming)
    ensures RunFrom(w, [SessionPacket(h, width, height)]).b.size == Some(From(h, (width, height)))
  {
    var es := [SessionPacket(h, width, height)];
    assert RunFrom(w, es[..0]) == w && es[|es| - 1] == es[0];
  }

  /**
   * From every state that is reached, and for every launch that happened: no continuation lets an earlier launch set
   * the frame size if and only if none of the earlier launches' goroutines is streaming.
   */
  lemma StaleSizeExactly(events: seq<Event>, g: Launch)
    requires g < Run(events).b.launches
    ensures
      var w := Run(events);
      (forall more :: SizeSince(w, RunFrom(w, more), g)) <==> (forall h: nat | h < g :: !MediaAt(w, h, Streaming))
  {
    hide Run, Step, MediaAt, RunFrom;
    var w := Run(events);
    RunsAreSafe(events);
    EarlierAreOver(w, g);
    if h: nat :| h < g && MediaAt(w, h, Streaming) {
      var width := if w.b.size.Some? then w.b.size.value.value.0 + 1 else 0;
      StreamingSetsSize(w, h, width, 0);
      assert !SizeSince(w, RunFrom(w, [SessionPacket(h, width, 0)]), g);
    } else {
      forall more ensures SizeSince(w, RunFrom(w, more), g) { QuietForever(w, more, g); }
    }
  }

  lemma EarlierAreOver(w: World, g: Launch)
    requires Safe(w) && g < w.b.launches
    ensures forall h: nat | h < g :: h in w.b.cancelled
  {
  }

  /** And a stale launch that is streaming is reached: a second launch while the first one's goroutine still reads. */
  lemma StaleSizeIsReached(first: Options, second: Options)
    requires !second.preview || second.reconfigure
    requires second.powerOff != first.powerOff || second.debug != first.debug || second.arguments != first.arguments
    ensures
      var w := Run([StartCall(first, true, true), Attach(0), StartCall(second, true, true)]);
      MediaAt(w, 0, Streaming) && w.b.process == Some(1) && w.b.launches == 2
  {
    var es := [StartCall(first, true, true), Attach(0), StartCall(second, true, true)];
    assert es[..2][..1] == es[..1] && es[..1][..0] == [];
    assert Run(es[..1]) == Step(QUIET, es[0]);
    assert Run(es[..2]) == Step(Run(es[..1]), es[1]);
  }
}

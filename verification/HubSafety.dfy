/** The hub under its browsers' sessions, in any interleaving of their steps. */
module HubSafety {
  import opened HubModel

  // ---------------------------------------------------------------- the invariant of the hub

  predicate Populated(m: map<DeviceId, set<BrowserId>>, browsers: set<BrowserId>) {
    forall d | d in m :: m[d] != {} && m[d] <= browsers
  }

  predicate RequestsFit(h: Hub, d: DeviceId)
    requires d in h.previewRequests
  {
    d in h.previewSubscribers && h.previewRequests[d].Keys <= h.previewSubscribers[d]
    && DistinctOrders(h.previewRequests[d])
    && forall b | b in h.previewRequests[d] :: h.previewRequests[d][b].order <= h.previewOrder
  }

  /**
   * No empty set of subscribers is kept, subscribers are registered browsers, those with a request are subscribers,
   * and no two requests for a device are equally new.
   */
  predicate Sound(h: Hub) {
    Populated(h.previewSubscribers, h.browsers) && Populated(h.audioSubscribers, h.browsers)
    && forall d | d in h.previewRequests :: RequestsFit(h, d)
  }

  lemma SubscribePreviewSound(h: Hub, b: BrowserId, d: DeviceId)
    requires Sound(h)
    ensures Sound(SubscribePreview(h, b, d))
  {
    hide DistinctOrders;
    var r := SubscribePreview(h, b, d);
    forall e | e in r.previewRequests ensures RequestsFit(r, e) { assert RequestsFit(h, e); }
  }

  lemma RequestSound(h: Hub, b: BrowserId, d: DeviceId, m: Message)
    requires Sound(h) && d in h.previewSubscribers && b in h.previewSubscribers[d]
    ensures Sound(SetPreviewRequest(h, b, d, m))
  {
    var r := SetPreviewRequest(h, b, d, m);
    forall e | e in r.previewRequests ensures RequestsFit(r, e) {
      if e in h.previewRequests { assert RequestsFit(h, e); }
    }
  }

  lemma LessDistinct(m: map<BrowserId, Request>, b: BrowserId)
    requires DistinctOrders(m)
    ensures DistinctOrders(m - {b})
  {
  }

  lemma UnsubscribePreviewSound(h: Hub, b: BrowserId, d: DeviceId)
    requires Sound(h)
    ensures Sound(UnsubscribePreview(h, b, d)) && b !in Members(UnsubscribePreview(h, b, d).previewSubscribers, d)
  {
    hide DistinctOrders;
    var r := UnsubscribePreview(h, b, d);
    forall e | e in r.previewRequests ensures RequestsFit(r, e) {
      assert RequestsFit(h, e);
      LessDistinct(h.previewRequests[e], b);
    }
  }

  lemma RemoveBrowserSound(h: Hub, b: BrowserId)
    requires Sound(h) && forall d | d in h.audioSubscribers :: b !in h.audioSubscribers[d]
    ensures Sound(RemoveBrowser(h, b)) && Absent(RemoveBrowser(h, b), b)
  {
    hide DistinctOrders;
    var r := RemoveBrowser(h, b);
    forall d | d in r.previewSubscribers
      ensures r.previewSubscribers[d] != {} && r.previewSubscribers[d] <= r.browsers
    {
      NotOnly(h.previewSubscribers[d], b);
    }
    forall e | e in r.previewRequests ensures RequestsFit(r, e) && b !in r.previewRequests[e] {
      assert RequestsFit(h, e);
      LessDistinct(h.previewRequests[e], b);
    }
  }

  lemma NotOnly(s: set<BrowserId>, b: BrowserId)
    ensures s != {} && s != {b} ==> s - {b} != {}
  {
    if s - {b} == {} {
      assert forall x | x in s :: x in s - {b} || x == b;
      assert s == if b in s then {b} else {};
    }
  }

  /** A browser appears nowhere in the hub. */
  predicate Absent(h: Hub, b: BrowserId) {
    b !in h.browsers
    && (forall d | d in h.previewSubscribers :: b !in h.previewSubscribers[d])
    && (forall d | d in h.audioSubscribers :: b !in h.audioSubscribers[d])
    && (forall d | d in h.previewRequests :: b !in h.previewRequests[d])
  }

  /** What does not concern previews keeps what is said about them. */
  lemma PreviewsKept(h: Hub, r: Hub)
    requires Sound(h) && r.previewSubscribers == h.previewSubscribers && r.previewRequests == h.previewRequests
    requires r.previewOrder == h.previewOrder && h.browsers <= r.browsers && Populated(r.audioSubscribers, r.browsers)
    ensures Sound(r)
  {
    hide DistinctOrders;
    forall e | e in r.previewRequests ensures RequestsFit(r, e) { assert RequestsFit(h, e); }
  }

  lemma AudioSound(h: Hub, b: BrowserId, d: DeviceId)
    requires Sound(h)
    ensures Sound(SubscribeAudio(h, b, d)) && Sound(UnsubscribeAudio(h, b, d).0) && Sound(RemoveAudioBrowser(h, b).0)
  {
    hide RequestsFit;
    PreviewsKept(h, SubscribeAudio(h, b, d));
    PreviewsKept(h, UnsubscribeAudio(h, b, d).0);
    PreviewsKept(h, RemoveAudioBrowser(h, b).0);
  }

  // ---------------------------------------------------------------- when the last listener leaves

  /** Unsubscribing reports a device exactly when the browser was its only listener; then nobody listens any more. */
  lemma LastListenerLeft(h: Hub, b: BrowserId, d: DeviceId)
    requires Sound(h)
    ensures UnsubscribeAudio(h, b, d).1 <==> Members(h.audioSubscribers, d) == {b}
    ensures UnsubscribeAudio(h, b, d).1 ==> d !in UnsubscribeAudio(h, b, d).0.audioSubscribers
    ensures Members(UnsubscribeAudio(h, b, d).0.audioSubscribers, d) == Members(h.audioSubscribers, d) - {b}
  {
    hide RequestsFit;
    NotOnly(Members(h.audioSubscribers, d), b);
  }

  /** Removing a browser reports exactly the devices it alone listened to. */
  lemma RemovalReportsLastListeners(h: Hub, b: BrowserId)
    requires Sound(h)
    ensures forall d :: d in RemoveAudioBrowser(h, b).1 <==> Members(h.audioSubscribers, d) == {b}
    ensures forall d :: Members(RemoveAudioBrowser(h, b).0.audioSubscribers, d) == Members(h.audioSubscribers, d) - {b}
  {
    hide RequestsFit;
    forall d ensures d in RemoveAudioBrowser(h, b).1 <==> Members(h.audioSubscribers, d) == {b} {
      NotOnly(Members(h.audioSubscribers, d), b);
    }
  }

  // ---------------------------------------------------------------- sessions

  /** Where a browser's goroutine is. */
  datatype Session =
    | Open
    | Previewing(device: DeviceId, message: Message)
    | AskedAudio(device: DeviceId)
    | Leaving

  datatype World = World(hub: Hub, sessions: map<BrowserId, Session>, seen: set<BrowserId>)

  datatype Event =
    | Join(b: BrowserId)
    | StartPreview(b: BrowserId, device: DeviceId, message: Message)
    | FilePreview(b: BrowserId)
    | StopPreview(b: BrowserId, device: DeviceId)
    | StartAudio(b: BrowserId, device: DeviceId)
    | AudioAnswered(b: BrowserId, online: bool)
    | StopAudio(b: BrowserId, device: DeviceId)
    | LeaveAudio(b: BrowserId)
    | Leave(b: BrowserId)

  function At(w: World, b: BrowserId): Session {
    if b in w.sessions then w.sessions[b] else Leaving
  }

  function To(w: World, b: BrowserId, h: Hub, s: Session): World {
    w.(hub := h, sessions := w.sessions[b := s])
  }

  /** One step of a browser's session, which the server takes under one of the hub's locks. */
  function Step(w: World, e: Event): World {
    var h, b, s := w.hub, e.b, At(w, e.b);
    match e
    case Join(_) =>
      if b in w.seen then w else To(w.(seen := w.seen + {b}), b, h.(browsers := h.browsers + {b}), Open)
    case StartPreview(_, d, m) => if s.Open? then To(w, b, SubscribePreview(h, b, d), Previewing(d, m)) else w
    case FilePreview(_) => if s.Previewing? then To(w, b, SetPreviewRequest(h, b, s.device, s.message), Open) else w
    case StopPreview(_, d) => if s.Open? then To(w, b, UnsubscribePreview(h, b, d), Open) else w
    case StartAudio(_, d) => if s.Open? then To(w, b, SubscribeAudio(h, b, d), AskedAudio(d)) else w
    case AudioAnswered(_, online) =>
      if !s.AskedAudio? then w else To(w, b, if online then h else UnsubscribeAudio(h, b, s.device).0, Open)
    case StopAudio(_, d) => if s.Open? then To(w, b, UnsubscribeAudio(h, b, d).0, Open) else w
    case LeaveAudio(_) => if s.Open? then To(w, b, RemoveAudioBrowser(h, b).0, Leaving) else w
    case Leave(_) =>
      if b in w.sessions && s.Leaving? then w.(hub := RemoveBrowser(h, b), sessions := w.sessions - {b}) else w
  }

  function Run(events: seq<Event>): World {
    if events == [] then World(EMPTY, map[], {}) else Step(Run(events[..|events| - 1]), events[|events| - 1])
  }

  /** A browser that is about to file a request is subscribed, and one that is leaving listens to nothing. */
  predicate SessionFits(h: Hub, b: BrowserId, s: Session) {
    b in h.browsers
    && (s.Previewing? ==> b in Members(h.previewSubscribers, s.device))
    && (s.Leaving? ==> forall d | d in h.audioSubscribers :: b !in h.audioSubscribers[d])
  }

  predicate Safe(w: World) {
    Sound(w.hub) && w.sessions.Keys <= w.seen && w.hub.browsers <= w.sessions.Keys
    && forall b | b in w.sessions :: SessionFits(w.hub, b, w.sessions[b])
  }

  /** A step of one browser takes nothing from another: not its registration, its previews or its silence. */
  ghost predicate LeavesAlone(h: Hub, r: Hub, b: BrowserId) {
    (forall c | c != b && c in h.browsers :: c in r.browsers)
    && (forall d, c | c != b && c in Members(h.previewSubscribers, d) :: c in Members(r.previewSubscribers, d))
    && (forall d, c | c != b && c in Members(r.audioSubscribers, d) :: c in Members(h.audioSubscribers, d))
  }

  lemma PreviewLeavesAlone(h: Hub, b: BrowserId, d: DeviceId, m: Message)
    ensures LeavesAlone(h, SubscribePreview(h, b, d), b) && LeavesAlone(h, UnsubscribePreview(h, b, d), b)
    ensures LeavesAlone(h, SetPreviewRequest(h, b, d, m), b)
  {
  }

  lemma AudioLeavesAlone(h: Hub, b: BrowserId, d: DeviceId)
    ensures LeavesAlone(h, SubscribeAudio(h, b, d), b) && LeavesAlone(h, UnsubscribeAudio(h, b, d).0, b)
    ensures LeavesAlone(h, RemoveAudioBrowser(h, b).0, b)
  {
  }

  lemma RemovalLeavesAlone(h: Hub, b: BrowserId)
    ensures LeavesAlone(h, RemoveBrowser(h, b), b)
  {
  }

  lemma OthersFit(h: Hub, r: Hub, b: BrowserId, c: BrowserId, s: Session)
    requires SessionFits(h, c, s) && LeavesAlone(h, r, b) && c != b
    ensures SessionFits(r, c, s)
  {
    if s.Leaving? {
      forall d | d in r.audioSubscribers ensures c !in r.audioSubscribers[d] {
        assert c in Members(r.audioSubscribers, d) ==> c in Members(h.audioSubscribers, d);
      }
    }
  }

  /** A step that keeps the hub sound and leaves the others alone is safe if the browser's own session fits. */
  lemma MoveSafe(w: World, b: BrowserId, r: Hub, s: Session)
    requires Safe(w) && Sound(r) && LeavesAlone(w.hub, r, b) && SessionFits(r, b, s)
    requires b in w.seen && r.browsers <= w.hub.browsers + {b}
    ensures Safe(To(w, b, r, s))
  {
    hide Sound, LeavesAlone, SessionFits;
    var v := To(w, b, r, s);
    forall c | c in v.sessions ensures SessionFits(v.hub, c, v.sessions[c]) {
      if c != b { OthersFit(w.hub, r, b, c, w.sessions[c]); }
    }
  }

  lemma FitsAt(w: World, b: BrowserId)
    requires Safe(w)
    ensures At(w, b).Leaving? || (b in w.sessions && b in w.seen && b in w.hub.browsers)
    ensures b in w.sessions ==> SessionFits(w.hub, b, w.sessions[b]) && b in w.seen && b in w.hub.browsers
  {
  }

  lemma StepSafe(w: World, e: Event)
    requires Safe(w)
    ensures Safe(Step(w, e))
  {
    hide Safe, Sound, LeavesAlone, SubscribeAudio, UnsubscribeAudio, RemoveAudioBrowser, SubscribePreview;
    hide UnsubscribePreview, SetPreviewRequest, RemoveBrowser;
    var h, b, s := w.hub, e.b, At(w, e.b);
    SafeSound(w);
    FitsAt(w, b);
    match e
    case Join(_) => JoinSafe(w, b);
    case StartPreview(_, d, m) => if s.Open? { StartPreviewSafe(w, b, d, m); }
    case FilePreview(_) => if s.Previewing? { FilePreviewSafe(w, b); }
    case StopPreview(_, d) => if s.Open? { StopPreviewSafe(w, b, d); }
    case StartAudio(_, d) => if s.Open? { AudioStepSafe(w, b, SubscribeAudio(h, b, d), d, AskedAudio(d)); }
    case AudioAnswered(_, online) =>
      if s.AskedAudio? {
        AudioStepSafe(w, b, if online then h else UnsubscribeAudio(h, b, s.device).0, s.device, Open);
      }
    case StopAudio(_, d) => if s.Open? { AudioStepSafe(w, b, UnsubscribeAudio(h, b, d).0, d, Open); }
    case LeaveAudio(_) => if s.Open? { LeaveAudioSafe(w, b); }
    case Leave(_) => if b in w.sessions && s.Leaving? { LeaveSafe(w, b); }
  }

  lemma SafeSound(w: World)
    requires Safe(w)
    ensures Sound(w.hub)
  {
  }

  lemma JoinSafe(w: World, b: BrowserId)
    requires Safe(w)
    ensures Safe(Step(w, Join(b)))
  {
    if b !in w.seen {
      hide RequestsFit;
      var r := w.hub.(browsers := w.hub.browsers + {b});
      var v := w.(seen := w.seen + {b});
      PreviewsKept(w.hub, r);
      MoveSafe(v, b, r, Open);
    }
  }

  lemma StartPreviewSafe(w: World, b: BrowserId, d: DeviceId, m: Message)
    requires Safe(w) && At(w, b).Open?
    ensures Safe(To(w, b, SubscribePreview(w.hub, b, d), Previewing(d, m)))
  {
    hide Sound, LeavesAlone;
    FitsAt(w, b);
    SubscribePreviewSound(w.hub, b, d);
    PreviewLeavesAlone(w.hub, b, d, m);
    MoveSafe(w, b, SubscribePreview(w.hub, b, d), Previewing(d, m));
  }

  lemma FilePreviewSafe(w: World, b: BrowserId)
    requires Safe(w) && At(w, b).Previewing?
    ensures Safe(To(w, b, SetPreviewRequest(w.hub, b, At(w, b).device, At(w, b).message), Open))
  {
    hide Sound, LeavesAlone;
    var d, m := At(w, b).device, At(w, b).message;
    FitsAt(w, b);
    RequestSound(w.hub, b, d, m);
    PreviewLeavesAlone(w.hub, b, d, m);
    MoveSafe(w, b, SetPreviewRequest(w.hub, b, d, m), Open);
  }

  lemma StopPreviewSafe(w: World, b: BrowserId, d: DeviceId)
    requires Safe(w) && At(w, b).Open?
    ensures Safe(To(w, b, UnsubscribePreview(w.hub, b, d), Open))
  {
    hide Sound, LeavesAlone;
    FitsAt(w, b);
    UnsubscribePreviewSound(w.hub, b, d);
    PreviewLeavesAlone(w.hub, b, d, map[]);
    MoveSafe(w, b, UnsubscribePreview(w.hub, b, d), Open);
  }

  lemma AudioStepSafe(w: World, b: BrowserId, r: Hub, d: DeviceId, s: Session)
    requires Safe(w) && (At(w, b).Open? || At(w, b).AskedAudio?) && (s.Open? || s.AskedAudio?)
    requires r == w.hub || r == SubscribeAudio(w.hub, b, d) || r == UnsubscribeAudio(w.hub, b, d).0
    ensures Safe(To(w, b, r, s))
  {
    hide Sound;
    FitsAt(w, b);
    AudioSound(w.hub, b, d);
    AudioLeavesAlone(w.hub, b, d);
    MoveSafe(w, b, r, s);
  }

  lemma LeaveAudioSafe(w: World, b: BrowserId)
    requires Safe(w) && At(w, b).Open?
    ensures Safe(To(w, b, RemoveAudioBrowser(w.hub, b).0, Leaving))
  {
    hide Sound, LeavesAlone;
    FitsAt(w, b);
    AudioSound(w.hub, b, "");
    AudioLeavesAlone(w.hub, b, "");
    MoveSafe(w, b, RemoveAudioBrowser(w.hub, b).0, Leaving);
  }

  lemma LeaveSafe(w: World, b: BrowserId)
    requires Safe(w) && b in w.sessions && w.sessions[b].Leaving?
    ensures Safe(Step(w, Leave(b))) && Absent(Step(w, Leave(b)).hub, b)
  {
    hide Sound, LeavesAlone;
    var v := Step(w, Leave(b));
    FitsAt(w, b);
    RemoveBrowserSound(w.hub, b);
    RemovalLeavesAlone(w.hub, b);
    forall c | c in v.sessions ensures SessionFits(v.hub, c, v.sessions[c]) {
      OthersFit(w.hub, v.hub, b, c, w.sessions[c]);
    }
  }

  // ---------------------------------------------------------------- the theorems

  /** The hub's invariant holds in every interleaving of any number of sessions. */
  lemma {:induction false} HubIsAlwaysSound(events: seq<Event>)
    ensures Safe(Run(events)) && Sound(Run(events).hub)
  {
    hide Step, Sound;
    if events != [] {
      HubIsAlwaysSound(events[..|events| - 1]);
      StepSafe(Run(events[..|events| - 1]), events[|events| - 1]);
    } else {
      EmptySound();
    }
  }

  lemma EmptySound()
    ensures Sound(EMPTY)
  {
  }

  /** A browser whose session has ended is nowhere in the hub. */
  lemma GoneIsGone(events: seq<Event>, b: BrowserId)
    requires b !in Run(events).sessions
    ensures Absent(Run(events).hub, b)
  {
    hide Run;
    HubIsAlwaysSound(events);
    var h := Run(events).hub;
    forall d | d in h.previewRequests ensures b !in h.previewRequests[d] { assert RequestsFit(h, d); }
  }

  /** For every device with requests, exactly one of them is foremost, and it is one of a registered browser. */
  lemma ArbitrationIsUnique(events: seq<Event>, d: DeviceId)
    requires d in Run(events).hub.previewRequests && Run(events).hub.previewRequests[d] != map[]
    ensures
      var requests := Run(events).hub.previewRequests[d];
      (exists b :: Foremost(requests, b)) && (forall b, c | Foremost(requests, b) && Foremost(requests, c) :: b == c)
    ensures forall b | Foremost(Run(events).hub.previewRequests[d], b) :: b in Run(events).hub.browsers
  {
    hide Run, Wins, DistinctOrders;
    HubIsAlwaysSound(events);
    assert RequestsFit(Run(events).hub, d);
    OneWins(Run(events).hub.previewRequests[d]);
  }
}

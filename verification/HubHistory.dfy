/** What the hub holds, told from what the browsers did: who previews, who listens, and which request is filed. */
module HubHistory {
  import opened HubModel
  import opened HubSafety

  lemma RunNext(events: seq<Event>, k: nat)
    requires k < |events|
    ensures Run(events[..k + 1]) == Step(Run(events[..k]), events[k])
  {
    hide Step;
    assert events[..k + 1][..k] == events[..k];
  }

  /** The session of a browser before an event of a run. */
  function SessionAt(events: seq<Event>, k: nat, b: BrowserId): Session
    requires k <= |events|
  {
    At(Run(events[..k]), b)
  }

  // ---------------------------------------------------------------- previews

  /** Browser b asks for previews of device d, in its turn. */
  predicate AsksPreview(events: seq<Event>, k: nat, b: BrowserId, d: DeviceId)
    requires k < |events|
  {
    events[k].StartPreview? && events[k].b == b && events[k].device == d && SessionAt(events, k, b).Open?
  }

  /** It stops them, or its session ends. */
  predicate EndsPreview(events: seq<Event>, k: nat, b: BrowserId, d: DeviceId)
    requires k < |events|
  {
    && events[k].b == b
    && ((events[k].StopPreview? && events[k].device == d && SessionAt(events, k, b).Open?)
        || (events[k].Leave? && b in Run(events[..k]).sessions && SessionAt(events, k, b).Leaving?))
  }

  predicate Watches(h: Hub, b: BrowserId, d: DeviceId) {
    d in h.previewSubscribers && b in h.previewSubscribers[d]
  }

  predicate Previews(w: World, b: BrowserId, d: DeviceId) {
    Watches(w.hub, b, d)
  }

  lemma WatchOps(h: Hub, b: BrowserId, d: DeviceId, m: Message, c: BrowserId, e: DeviceId)
    ensures Watches(SubscribePreview(h, b, d), c, e) <==> Watches(h, c, e) || (c == b && e == d && b in h.browsers)
    ensures Watches(UnsubscribePreview(h, b, d), c, e) <==> Watches(h, c, e) && !(c == b && e == d)
    ensures Watches(RemoveBrowser(h, b), c, e) <==> Watches(h, c, e) && c != b
    ensures Watches(SetPreviewRequest(h, b, d, m), c, e) <==> Watches(h, c, e)
  {
    Without(h.previewSubscribers, b, c);
  }

  lemma Without(m: map<DeviceId, set<BrowserId>>, b: BrowserId, c: BrowserId)
    ensures forall d | d in m :: c in m[d] - {b} <==> c in m[d] && c != b
  {
  }

  lemma WatchAudioOps(h: Hub, b: BrowserId, d: DeviceId, c: BrowserId, e: DeviceId)
    ensures Watches(SubscribeAudio(h, b, d), c, e) <==> Watches(h, c, e)
    ensures Watches(UnsubscribeAudio(h, b, d).0, c, e) <==> Watches(h, c, e)
    ensures Watches(RemoveAudioBrowser(h, b).0, c, e) <==> Watches(h, c, e)
  {
  }

  lemma PreviewStep(events: seq<Event>, k: nat, b: BrowserId, d: DeviceId)
    requires k < |events| && Safe(Run(events[..k]))
    ensures Previews(Run(events[..k + 1]), b, d) <==>
      AsksPreview(events, k, b, d) || (Previews(Run(events[..k]), b, d) && !EndsPreview(events, k, b, d))
  {
    hide Run, Safe, Watches;
    hide SubscribePreview, UnsubscribePreview, SetPreviewRequest, RemoveBrowser, SubscribeAudio, UnsubscribeAudio;
    hide RemoveAudioBrowser;
    RunNext(events, k);
    var w, e := Run(events[..k]), events[k];
    FitsAt(w, e.b);
    var s := At(w, e.b);
    var o := if e.StartPreview? || e.StopPreview? || e.StartAudio? || e.StopAudio? then e.device
             else if s.Previewing? || s.AskedAudio? then s.device else "";
    WatchOps(w.hub, e.b, o, if s.Previewing? then s.message else map[], b, d);
    WatchAudioOps(w.hub, e.b, o, b, d);
    JoinKeeps(w.hub, e.b, b, d);
  }

  /** A browser that joins changes no subscription and no request. */
  lemma JoinKeeps(h: Hub, joined: BrowserId, b: BrowserId, d: DeviceId)
    ensures
      var r := h.(browsers := h.browsers + {joined});
      && (Watches(r, b, d) <==> Watches(h, b, d)) && (Hears(r, b, d) <==> Hears(h, b, d))
      && r.previewRequests == h.previewRequests
  {
  }

  /** A browser is sent the previews of a device if and only if it asked for them and has not stopped them since. */
  lemma {:induction false} PreviewsExactly(events: seq<Event>, n: nat, b: BrowserId, d: DeviceId)
    requires n <= |events|
    ensures Previews(Run(events[..n]), b, d) <==>
      exists i | 0 <= i < n :: AsksPreview(events, i, b, d) && forall j | i < j < n :: !EndsPreview(events, j, b, d)
  {
    hide Step, AsksPreview, EndsPreview, Safe;
    if n > 0 {
      PreviewsExactly(events, n - 1, b, d);
      HubIsAlwaysSound(events[..n - 1]);
      PreviewStep(events, n - 1, b, d);
      if Previews(Run(events[..n - 1]), b, d) {
        var i :| 0 <= i < n - 1 && AsksPreview(events, i, b, d)
          && forall j | i < j < n - 1 :: !EndsPreview(events, j, b, d);
        assert !EndsPreview(events, n - 1, b, d) ==> forall j | i < j < n :: !EndsPreview(events, j, b, d);
      }
    } else {
      assert events[..0] == [];
    }
  }

  // ---------------------------------------------------------------- audio

  predicate AsksAudio(events: seq<Event>, k: nat, b: BrowserId, d: DeviceId)
    requires k < |events|
  {
    events[k].StartAudio? && events[k].b == b && events[k].device == d && SessionAt(events, k, b).Open?
  }

  /** It stops listening, the device turns out to be offline, or its session ends. */
  predicate EndsAudio(events: seq<Event>, k: nat, b: BrowserId, d: DeviceId)
    requires k < |events|
  {
    && events[k].b == b
    && ((events[k].StopAudio? && events[k].device == d && SessionAt(events, k, b).Open?)
        || (events[k].AudioAnswered? && !events[k].online && SessionAt(events, k, b) == AskedAudio(d))
        || (events[k].LeaveAudio? && SessionAt(events, k, b).Open?))
  }

  predicate Hears(h: Hub, b: BrowserId, d: DeviceId) {
    d in h.audioSubscribers && b in h.audioSubscribers[d]
  }

  predicate Listens(w: World, b: BrowserId, d: DeviceId) {
    Hears(w.hub, b, d)
  }

  lemma HearOps(h: Hub, b: BrowserId, d: DeviceId, c: BrowserId, e: DeviceId)
    ensures Hears(SubscribeAudio(h, b, d), c, e) <==> Hears(h, c, e) || (c == b && e == d && b in h.browsers)
    ensures Hears(UnsubscribeAudio(h, b, d).0, c, e) <==> Hears(h, c, e) && !(c == b && e == d)
    ensures Hears(RemoveAudioBrowser(h, b).0, c, e) <==> Hears(h, c, e) && c != b
  {
    Without(h.audioSubscribers, b, c);
  }

  lemma HearPreviewOps(h: Hub, b: BrowserId, d: DeviceId, m: Message, c: BrowserId, e: DeviceId)
    ensures Hears(SubscribePreview(h, b, d), c, e) <==> Hears(h, c, e)
    ensures Hears(UnsubscribePreview(h, b, d), c, e) <==> Hears(h, c, e)
    ensures Hears(SetPreviewRequest(h, b, d, m), c, e) <==> Hears(h, c, e)
    ensures Hears(RemoveBrowser(h, b), c, e) <==> Hears(h, c, e)
  {
  }

  lemma AudioStep(events: seq<Event>, k: nat, b: BrowserId, d: DeviceId)
    requires k < |events| && Safe(Run(events[..k]))
    ensures Listens(Run(events[..k + 1]), b, d) <==>
      AsksAudio(events, k, b, d) || (Listens(Run(events[..k]), b, d) && !EndsAudio(events, k, b, d))
  {
    hide Run, Safe, Hears;
    hide SubscribePreview, UnsubscribePreview, SetPreviewRequest, RemoveBrowser, SubscribeAudio, UnsubscribeAudio;
    hide RemoveAudioBrowser;
    RunNext(events, k);
    var w, e := Run(events[..k]), events[k];
    FitsAt(w, e.b);
    var s := At(w, e.b);
    var o := if e.StartPreview? || e.StopPreview? || e.StartAudio? || e.StopAudio? then e.device
             else if s.Previewing? || s.AskedAudio? then s.device else "";
    HearOps(w.hub, e.b, o, b, d);
    HearPreviewOps(w.hub, e.b, o, if s.Previewing? then s.message else map[], b, d);
    JoinKeeps(w.hub, e.b, b, d);
  }

  /** A browser is sent the sound of a device if and only if it asked for it and has not stopped it since. */
  lemma {:induction false} ListensExactly(events: seq<Event>, n: nat, b: BrowserId, d: DeviceId)
    requires n <= |events|
    ensures Listens(Run(events[..n]), b, d) <==>
      exists i | 0 <= i < n :: AsksAudio(events, i, b, d) && forall j | i < j < n :: !EndsAudio(events, j, b, d)
  {
    hide Step, AsksAudio, EndsAudio, Safe;
    if n > 0 {
      ListensExactly(events, n - 1, b, d);
      HubIsAlwaysSound(events[..n - 1]);
      AudioStep(events, n - 1, b, d);
      if Listens(Run(events[..n - 1]), b, d) {
        var i :| 0 <= i < n - 1 && AsksAudio(events, i, b, d)
          && forall j | i < j < n - 1 :: !EndsAudio(events, j, b, d);
        assert !EndsAudio(events, n - 1, b, d) ==> forall j | i < j < n :: !EndsAudio(events, j, b, d);
      }
    } else {
      assert events[..0] == [];
    }
  }

  // ---------------------------------------------------------------- requests

  /** Browser b files the request it announced for device d. */
  predicate Files(events: seq<Event>, k: nat, b: BrowserId, d: DeviceId)
    requires k < |events|
  {
    && events[k].FilePreview? && events[k].b == b
    && SessionAt(events, k, b).Previewing? && SessionAt(events, k, b).device == d
  }

  /** The request of a browser for a device is the one it filed by some event. */
  predicate IsFiled(events: seq<Event>, n: nat, i: nat, b: BrowserId, d: DeviceId)
    requires i < |events| && n <= |events| && SessionAt(events, i, b).Previewing?
  {
    var requests := Run(events[..n]).hub.previewRequests;
    d in requests && b in requests[d]
    && requests[d][b].message == SessionAt(events, i, b).message["client_id" := Text(b)]
    && requests[d][b].order == OrderOf(events, i)
  }

  /** Requests are numbered in the order in which they are filed. */
  function OrderOf(events: seq<Event>, k: nat): nat
    requires k < |events|
  {
    Run(events[..k]).hub.previewOrder + 1
  }

  predicate Holds(h: Hub, b: BrowserId, d: DeviceId) {
    d in h.previewRequests && b in h.previewRequests[d]
  }

  predicate Filed(w: World, b: BrowserId, d: DeviceId) {
    Holds(w.hub, b, d)
  }

  /** What an operation keeps of the requests: all but those of one browser for some devices. */
  ghost predicate KeepsBut(h: Hub, r: Hub, c: BrowserId, e: DeviceId, dropped: bool) {
    && (Holds(r, c, e) <==> Holds(h, c, e) && !dropped)
    && (Holds(r, c, e) ==> r.previewRequests[e][c] == h.previewRequests[e][c])
  }

  lemma RequestOps(h: Hub, b: BrowserId, d: DeviceId, c: BrowserId, e: DeviceId)
    requires Holds(h, c, e) ==> Watches(h, c, e)
    ensures KeepsBut(h, SubscribePreview(h, b, d), c, e, false)
    ensures KeepsBut(h, UnsubscribePreview(h, b, d), c, e, c == b && e == d)
    ensures KeepsBut(h, RemoveBrowser(h, b), c, e, c == b)
  {
    Without(h.previewSubscribers, b, c);
  }

  lemma RequestAudioOps(h: Hub, b: BrowserId, d: DeviceId, c: BrowserId, e: DeviceId)
    ensures KeepsBut(h, SubscribeAudio(h, b, d), c, e, false)
    ensures KeepsBut(h, UnsubscribeAudio(h, b, d).0, c, e, false)
    ensures KeepsBut(h, RemoveAudioBrowser(h, b).0, c, e, false)
  {
  }

  lemma FileOp(h: Hub, b: BrowserId, d: DeviceId, m: Message, c: BrowserId, e: DeviceId)
    ensures
      var r := SetPreviewRequest(h, b, d, m);
      if c == b && e == d then
        Holds(r, c, e) && r.previewRequests[e][c] == Request(h.previewOrder + 1, m["client_id" := Text(b)])
      else KeepsBut(h, r, c, e, false)
  {
  }

  lemma RequestStep(events: seq<Event>, k: nat, b: BrowserId, d: DeviceId)
    requires k < |events| && Safe(Run(events[..k]))
    ensures Filed(Run(events[..k + 1]), b, d) <==>
      Files(events, k, b, d) || (Filed(Run(events[..k]), b, d) && !EndsPreview(events, k, b, d))
    ensures Files(events, k, b, d) ==> IsFiled(events, k + 1, k, b, d)
    ensures Filed(Run(events[..k + 1]), b, d) && !Files(events, k, b, d) ==>
      Run(events[..k + 1]).hub.previewRequests[d][b] == Run(events[..k]).hub.previewRequests[d][b]
  {
    hide Run, Safe, Watches;
    hide SubscribePreview, UnsubscribePreview, SetPreviewRequest, RemoveBrowser, SubscribeAudio, UnsubscribeAudio;
    hide RemoveAudioBrowser;
    RunNext(events, k);
    var w, e := Run(events[..k]), events[k];
    FitsAt(w, e.b);
    if Filed(w, b, d) { FiledIsPreviewed(w, b, d); }
    var s := At(w, e.b);
    var o := if e.StartPreview? || e.StopPreview? || e.StartAudio? || e.StopAudio? then e.device
             else if s.Previewing? || s.AskedAudio? then s.device else "";
    RequestOps(w.hub, e.b, o, b, d);
    RequestAudioOps(w.hub, e.b, o, b, d);
    FileOp(w.hub, e.b, o, if s.Previewing? then s.message else map[], b, d);
    JoinKeeps(w.hub, e.b, b, d);
  }

  lemma FiledIsPreviewed(w: World, b: BrowserId, d: DeviceId)
    requires Safe(w) && Filed(w, b, d)
    ensures Previews(w, b, d)
  {
    assert RequestsFit(w.hub, d);
  }

  /** The last filing of a browser for a device, with no end of its previews since. */
  predicate LastFiling(events: seq<Event>, n: nat, i: nat, b: BrowserId, d: DeviceId)
    requires n <= |events|
  {
    i < n && Files(events, i, b, d)
    && forall j | i < j < n :: !Files(events, j, b, d) && !EndsPreview(events, j, b, d)
  }

  /** The request of a browser is the one it filed last, with its own id, as long as it has not ended its previews. */
  lemma {:induction false} FiledIsLast(events: seq<Event>, n: nat, i: nat, b: BrowserId, d: DeviceId)
    requires n <= |events| && LastFiling(events, n, i, b, d)
    ensures SessionAt(events, i, b).Previewing? && IsFiled(events, n, i, b, d)
    decreases n
  {
    hide Step, EndsPreview, Safe, IsFiled, Run;
    HubIsAlwaysSound(events[..n - 1]);
    RequestStep(events, n - 1, b, d);
    if i < n - 1 {
      FiledIsLast(events, n - 1, i, b, d);
      FiledThen(events, n - 1, i, b, d);
      SameRequestFiled(events, n, i, b, d);
    }
  }

  lemma FiledThen(events: seq<Event>, n: nat, i: nat, b: BrowserId, d: DeviceId)
    requires i < |events| && n <= |events| && SessionAt(events, i, b).Previewing? && IsFiled(events, n, i, b, d)
    ensures Filed(Run(events[..n]), b, d)
  {
  }

  /** A browser has a request for a device if and only if it filed one and has not ended its previews since. */
  lemma {:induction false} RequestsExactly(events: seq<Event>, n: nat, b: BrowserId, d: DeviceId)
    requires n <= |events|
    ensures Filed(Run(events[..n]), b, d) <==> exists i: nat :: LastFiling(events, n, i, b, d)
  {
    hide Step, Files, EndsPreview, Safe, Filed, IsFiled;
    if n == 0 {
      assert events[..0] == [];
      NothingFiled(b, d);
    } else {
      RequestsExactly(events, n - 1, b, d);
      HubIsAlwaysSound(events[..n - 1]);
      RequestStep(events, n - 1, b, d);
      if Files(events, n - 1, b, d) {
        assert LastFiling(events, n, n - 1, b, d);
      } else {
        hide LastFiling;
        var before := n - 1;
        if i: nat :| LastFiling(events, before, i, b, d) { LastStays(events, n, i, b, d); }
        if i: nat :| LastFiling(events, n, i, b, d) { LastStays(events, n, i, b, d); }
      }
    }
  }

  lemma LastStays(events: seq<Event>, n: nat, i: nat, b: BrowserId, d: DeviceId)
    requires 0 < n <= |events| && !Files(events, n - 1, b, d)
    ensures LastFiling(events, n, i, b, d) <==>
      LastFiling(events, n - 1, i, b, d) && !EndsPreview(events, n - 1, b, d)
  {
    hide Files, EndsPreview;
    if LastFiling(events, n, i, b, d) { assert i < n - 1; }
  }

  lemma NothingFiled(b: BrowserId, d: DeviceId)
    ensures !Filed(Run([]), b, d)
  {
  }

  lemma SameRequestFiled(events: seq<Event>, n: nat, i: nat, b: BrowserId, d: DeviceId)
    requires 0 < n <= |events| && i < |events| && Files(events, i, b, d) && IsFiled(events, n - 1, i, b, d)
    requires Filed(Run(events[..n]), b, d)
    requires Run(events[..n]).hub.previewRequests[d][b] == Run(events[..n - 1]).hub.previewRequests[d][b]
    ensures IsFiled(events, n, i, b, d)
  {
    hide Run;
  }

  lemma {:induction false} OrdersRise(events: seq<Event>, i: nat, j: nat)
    requires i <= j <= |events|
    ensures Run(events[..i]).hub.previewOrder <= Run(events[..j]).hub.previewOrder
    decreases j
  {
    hide Step;
    if i < j {
      OrdersRise(events, i, j - 1);
      RunNext(events, j - 1);
      OrderStep(Run(events[..j - 1]), events[j - 1]);
    }
  }

  lemma OrderStep(w: World, e: Event)
    ensures w.hub.previewOrder <= Step(w, e).hub.previewOrder
    ensures e.FilePreview? && At(w, e.b).Previewing? ==> Step(w, e).hub.previewOrder == w.hub.previewOrder + 1
  {
  }

  /** Of two requests for a device the one that was filed later is the newer one. */
  lemma LaterIsNewer(events: seq<Event>, n: nat, i: nat, j: nat, b: BrowserId, c: BrowserId, d: DeviceId)
    requires n <= |events| && LastFiling(events, n, i, b, d) && LastFiling(events, n, j, c, d) && i < j
    ensures Filed(Run(events[..n]), b, d) && Filed(Run(events[..n]), c, d)
    ensures
      var requests := Run(events[..n]).hub.previewRequests[d];
      requests[b].order < requests[c].order
  {
    hide Step, Run, EndsPreview;
    FiledIsLast(events, n, i, b, d);
    FiledIsLast(events, n, j, c, d);
    RunNext(events, i);
    OrderStep(Run(events[..i]), events[i]);
    OrdersRise(events, i + 1, j);
  }
}

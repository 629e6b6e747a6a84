/** The hub's methods, each under its lock, over maps that are changed in place. */
module RealtimeHub {
  import opened Wrappers
  import opened HubModel

  class RealtimeHub {
    var browsers: set<BrowserId>
    var previewSubscribers: map<DeviceId, set<BrowserId>>
    var previewRequests: map<DeviceId, map<BrowserId, Request>>
    var previewOrder: nat
    var audioSubscribers: map<DeviceId, set<BrowserId>>

    ghost function State(): Hub
      reads this
    {
      Hub(browsers, previewSubscribers, previewRequests, previewOrder, audioSubscribers)
    }

    constructor ()
      ensures State() == EMPTY
    {
      browsers, previewSubscribers, previewRequests, previewOrder, audioSubscribers := {}, map[], map[], 0, map[];
    }

    method AddBrowser(b: BrowserId)
      modifies this
      ensures State() == old(State()).(browsers := old(browsers) + {b})
    {
      browsers := browsers + {b};
    }

    /** Forgets a browser and its previews; the devices it previewed are reported, each once. */
    method RemoveBrowser(b: BrowserId) returns (stopped: seq<DeviceId>)
      modifies this
      ensures State() == HubModel.RemoveBrowser(old(State()), b)
      ensures (set d | d in stopped) == PreviewedBy(old(State()), b)
      ensures forall i, j | 0 <= i < j < |stopped| :: stopped[i] != stopped[j]
    {
      hide SubscribersLeft, RequestsLeft, HubModel.RemoveBrowser;
      ghost var was := State();
      browsers := browsers - {b};
      stopped := [];
      var left := previewSubscribers.Keys;
      NothingWalked(was, b);
      while left != {}
        invariant left <= was.previewSubscribers.Keys
        invariant State() == was.(browsers := was.browsers - {b}, previewSubscribers := SubscribersLeft(was, b, left),
                                  previewRequests := RequestsLeft(was, b, left))
        invariant forall d :: d in stopped <==> d in PreviewedBy(was, b) && d !in left
        invariant forall i, j | 0 <= i < j < |stopped| :: stopped[i] != stopped[j]
        decreases left
      {
        var d :| d in left;
        WalkedOne(was, b, left, d);
        left := left - {d};
        if b in previewSubscribers[d] {
          DropPreview(b, d);
          stopped := stopped + [d];
        }
      }
      AllWalked(was, b);
      assert (set d | d in stopped) == PreviewedBy(was, b);
    }

    /** One turn of the walk, at a device the browser previews. */
    method DropPreview(b: BrowserId, d: DeviceId)
      requires d in previewSubscribers
      modifies this`previewSubscribers, this`previewRequests
      ensures State() == HubModel.UnsubscribePreview(old(State()), b, d)
    {
      var subscribers := previewSubscribers[d] - {b};
      if d in previewRequests {
        previewRequests := previewRequests[d := previewRequests[d] - {b}];
      }
      if subscribers == {} {
        previewSubscribers := previewSubscribers - {d};
        previewRequests := previewRequests - {d};
        assert previewRequests == old(previewRequests) - {d};
      } else {
        previewSubscribers := previewSubscribers[d := subscribers];
      }
    }

    method SubscribePreview(b: BrowserId, d: DeviceId)
      modifies this
      ensures State() == HubModel.SubscribePreview(old(State()), b, d)
    {
      if b !in browsers { return; }
      if d !in previewSubscribers {
        previewSubscribers := previewSubscribers[d := {}];
      }
      previewSubscribers := previewSubscribers[d := previewSubscribers[d] + {b}];
    }

    method UnsubscribePreview(b: BrowserId, d: DeviceId) returns (last: bool)
      modifies this
      ensures State() == HubModel.UnsubscribePreview(old(State()), b, d)
      ensures last <==> d in old(previewSubscribers) && d !in previewSubscribers
    {
      if d !in previewSubscribers { return false; }
      var subscribers := previewSubscribers[d] - {b};
      previewSubscribers := previewSubscribers[d := subscribers];
      if d in previewRequests {
        previewRequests := previewRequests[d := previewRequests[d] - {b}];
      }
      last := subscribers == {};
      if last {
        previewSubscribers := previewSubscribers - {d};
        previewRequests := previewRequests - {d};
        assert previewSubscribers == old(previewSubscribers) - {d} && previewRequests == old(previewRequests) - {d};
      }
    }

    method SetPreviewRequest(b: BrowserId, d: DeviceId, message: Message)
      modifies this
      ensures State() == HubModel.SetPreviewRequest(old(State()), b, d, message)
    {
      if d !in previewRequests {
        previewRequests := previewRequests[d := map[]];
      }
      previewOrder := previewOrder + 1;
      var request := Request(previewOrder, message["client_id" := Text(b)]);
      previewRequests := previewRequests[d := previewRequests[d][b := request]];
    }

    /**
     * The message to send to a device: that of the foremost request, kept awake if any request asks for it. The walk
     * over the requests may take any order.
     */
    method SelectedPreviewRequest(d: DeviceId) returns (message: Option<Message>)
      requires d in previewRequests ==> DistinctOrders(previewRequests[d])
      ensures message.None? <==> RequestsOf(State(), d) == map[]
      ensures message.Some? ==>
        var requests := RequestsOf(State(), d);
        exists b :: Foremost(requests, b)
          && message.value == requests[b].message["stay_awake" := Bool(AnyAwake(requests))]["device_id" := Text(d)]
    {
      var requests := if d in previewRequests then previewRequests[d] else map[];
      var selected: Option<Request> := None;
      var awake := false;
      var left := requests.Keys;
      ghost var winner := "";
      while left != {}
        invariant left <= requests.Keys
        invariant awake <==> AnyAwakeOf(requests, left)
        invariant selected.None? <==> left == requests.Keys
        invariant selected.Some? ==> winner in requests && winner !in left && selected.value == requests[winner]
        invariant selected.Some? ==> forall c | c in requests && c !in left && c != winner ::
          Beats(requests[winner], requests[c])
        decreases left
      {
        var b :| b in left;
        left := left - {b};
        var request := requests[b];
        AwakeNext(requests, left, b);
        awake := awake || IsSet(request.message, "stay_awake", true);
        if selected.None? {
          selected, winner := Some(request), b;
        } else {
          var foreground := IsSet(request.message, "preview", false);
          var selectedForeground := IsSet(selected.value.message, "preview", false);
          if (foreground && !selectedForeground)
            || (foreground == selectedForeground && request.order > selected.value.order) {
            selected, winner := Some(request), b;
          }
        }
      }
      if selected.None? { return None; }
      assert Wins(requests, winner);
      WinnerIsForemost(requests, winner);
      message := Some(selected.value.message["stay_awake" := Bool(awake)]["device_id" := Text(d)]);
    }

    // ---------------------------------------------------------------- audio

    method SubscribeAudio(b: BrowserId, d: DeviceId)
      modifies this
      ensures State() == HubModel.SubscribeAudio(old(State()), b, d)
    {
      if b !in browsers { return; }
      if d !in audioSubscribers {
        audioSubscribers := audioSubscribers[d := {}];
      }
      audioSubscribers := audioSubscribers[d := audioSubscribers[d] + {b}];
    }

    method UnsubscribeAudio(b: BrowserId, d: DeviceId) returns (last: bool)
      modifies this
      ensures (State(), last) == HubModel.UnsubscribeAudio(old(State()), b, d)
    {
      if d !in audioSubscribers || b !in audioSubscribers[d] { return false; }
      var subscribers := audioSubscribers[d] - {b};
      audioSubscribers := audioSubscribers[d := subscribers];
      last := subscribers == {};
      if last {
        audioSubscribers := audioSubscribers - {d};
        assert audioSubscribers == old(audioSubscribers) - {d};
      }
    }

    /** Removes a browser from every device's listeners; the devices left without any are reported, each once. */
    method RemoveAudioBrowser(b: BrowserId) returns (stopped: seq<DeviceId>)
      modifies this
      ensures (State(), set d | d in stopped) == HubModel.RemoveAudioBrowser(old(State()), b)
      ensures forall i, j | 0 <= i < j < |stopped| :: stopped[i] != stopped[j]
    {
      stopped := [];
      ghost var was := audioSubscribers;
      var left := audioSubscribers.Keys;
      while left != {}
        invariant left <= was.Keys && State() == old(State()).(audioSubscribers := audioSubscribers)
        invariant audioSubscribers == map d | d in was && (d in left || was[d] - {b} != {}) ::
                                        if d in left then was[d] else was[d] - {b}
        invariant forall d :: d in stopped <==> d in was && was[d] - {b} == {} && d !in left
        invariant forall i, j | 0 <= i < j < |stopped| :: stopped[i] != stopped[j]
        decreases left
      {
        var d :| d in left;
        left := left - {d};
        var subscribers := audioSubscribers[d] - {b};
        audioSubscribers := audioSubscribers[d := subscribers];
        if subscribers == {} {
          audioSubscribers := audioSubscribers - {d};
          stopped := stopped + [d];
        }
      }
      assert (set d | d in stopped) == HubModel.RemoveAudioBrowser(old(State()), b).1;
      assert audioSubscribers == HubModel.RemoveAudioBrowser(old(State()), b).0.audioSubscribers;
    }
  }

  /** Some request of a browser that was walked over asks to stay awake. */
  ghost predicate AnyAwakeOf(requests: map<BrowserId, Request>, left: set<BrowserId>) {
    exists c :: c in requests && c !in left
      && "stay_awake" in requests[c].message && requests[c].message["stay_awake"] == Bool(true)
  }

  lemma AwakeNext(requests: map<BrowserId, Request>, left: set<BrowserId>, b: BrowserId)
    requires b in requests && b !in left
    ensures AnyAwakeOf(requests, left) <==>
      AnyAwakeOf(requests, left + {b}) || IsSet(requests[b].message, "stay_awake", true)
  {
  }

  /** The subscribers when a browser has been dropped from all devices but some. */
  ghost function SubscribersLeft(h: Hub, b: BrowserId, left: set<DeviceId>): map<DeviceId, set<BrowserId>> {
    map d | d in h.previewSubscribers && (d in left || h.previewSubscribers[d] != {b}) ::
      if d in left then h.previewSubscribers[d] else h.previewSubscribers[d] - {b}
  }

  ghost function RequestsLeft(h: Hub, b: BrowserId, left: set<DeviceId>): map<DeviceId, map<BrowserId, Request>> {
    map d | d in h.previewRequests && (d in left || Members(h.previewSubscribers, d) != {b}) ::
      if d !in left && b in Members(h.previewSubscribers, d) then h.previewRequests[d] - {b} else h.previewRequests[d]
  }

  lemma NothingWalked(h: Hub, b: BrowserId)
    ensures SubscribersLeft(h, b, h.previewSubscribers.Keys) == h.previewSubscribers
    ensures RequestsLeft(h, b, h.previewSubscribers.Keys) == h.previewRequests
  {
  }

  lemma AllWalked(h: Hub, b: BrowserId)
    ensures HubModel.RemoveBrowser(h, b) ==
      h.(browsers := h.browsers - {b}, previewSubscribers := SubscribersLeft(h, b, {}),
         previewRequests := RequestsLeft(h, b, {}))
  {
  }

  lemma OnlyMember(s: set<BrowserId>, b: BrowserId)
    requires b in s
    ensures s - {b} == {} <==> s == {b}
  {
    assert forall x | x in s :: x in s - {b} || x == b;
  }

  /** One device more. */
  lemma WalkedOne(h: Hub, b: BrowserId, left: set<DeviceId>, d: DeviceId)
    requires d in left && left <= h.previewSubscribers.Keys
    ensures d in SubscribersLeft(h, b, left) && SubscribersLeft(h, b, left)[d] == h.previewSubscribers[d]
    ensures b !in h.previewSubscribers[d] ==>
      && SubscribersLeft(h, b, left - {d}) == SubscribersLeft(h, b, left)
      && RequestsLeft(h, b, left - {d}) == RequestsLeft(h, b, left)
    ensures b in h.previewSubscribers[d] ==>
      var rest := h.previewSubscribers[d] - {b};
      var subs, reqs := SubscribersLeft(h, b, left), RequestsLeft(h, b, left);
      SubscribersLeft(h, b, left - {d}) == (if rest == {} then subs - {d} else subs[d := rest])
      && RequestsLeft(h, b, left - {d}) ==
        (if rest == {} then reqs - {d} else if d in reqs then reqs[d := reqs[d] - {b}] else reqs)
  {
    if b in h.previewSubscribers[d] {
      OnlyMember(h.previewSubscribers[d], b);
    } else {
      assert h.previewSubscribers[d] - {b} == h.previewSubscribers[d];
    }
  }
}

/** The realtime hub: who watches and who listens to which device, and whose preview request wins. */
module HubModel {
  type BrowserId = string
  type DeviceId = string

  datatype Value = Bool(b: bool) | Text(s: string) | Number(n: int)

  /** A JSON object as it came from a browser. */
  type Message = map<string, Value>

  datatype Request = Request(order: nat, message: Message)

  datatype Hub = Hub(
    browsers: set<BrowserId>,
    previewSubscribers: map<DeviceId, set<BrowserId>>,
    previewRequests: map<DeviceId, map<BrowserId, Request>>,
    previewOrder: nat,
    audioSubscribers: map<DeviceId, set<BrowserId>>)

  const EMPTY := Hub({}, map[], map[], 0, map[])

  // ---------------------------------------------------------------- subscriptions

  function Members(m: map<DeviceId, set<BrowserId>>, d: DeviceId): set<BrowserId> {
    if d in m then m[d] else {}
  }

  /** A device without members has no entry. */
  function WithMembers(m: map<DeviceId, set<BrowserId>>, d: DeviceId, s: set<BrowserId>)
    : map<DeviceId, set<BrowserId>>
  {
    if s == {} then m - {d} else m[d := s]
  }

  function SubscribePreview(h: Hub, b: BrowserId, d: DeviceId): Hub {
    if b !in h.browsers then h
    else h.(previewSubscribers := h.previewSubscribers[d := Members(h.previewSubscribers, d) + {b}])
  }

  function RequestsOf(h: Hub, d: DeviceId): map<BrowserId, Request> {
    if d in h.previewRequests then h.previewRequests[d] else map[]
  }

  function UnsubscribePreview(h: Hub, b: BrowserId, d: DeviceId): Hub {
    if d !in h.previewSubscribers then h
    else
      var left := h.previewSubscribers[d] - {b};
      if left == {} then
        h.(previewSubscribers := h.previewSubscribers - {d}, previewRequests := h.previewRequests - {d})
      else
        h.(previewSubscribers := h.previewSubscribers[d := left],
           previewRequests := if d in h.previewRequests then h.previewRequests[d := h.previewRequests[d] - {b}]
                              else h.previewRequests)
  }

  function SetPreviewRequest(h: Hub, b: BrowserId, d: DeviceId, message: Message): Hub {
    h.(previewOrder := h.previewOrder + 1,
       previewRequests := h.previewRequests[d :=
         RequestsOf(h, d)[b := Request(h.previewOrder + 1, message["client_id" := Text(b)])]])
  }

  /** The devices a browser previews. */
  function PreviewedBy(h: Hub, b: BrowserId): set<DeviceId> {
    set d | d in h.previewSubscribers && b in h.previewSubscribers[d]
  }

  function RemoveBrowser(h: Hub, b: BrowserId): Hub {
    h.(browsers := h.browsers - {b},
       previewSubscribers := map d | d in h.previewSubscribers && h.previewSubscribers[d] != {b} ::
         h.previewSubscribers[d] - {b},
       previewRequests := map d | d in h.previewRequests && Members(h.previewSubscribers, d) != {b} ::
         if b in Members(h.previewSubscribers, d) then h.previewRequests[d] - {b} else h.previewRequests[d])
  }

  function SubscribeAudio(h: Hub, b: BrowserId, d: DeviceId): Hub {
    if b !in h.browsers then h
    else h.(audioSubscribers := h.audioSubscribers[d := Members(h.audioSubscribers, d) + {b}])
  }

  function UnsubscribeAudio(h: Hub, b: BrowserId, d: DeviceId): (Hub, bool) {
    if b !in Members(h.audioSubscribers, d) then (h, false)
    else
      var left := h.audioSubscribers[d] - {b};
      (h.(audioSubscribers := WithMembers(h.audioSubscribers, d, left)), left == {})
  }

  function RemoveAudioBrowser(h: Hub, b: BrowserId): (Hub, set<DeviceId>) {
    (h.(audioSubscribers := map d | d in h.audioSubscribers && h.audioSubscribers[d] - {b} != {} ::
          h.audioSubscribers[d] - {b}),
     set d | d in h.audioSubscribers && h.audioSubscribers[d] - {b} == {})
  }

  // ---------------------------------------------------------------- arbitration

  /** message[key] === b */
  predicate IsSet(m: Message, key: string, b: bool) {
    key in m && m[key] == Bool(b)
  }

  /** A request for the foreground beats one for a preview; between equals the newer one wins. */
  predicate Beats(r: Request, s: Request) {
    var foreground, otherForeground := IsSet(r.message, "preview", false), IsSet(s.message, "preview", false);
    if foreground != otherForeground then foreground else r.order > s.order
  }

  predicate Wins(requests: map<BrowserId, Request>, b: BrowserId) {
    b in requests && forall c | c in requests && c != b :: Beats(requests[b], requests[c])
  }

  predicate DistinctOrders(requests: map<BrowserId, Request>) {
    forall b, c | b in requests && c in requests && b != c :: requests[b].order != requests[c].order
  }

  /**
   * By the messages themselves: preview is false in the request if it is in any, and the request is the newest of those
   * that are like it in this.
   */
  ghost predicate Foremost(requests: map<BrowserId, Request>, b: BrowserId) {
    b in requests &&
    var m := requests[b].message;
    forall c | c in requests ::
      var n := requests[c].message;
      && ("preview" in n && n["preview"] == Bool(false) ==> "preview" in m && m["preview"] == Bool(false))
      && (("preview" in n && n["preview"] == Bool(false)) == ("preview" in m && m["preview"] == Bool(false)) ==>
            requests[c].order <= requests[b].order)
  }

  /** Some request's message has stay_awake set to true. */
  ghost predicate AnyAwake(requests: map<BrowserId, Request>) {
    exists c :: c in requests && "stay_awake" in requests[c].message && requests[c].message["stay_awake"] == Bool(true)
  }

  lemma WinnerIsForemost(requests: map<BrowserId, Request>, b: BrowserId)
    requires Wins(requests, b)
    ensures Foremost(requests, b)
  {
    forall c | c in requests && c != b ensures Beats(requests[b], requests[c]) { }
  }

  lemma ForemostWins(requests: map<BrowserId, Request>, b: BrowserId)
    requires Foremost(requests, b) && DistinctOrders(requests)
    ensures Wins(requests, b)
  {
    forall c | c in requests && c != b ensures Beats(requests[b], requests[c]) {
      assert requests[b].order != requests[c].order;
    }
  }

  lemma {:induction false} SomeoneWins(requests: map<BrowserId, Request>)
    requires DistinctOrders(requests) && requests != map[]
    ensures exists b :: Wins(requests, b)
    decreases |requests|
  {
    assert requests.Keys != {};
    var x :| x in requests;
    var rest := requests - {x};
    if rest == map[] {
      assert requests.Keys == {x} by { assert forall c | c in requests :: c == x || c in rest; }
      assert Wins(requests, x);
    } else {
      SomeoneWins(rest);
      var b :| Wins(rest, b);
      assert forall c | c in requests :: c == x || c in rest;
      if Beats(requests[b], requests[x]) {
        assert Wins(requests, b);
      } else {
        assert Wins(requests, x);
      }
    }
  }

  /** Exactly one request wins, and it is the one that is foremost by the messages. */
  lemma OneWins(requests: map<BrowserId, Request>)
    requires DistinctOrders(requests) && requests != map[]
    ensures exists b :: Wins(requests, b) && Foremost(requests, b)
    ensures forall b, c | Wins(requests, b) && Wins(requests, c) :: b == c
    ensures forall b :: Wins(requests, b) <==> Foremost(requests, b)
  {
    SomeoneWins(requests);
    forall b, c | Wins(requests, b) && Wins(requests, c) ensures b == c { BeatsOneWay(requests[b], requests[c]); }
    forall b ensures Wins(requests, b) <==> Foremost(requests, b) {
      if Wins(requests, b) { WinnerIsForemost(requests, b); }
      if Foremost(requests, b) { ForemostWins(requests, b); }
    }
  }

  lemma BeatsOneWay(r: Request, s: Request)
    ensures !(Beats(r, s) && Beats(s, r))
  {
  }
}

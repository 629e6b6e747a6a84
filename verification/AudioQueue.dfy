/** The queue between an agent's audio and one listening browser: bounded, never blocking, oldest frame first to go. */
module AudioQueue {
  import opened Wrappers

  const CAPACITY: nat := 5

  // ---------------------------------------------------------------- channel operations that do not wait

  function TrySend<T>(q: seq<T>, frame: T): seq<T> {
    if |q| < CAPACITY then q + [frame] else q
  }

  function TryReceive<T>(q: seq<T>): seq<T> {
    if q == [] then q else q[1..]
  }

  // ---------------------------------------------------------------- producers and a consumer

  /** A producer is between frames, or holds a frame that found the queue full, before or after making room. */
  datatype Producer<T> = Ready | FoundFull(frame: T) | MadeRoom(frame: T)

  /** The queue, the frames offered to it, those that entered it, those the consumer took and those given up. */
  datatype Stream<T> = Stream(
    queue: seq<T>, producers: map<nat, Producer<T>>, published: seq<T>,
    entered: seq<T>, delivered: seq<T>, lost: seq<T>)

  datatype Event<T> = Publish(p: nat, frame: T) | MakeRoom(p: nat) | Retry(p: nat) | Consume

  function At<T>(s: Stream<T>, p: nat): Producer<T> {
    if p in s.producers then s.producers[p] else Ready
  }

  function Become<T>(s: Stream<T>, p: nat, state: Producer<T>): Stream<T> {
    s.(producers := s.producers[p := state])
  }

  function Enter<T>(s: Stream<T>, frame: T): Stream<T> {
    s.(queue := TrySend(s.queue, frame), entered := s.entered + [frame])
  }

  /** One of a producer's three attempts, or a receive. */
  function Step<T>(s: Stream<T>, e: Event<T>): Stream<T> {
    match e
    case Publish(p, frame) =>
      if !At(s, p).Ready? then s
      else
        var s1 := s.(published := s.published + [frame]);
        if |s.queue| < CAPACITY then Enter(s1, frame) else Become(s1, p, FoundFull(frame))
    case MakeRoom(p) =>
      if At(s, p).FoundFull? then Become(s.(queue := TryReceive(s.queue)), p, MadeRoom(At(s, p).frame)) else s
    case Retry(p) =>
      if !At(s, p).MadeRoom? then s
      else
        var frame := At(s, p).frame;
        Become(if |s.queue| < CAPACITY then Enter(s, frame) else s.(lost := s.lost + [frame]), p, Ready)
    case Consume =>
      if s.queue == [] then s else s.(queue := TryReceive(s.queue), delivered := s.delivered + [s.queue[0]])
  }

  function Run<T>(events: seq<Event<T>>): Stream<T> {
    if events == [] then Stream([], map[], [], [], [], []) else Step(Run(events[..|events| - 1]), events[|events| - 1])
  }

  // ---------------------------------------------------------------- subsequences

  /** The elements a mask keeps, in order. */
  function Kept<T>(s: seq<T>, mask: seq<bool>): seq<T>
    requires |mask| == |s|
  {
    if s == [] then [] else Kept(s[..|s| - 1], mask[..|s| - 1]) + (if mask[|s| - 1] then [s[|s| - 1]] else [])
  }

  ghost predicate Subsequence<T>(a: seq<T>, s: seq<T>) {
    exists mask: seq<bool> | |mask| == |s| :: Kept(s, mask) == a
  }

  lemma KeptNext<T>(s: seq<T>, mask: seq<bool>, x: T, keep: bool)
    requires |mask| == |s|
    ensures Kept(s + [x], mask + [keep]) == Kept(s, mask) + (if keep then [x] else [])
  {
    assert (s + [x])[..|s|] == s && (mask + [keep])[..|s|] == mask;
  }

  lemma {:induction false} KeptAll<T>(s: seq<T>, mask: seq<bool>, rest: seq<T>)
    requires |mask| == |s|
    ensures Kept(s + rest, mask + seq(|rest|, i => true)) == Kept(s, mask) + rest
  {
    if rest == [] {
      assert s + rest == s && mask + seq(|rest|, i => true) == mask;
    } else {
      var front, last := rest[..|rest| - 1], rest[|rest| - 1];
      KeptAll(s, mask, front);
      KeptNext(s + front, mask + seq(|front|, i => true), last, true);
      assert s + rest == s + front + [last];
      assert mask + seq(|rest|, i => true) == mask + seq(|front|, i => true) + [true];
    }
  }

  // ---------------------------------------------------------------- any number of producers

  /** What left the queue left it from the front: some frames delivered, the others dropped. */
  ghost predicate Consistent<T>(s: Stream<T>, mask: seq<bool>) {
    && |s.queue| <= CAPACITY
    && |mask| + |s.queue| == |s.entered|
    && s.entered[|mask|..] == s.queue
    && s.delivered == Kept(s.entered[..|mask|], mask)
  }

  lemma EnterKeeps<T>(s: Stream<T>, t: Stream<T>, mask: seq<bool>, frame: T)
    requires Consistent(s, mask) && |s.queue| < CAPACITY
    requires t.queue == s.queue + [frame] && t.entered == s.entered + [frame] && t.delivered == s.delivered
    ensures Consistent(t, mask)
  {
    assert t.entered[..|mask|] == s.entered[..|mask|];
  }

  lemma LeaveKeeps<T>(s: Stream<T>, t: Stream<T>, mask: seq<bool>, taken: bool)
    requires Consistent(s, mask) && s.queue != [] && t.entered == s.entered
    requires t.queue == s.queue[1..] && t.delivered == s.delivered + (if taken then [s.queue[0]] else [])
    ensures Consistent(t, mask + [taken])
  {
    var all := s.entered;
    assert all[|mask|] == s.queue[0];
    KeptNext(all[..|mask|], mask, all[|mask|], taken);
    assert all[..|mask| + 1] == all[..|mask|] + [all[|mask|]];
  }

  lemma StepKeeps<T>(s: Stream<T>, mask: seq<bool>, e: Event<T>) returns (m: seq<bool>)
    requires Consistent(s, mask)
    ensures Consistent(Step(s, e), m)
  {
    hide Kept;
    var t := Step(s, e);
    m := mask;
    match e
    case Publish(p, frame) => if At(s, p).Ready? && |s.queue| < CAPACITY { EnterKeeps(s, t, mask, frame); }
    case MakeRoom(p) =>
      if At(s, p).FoundFull? && s.queue != [] {
        LeaveKeeps(s, t, mask, false);
        m := mask + [false];
      }
    case Retry(p) => if At(s, p).MadeRoom? && |s.queue| < CAPACITY { EnterKeeps(s, t, mask, At(s, p).frame); }
    case Consume =>
      if s.queue != [] {
        LeaveKeeps(s, t, mask, true);
        m := mask + [true];
      }
  }

  lemma {:induction false} RunKeeps<T>(events: seq<Event<T>>) returns (mask: seq<bool>)
    ensures Consistent(Run(events), mask)
  {
    hide Step;
    if events == [] {
      mask := [];
    } else {
      var before := RunKeeps(events[..|events| - 1]);
      mask := StepKeeps(Run(events[..|events| - 1]), before, events[|events| - 1]);
    }
  }

  /**
   * However many producers there are and however their attempts and the receives fall together, the queue never holds
   * more than five frames, and what was delivered followed by what is queued is a subsequence of what entered, in
   * order.
   */
  lemma NeverReordered<T>(events: seq<Event<T>>)
    ensures |Run(events).queue| <= CAPACITY
    ensures Subsequence(Run(events).delivered + Run(events).queue, Run(events).entered)
  {
    hide Run;
    var s := Run(events);
    var mask := RunKeeps(events);
    KeptAll(s.entered[..|mask|], mask, s.queue);
    assert s.entered[..|mask|] + s.queue == s.entered;
    assert Kept(s.entered, mask + seq(|s.queue|, i => true)) == s.delivered + s.queue;
  }

  /** The frame that a step puts into the queue, if any. */
  function Entering<T>(s: Stream<T>, e: Event<T>): Option<T> {
    if |s.queue| >= CAPACITY then None
    else if e.Publish? && At(s, e.p).Ready? then Some(e.frame)
    else if e.Retry? && At(s, e.p).MadeRoom? then Some(At(s, e.p).frame)
    else None
  }

  /** A queued frame is dropped only by making room, and then it is the oldest; no other step takes any. */
  lemma OnlyOldestDropped<T>(events: seq<Event<T>>, e: Event<T>)
    ensures
      var s, t := Run(events), Step(Run(events), e);
      t.delivered + t.queue ==
        if e.MakeRoom? && At(s, e.p).FoundFull? && s.queue != [] then s.delivered + s.queue[1..]
        else if Entering(s, e).Some? then s.delivered + s.queue + [Entering(s, e).value]
        else s.delivered + s.queue
  {
    hide Run;
    var mask := RunKeeps(events);
    var s := Run(events);
    if s.queue != [] { assert s.delivered + [s.queue[0]] + s.queue[1..] == s.delivered + s.queue; }
  }

  // ---------------------------------------------------------------- producers that do not disturb each other

  predicate Busy<T>(s: Stream<T>, p: nat) {
    !At(s, p).Ready?
  }

  /** A step that no other producer's attempts are interrupted by. */
  ghost predicate Alone<T>(s: Stream<T>, e: Event<T>) {
    forall p | Busy(s, p) :: e.Consume? || e.p == p
  }

  /** While a producer is between its attempts no other producer takes a step; receives may fall anywhere. */
  ghost predicate Exclusive<T>(events: seq<Event<T>>) {
    forall i | 0 <= i < |events| :: Alone(Run(events[..i]), events[i])
  }

  /** Only one producer, if any, is between its attempts. */
  ghost predicate Holds<T>(s: Stream<T>, holder: Option<nat>) {
    forall p: nat :: Busy(s, p) <==> holder == Some(p)
  }

  /** Nothing is lost, and all that was published has entered but the frame in the holder's hand. */
  ghost predicate Tidy<T>(s: Stream<T>, holder: Option<nat>) {
    && Holds(s, holder) && s.lost == []
    && (holder.None? ==> s.published == s.entered)
    && (holder.Some? ==> Busy(s, holder.value) && s.published == s.entered + [At(s, holder.value).frame])
    && (holder.Some? && At(s, holder.value).MadeRoom? ==> |s.queue| < CAPACITY)
  }

  /** Who is between attempts after a step. */
  function HolderAfter<T>(s: Stream<T>, e: Event<T>, holder: Option<nat>): Option<nat> {
    if e.Publish? && !Busy(s, e.p) && |s.queue| >= CAPACITY then Some(e.p)
    else if e.Retry? && At(s, e.p).MadeRoom? then None
    else holder
  }

  lemma TidyStep<T>(s: Stream<T>, e: Event<T>, holder: Option<nat>)
    requires Tidy(s, holder) && Alone(s, e) && |s.queue| <= CAPACITY
    ensures Tidy(Step(s, e), HolderAfter(s, e, holder))
  {
    var t := Step(s, e);
    forall p: nat | e.Consume? || p != e.p ensures At(t, p) == At(s, p) { }
    if holder.Some? { assert Busy(s, holder.value); }
    assert e.Consume? || (Busy(s, e.p) <==> holder == Some(e.p));
    forall p: nat ensures Busy(t, p) <==> HolderAfter(s, e, holder) == Some(p) {
      assert Busy(s, p) <==> holder == Some(p);
    }
  }

  lemma {:induction false} ExclusiveIsTidy<T>(events: seq<Event<T>>, i: nat) returns (holder: Option<nat>)
    requires i <= |events| && Exclusive(events)
    ensures Tidy(Run(events[..i]), holder)
    decreases i
  {
    hide Step, Tidy, Alone, HolderAfter;
    if i == 0 {
      holder := None;
      EmptyIsTidy<T>();
    } else {
      var before := ExclusiveIsTidy(events, i - 1);
      var _ := RunKeeps(events[..i - 1]);
      TidyStep(Run(events[..i - 1]), events[i - 1], before);
      holder := HolderAfter(Run(events[..i - 1]), events[i - 1], before);
      assert events[..i][..i - 1] == events[..i - 1];
    }
  }

  lemma EmptyIsTidy<T>()
    ensures Tidy(Run<T>([]), None)
  {
  }

  /**
   * In every run in which producers do not disturb each other, such as one with a single producer, no published frame
   * is given up, and what was delivered followed by what is queued is a subsequence of what was published, in order.
   */
  lemma NothingLost<T>(events: seq<Event<T>>)
    requires Exclusive(events)
    ensures Run(events).lost == []
    ensures Subsequence(Run(events).delivered + Run(events).queue, Run(events).published)
  {
    hide Run, Exclusive, Kept;
    assert events[..|events|] == events;
    var holder := ExclusiveIsTidy(events, |events|);
    NeverReordered(events);
    var s := Run(events);
    if holder.Some? { SubsequenceOfMore(s.delivered + s.queue, s.entered, At(s, holder.value).frame); }
  }

  lemma SubsequenceOfMore<T>(a: seq<T>, s: seq<T>, x: T)
    requires Subsequence(a, s)
    ensures Subsequence(a, s + [x])
  {
    var mask: seq<bool> :| |mask| == |s| && Kept(s, mask) == a;
    KeptNext(s, mask, x, false);
  }

  /** There a producer's last attempt always puts its frame at the end of the queue. */
  lemma PublishedIsEnqueued<T>(events: seq<Event<T>>, p: nat)
    requires Exclusive(events) && At(Run(events), p).MadeRoom?
    ensures
      var s, t := Run(events), Step(Run(events), Retry(p));
      t.queue == s.queue + [At(s, p).frame] && t.published == t.entered && At(t, p).Ready? && t.lost == []
  {
    hide Run, Exclusive;
    assert events[..|events|] == events;
    var _ := ExclusiveIsTidy(events, |events|);
    assert Busy(Run(events), p);
  }

  // ---------------------------------------------------------------- producers that do

  /** A producer made room and has not tried again since. */
  ghost predicate RoomSince<T>(events: seq<Event<T>>, p: nat, m: nat) {
    && m < |events| && events[m] == MakeRoom(p) && At(Run(events[..m]), p).FoundFull?
    && forall i | m < i <= |events| :: At(Run(events[..i]), p).MadeRoom?
  }

  /** Another producer put a frame into the queue. */
  predicate RivalAt<T>(events: seq<Event<T>>, p: nat, k: nat) {
    k < |events| && !events[k].Consume? && events[k].p != p && Entering(Run(events[..k]), events[k]).Some?
  }

  lemma {:induction false} RoomStays<T>(events: seq<Event<T>>, p: nat) returns (m: nat)
    requires At(Run(events), p).MadeRoom?
    ensures RoomSince(events, p, m)
    ensures |Run(events).queue| < CAPACITY || exists k | m < k < |events| :: RivalAt(events, p, k)
  {
    hide Step;
    var n := |events| - 1;
    var front, e := events[..n], events[n];
    var s := Run(front);
    var _ := RunKeeps(front);
    assert events[..|events|] == events;
    RoomStep(s, e, p);
    if e == MakeRoom(p) && At(s, p).FoundFull? {
      m := n;
    } else {
      m := RoomStays(front, p);
      forall i: nat | i <= n ensures front[..i] == events[..i] { }
      forall i | m < i <= |events| ensures At(Run(events[..i]), p).MadeRoom? {
        if i <= n { assert At(Run(front[..i]), p).MadeRoom?; }
      }
      if |Run(events).queue| >= CAPACITY {
        if |s.queue| < CAPACITY {
          assert RivalAt(events, p, n);
        } else {
          var k :| m < k < n && RivalAt(front, p, k);
          assert RivalAt(events, p, k);
        }
      }
    }
  }

  /** A producer that has made room made it in this step, or keeps it while the queue grows only by rivals. */
  lemma RoomStep<T>(s: Stream<T>, e: Event<T>, p: nat)
    requires At(Step(s, e), p).MadeRoom? && |s.queue| <= CAPACITY
    ensures e == MakeRoom(p) && At(s, p).FoundFull? ==> |Step(s, e).queue| < CAPACITY
    ensures !(e == MakeRoom(p) && At(s, p).FoundFull?) ==>
      At(s, p).MadeRoom?
      && (|s.queue| < CAPACITY <= |Step(s, e).queue| ==> !e.Consume? && e.p != p && Entering(s, e).Some?)
  {
  }

  /** A frame is given up only when, since its producer made room, another producer's frame took that room. */
  lemma LossNeedsRival<T>(events: seq<Event<T>>, p: nat)
    requires Step(Run(events), Retry(p)).lost != Run(events).lost
    ensures exists m, k | 0 <= m < k < |events| :: RoomSince(events, p, m) && RivalAt(events, p, k)
  {
    hide Run;
    var m := RoomStays(events, p);
  }

  /** Five frames fill the queue; the producer makes room for a sixth, and another one's frame takes it. */
  function Disturbed<T>(frames: seq<T>, p: nat, first: T, q: nat, second: T): seq<Event<T>>
    requires |frames| == 5
  {
    seq(5, i requires 0 <= i < 5 => Publish(p, frames[i]))
    + [Publish(p, first), MakeRoom(p), Publish(q, second), Retry(p)]
  }

  /** In such a run, of any two producers, the sixth frame is given up. */
  lemma LossIsReached<T>(frames: seq<T>, p: nat, first: T, q: nat, second: T)
    requires |frames| == 5 && p != q
    ensures
      var s := Run(Disturbed(frames, p, first, q, second));
      s.lost == [first] && s.queue == frames[1..] + [second] && s.delivered == []
  {
    var es := Disturbed(frames, p, first, q, second);
    Filled(frames, p, first, q, second, 5);
    assert es[..6][..5] == es[..5] && es[..7][..6] == es[..6] && es[..8][..7] == es[..7] && es[..9][..8] == es[..8];
    assert es[..9] == es && frames[..5] == frames;
    assert Run(es[..6]) == Step(Run(es[..5]), es[5]);
    assert Run(es[..7]) == Step(Run(es[..6]), es[6]);
    assert Run(es[..8]) == Step(Run(es[..7]), es[7]);
  }

  lemma {:induction false} Filled<T>(frames: seq<T>, p: nat, first: T, q: nat, second: T, k: nat)
    requires |frames| == 5 && k <= 5
    ensures Run(Disturbed(frames, p, first, q, second)[..k])
      == Stream(frames[..k], map[], frames[..k], frames[..k], [], [])
  {
    var es := Disturbed(frames, p, first, q, second);
    if k > 0 {
      Filled(frames, p, first, q, second, k - 1);
      assert es[..k][..k - 1] == es[..k - 1] && es[k - 1] == Publish(p, frames[k - 1]);
      assert frames[..k] == frames[..k - 1] + [frames[k - 1]];
    } else {
      assert es[..0] == [] && frames[..0] == [];
    }
  }

  /** A run with no producers but some. */
  predicate Only<T>(events: seq<Event<T>>, ps: set<nat>) {
    forall i | 0 <= i < |events| :: events[i].Consume? || events[i].p in ps
  }

  lemma {:induction false} OnlyTheseAreBusy<T>(events: seq<Event<T>>, ps: set<nat>)
    requires Only(events, ps)
    ensures Run(events).producers.Keys <= ps
  {
    if events != [] {
      var front, e := events[..|events| - 1], events[|events| - 1];
      forall i | 0 <= i < |front| ensures front[i].Consume? || front[i].p in ps { assert front[i] == events[i]; }
      OnlyTheseAreBusy(front, ps);
    }
  }

  lemma OneAtMost(ps: set<nat>, p: nat, q: nat)
    requires |ps| <= 1 && p in ps && q in ps
    ensures p == q
  {
    assert |ps - {p}| == |ps| - 1;
    assert q !in ps - {p};
  }

  /** One producer has nobody to disturb it. */
  lemma OneIsExclusive<T>(events: seq<Event<T>>, ps: set<nat>)
    requires Only(events, ps) && |ps| <= 1
    ensures Exclusive(events)
  {
    hide Run;
    forall i, p | 0 <= i < |events| && Busy(Run(events[..i]), p) ensures events[i].Consume? || events[i].p == p {
      OnlyTheseAreBusy(events[..i], ps);
      if !events[i].Consume? { OneAtMost(ps, p, events[i].p); }
    }
  }

  /**
   * Every frame that some producers publish enters the queue, in all their runs, if and only if there is one at most.
   */
  lemma LossExactly<T(!new)>(ps: set<nat>, frame: T)
    ensures (forall events: seq<Event<T>> | Only(events, ps) :: Run(events).lost == []) <==> |ps| <= 1
  {
    hide Run, Exclusive;
    if |ps| <= 1 {
      forall events: seq<Event<T>> | Only(events, ps) ensures Run(events).lost == [] {
        OneIsExclusive(events, ps);
        NothingLost(events);
      }
    } else {
      var p :| p in ps;
      assert |ps - {p}| == |ps| - 1;
      var q :| q in ps - {p};
      var frames := [frame, frame, frame, frame, frame];
      LossIsReached(frames, p, frame, q, frame);
      assert Only(Disturbed(frames, p, frame, q, frame), ps);
    }
  }

  // ---------------------------------------------------------------- without a consumer

  /** Publishing one frame while nobody receives. */
  function Offer<T>(q: seq<T>, frame: T): seq<T> {
    if |q| < CAPACITY then TrySend(q, frame) else TrySend(TryReceive(q), frame)
  }

  /** It is what a producer's steps come to when no other step falls between them. */
  lemma OfferIsQuietSteps<T>(s: Stream<T>, p: nat, frame: T)
    requires !Busy(s, p) && |s.queue| <= CAPACITY
    ensures
      var t := Step(Step(Step(s, Publish(p, frame)), MakeRoom(p)), Retry(p));
      t.queue == Offer(s.queue, frame) && !Busy(t, p) && t.delivered == s.delivered && t.lost == s.lost
      && t.published == s.published + [frame]
  {
  }

  /** The queue is as full as the frames that entered it allow, but for the room a producer made. */
  ghost predicate Full<T>(s: Stream<T>, holder: Option<nat>) {
    if holder.None? then |s.queue| == if |s.entered| < CAPACITY then |s.entered| else CAPACITY
    else |s.entered| >= CAPACITY && |s.queue| == if At(s, holder.value).MadeRoom? then CAPACITY - 1 else CAPACITY
  }

  lemma FullStep<T>(s: Stream<T>, e: Event<T>, holder: Option<nat>)
    requires Full(s, holder) && Tidy(s, holder) && Alone(s, e) && !e.Consume? && |s.queue| <= CAPACITY
    ensures Full(Step(s, e), HolderAfter(s, e, holder))
  {
    if holder.Some? { assert Busy(s, holder.value); }
    assert Busy(s, e.p) <==> holder == Some(e.p);
  }

  lemma {:induction false} QuietIsFull<T>(events: seq<Event<T>>, i: nat) returns (holder: Option<nat>)
    requires i <= |events| && Exclusive(events) && forall j | 0 <= j < |events| :: !events[j].Consume?
    ensures Tidy(Run(events[..i]), holder) && Full(Run(events[..i]), holder)
    decreases i
  {
    hide Step, Tidy, Alone, Full, HolderAfter;
    if i == 0 {
      holder := None;
      EmptyIsTidy<T>();
      EmptyIsFull<T>();
    } else {
      var before := QuietIsFull(events, i - 1);
      var _ := RunKeeps(events[..i - 1]);
      TidyStep(Run(events[..i - 1]), events[i - 1], before);
      FullStep(Run(events[..i - 1]), events[i - 1], before);
      holder := HolderAfter(Run(events[..i - 1]), events[i - 1], before);
      assert events[..i][..i - 1] == events[..i - 1];
    }
  }

  lemma EmptyIsFull<T>()
    ensures Full(Run<T>([]), None)
  {
  }

  /** After any such run without receives, between frames, the queue is the last min(n, 5) of the published frames. */
  lemma LastFive<T>(events: seq<Event<T>>)
    requires Exclusive(events) && (forall j | 0 <= j < |events| :: !events[j].Consume?)
    requires forall p :: !Busy(Run(events), p)
    ensures
      var s := Run(events);
      s.queue == s.published[if |s.published| < CAPACITY then 0 else |s.published| - CAPACITY..]
  {
    hide Run, Exclusive, Kept;
    assert events[..|events|] == events;
    var holder := QuietIsFull(events, |events|);
    var _ := RunKeeps(events);
  }

  // ---------------------------------------------------------------- the producer's code

  /** One browser's end of the audio: the bounded queue its writer drains. */
  class BrowserPeer<T> {
    var audioFrames: seq<T>

    constructor ()
      ensures audioFrames == []
    {
      audioFrames := [];
    }

    /** Sends if there is room. */
    method Send(frame: T) returns (sent: bool)
      modifies this
      ensures audioFrames == TrySend(old(audioFrames), frame) && sent == (|old(audioFrames)| < CAPACITY)
    {
      sent := |audioFrames| < CAPACITY;
      if sent {
        audioFrames := audioFrames + [frame];
      }
    }

    /** Takes the oldest frame, if any. */
    method Receive() returns (frame: Option<T>)
      modifies this
      ensures audioFrames == TryReceive(old(audioFrames))
      ensures frame == if old(audioFrames) == [] then None else Some(old(audioFrames)[0])
    {
      frame := None;
      if audioFrames != [] {
        frame := Some(audioFrames[0]);
        audioFrames := audioFrames[1..];
      }
    }

    /** The publisher's three attempts, with nothing in between. */
    method PublishAudio(frame: T)
      modifies this
      ensures audioFrames == Offer(old(audioFrames), frame)
    {
      var sent := Send(frame);
      if !sent {
        var _ := Receive();
        var _ := Send(frame);
      }
    }
  }
}

/** Which profiles keep the touch stream safe in every run. */
module KeymapProfiles {
  import opened Wrappers
  import opened TouchTrace
  import opened KeymapModel
  import opened KeymapSafety

  // ---------------------------------------------------------------- wheels that share an id

  predicate Uses(profile: Option<seq<Mapping>>, id: Id, g: Gesture) {
    profile.Some? && exists m :: m in profile.value && m.Wheel? && m.id == id && m.gesture == g
  }

  /** No id is shared by a scroll and a zoom. Distinct ids are a special case. */
  predicate Compatible(profile: Option<seq<Mapping>>) {
    profile.Some? ==>
      forall m, n | m in profile.value && n in profile.value && m.Wheel? && n.Wheel? && m.id == n.id ::
        !(m.gesture.Scroll? && n.gesture.Zoom?)
  }

  /** What a wheel holds; a wheel that was not made yet holds nothing. */
  function WheelOf(e: Engine, id: Id): WheelState {
    if Exists(e, FirstOf(id)) then e.states[e.wheels[id]] else NO_WHEEL
  }

  /** A scroll's wheel has one pointer at most, a zoom's both or none, and their pending lifts are of their kind. */
  ghost predicate Shaped(e: Engine) {
    && (forall id :: Uses(e.profile, id, Zoom) ==> !Half(e, id))
    && (forall id :: Uses(e.profile, id, Scroll) ==> WheelOf(e, id).pointer2.None?)
    && (forall t | t in e.timers :: Uses(e.profile, e.timers[t].id, if e.timers[t].zoom then Zoom else Scroll))
  }

  // ---------------------------------------------------------------- what a turn changes

  /** Only one wheel changed. */
  ghost predicate OnlyWheel(e: Engine, r: Engine, id: Id) {
    forall i | i != id :: WheelOf(r, i) == WheelOf(e, i)
  }

  /** Timers are old ones, or of a mapping's own kind. */
  ghost predicate TimersOf(e: Engine, r: Engine, m: Mapping)
    requires m.Wheel?
  {
    forall t | t in r.timers ::
      (t in e.timers && r.timers[t] == e.timers[t])
      || (r.timers[t].id == m.id && r.timers[t].zoom == m.gesture.Zoom? && !m.gesture.Neither?)
  }

  lemma ReadyEffect(e: Engine, id: Id)
    requires Rooted(e)
    ensures OnlyWheel(e, Ready(e, id), id) && Rooted(Ready(e, id))
    ensures WheelOf(Ready(e, id), id) == WheelOf(e, id).(timeout := None) && id in Ready(e, id).wheels
    ensures forall t | t in Ready(e, id).timers :: t in e.timers && Ready(e, id).timers[t] == e.timers[t]
  {
    hide Created, Unscheduled;
    CreatedEffect(e, id);
    UnscheduledEffect(Created(e, id), id);
  }

  lemma CreatedEffect(e: Engine, id: Id)
    requires Rooted(e)
    ensures OnlyWheel(e, Created(e, id), id) && Rooted(Created(e, id)) && WheelOf(Created(e, id), id) == WheelOf(e, id)
    ensures Created(e, id).timers == e.timers
  {
  }

  lemma UnscheduledEffect(e: Engine, id: Id)
    requires Rooted(e) && id in e.wheels
    ensures OnlyWheel(e, Unscheduled(e, id), id) && Rooted(Unscheduled(e, id))
    ensures WheelOf(Unscheduled(e, id), id) == WheelOf(e, id).(timeout := None)
    ensures forall t | t in Unscheduled(e, id).timers :: t in e.timers && Unscheduled(e, id).timers[t] == e.timers[t]
  {
  }

  /** A touch or a new distance for one wheel. */
  ghost predicate Turned(e: Engine, r: Engine, id: Id, s: WheelState) {
    OnlyWheel(e, r, id) && Rooted(r) && id in r.wheels && WheelOf(r, id) == s && r.timers == e.timers
  }

  lemma DeltaTurned(e: Engine, id: Id, delta: real)
    requires Rooted(e) && id in e.wheels
    ensures Turned(e, SetDelta(e, id, delta), id, WheelOf(e, id).(delta := delta))
  {
  }

  lemma PressTurned(e: Engine, o: Owner, id: Id, at: Spot)
    requires Rooted(e) && id in e.wheels && Of(o, id)
    ensures Turned(e, Press(e, o, at), id, Given(WheelOf(e, id), o, Some(e.base)))
  {
  }

  lemma LiftTurned(e: Engine, o: Owner, id: Id, at: Spot)
    requires Rooted(e) && id in e.wheels && Of(o, id)
    ensures Turned(e, Lift(e, o, at), id, Given(WheelOf(e, id), o, None))
  {
  }

  lemma DragTurned(e: Engine, o: Owner, id: Id, at: Spot)
    requires Rooted(e) && id in e.wheels
    ensures Turned(e, Drag(e, o, at), id, WheelOf(e, id))
  {
  }

  lemma TimerTurned(e: Engine, id: Id, zoom: bool, spot1: Spot, spot2: Spot)
    requires Rooted(e) && id in e.wheels
    ensures
      var r := SetTimer(e, id, zoom, spot1, spot2);
      OnlyWheel(e, r, id) && Rooted(r) && WheelOf(r, id) == WheelOf(e, id).(timeout := Some(e.nextTimer))
      && forall t | t in r.timers ::
        (t in e.timers && r.timers[t] == e.timers[t]) || (r.timers[t].id == id && r.timers[t].zoom == zoom)
  {
  }

  /** What a scroll leaves: its first pointer while it goes on, none when it ends, and the second one as it was. */
  ghost predicate Scrolled(e: Engine, r: Engine, id: Id, at: Spot, deltaY: real, f: Frame) {
    var s := WheelOf(e, id);
    var delta := ScrollTo(if s.pointer1.Some? then s.delta else ScrollFrom(deltaY, f), deltaY, f);
    && WheelOf(r, id).delta == delta && WheelOf(r, id).pointer2 == s.pointer2
    && WheelOf(r, id).pointer1.Some? == !ScrollEnds(at, delta, f)
  }

  lemma ScrollStartEffect(e: Engine, id: Id, at: Spot, deltaY: real, f: Frame)
    requires Rooted(e) && id in e.wheels
    ensures
      var r, s := ScrollStart(e, id, at, deltaY, f), WheelOf(e, id);
      OnlyWheel(e, r, id) && Rooted(r) && r.timers == e.timers && WheelOf(r, id).pointer1.Some?
      && WheelOf(r, id).pointer2 == s.pointer2
      && WheelOf(r, id).delta == if s.pointer1.Some? then s.delta else ScrollFrom(deltaY, f)
  {
    hide SetDelta, Press, ScrollFrom, Inside, Rooted;
    assert Linked(e) by { RootedLinked(e); }
    if StateOf(e, id).pointer1.None? {
      var delta := ScrollFrom(deltaY, f);
      DeltaTurned(e, id, delta);
      RootedLinked(SetDelta(e, id, delta));
      PressTurned(SetDelta(e, id, delta), FirstOf(id), id, Inside(at, delta, f));
    }
  }

  lemma RootedLinked(e: Engine)
    requires Rooted(e)
    ensures Linked(e)
  {
  }

  lemma ScrollOnEffect(e: Engine, id: Id, at: Spot, deltaY: real, f: Frame)
    requires Rooted(e) && id in e.wheels
    ensures
      var r, delta := ScrollOn(e, id, at, deltaY, f), ScrollTo(WheelOf(e, id).delta, deltaY, f);
      OnlyWheel(e, r, id) && Rooted(r)
      && WheelOf(r, id).delta == delta && WheelOf(r, id).pointer2 == WheelOf(e, id).pointer2
      && WheelOf(r, id).pointer1 == (if ScrollEnds(at, delta, f) then None else WheelOf(e, id).pointer1)
      && forall t | t in r.timers ::
        (t in e.timers && r.timers[t] == e.timers[t]) || (r.timers[t].id == id && !r.timers[t].zoom)
  {
    hide SetDelta, Drag, Lift, SetTimer, ScrollTo, Inside, ScrollEnds, Rooted;
    assert Linked(e) by { RootedLinked(e); }
    var delta := ScrollTo(WheelOf(e, id).delta, deltaY, f);
    var e1 := SetDelta(e, id, delta);
    DeltaTurned(e, id, delta);
    var spot := if ScrollEnds(at, delta, f) then Inside(at, delta, f) else Spot(at.x, at.y + delta);
    var e2 := Drag(e1, FirstOf(id), spot);
    DragTurned(e1, FirstOf(id), id, spot);
    RootedLinked(e2);
    if ScrollEnds(at, delta, f) {
      LiftTurned(e2, FirstOf(id), id, spot);
    } else {
      TimerTurned(e2, id, false, spot, spot);
    }
  }

  /** A wheel that a zoom may turn: both pointers, or none. */
  lemma ZoomStartEffect(e: Engine, id: Id, deltaY: real, f: Frame)
    requires Rooted(e) && id in e.wheels && !Half(e, id)
    ensures
      var r, s := ZoomStart(e, id, deltaY, f), WheelOf(e, id);
      OnlyWheel(e, r, id) && Rooted(r) && r.timers == e.timers
      && WheelOf(r, id).pointer1.Some? && WheelOf(r, id).pointer2.Some?
      && WheelOf(r, id).delta == if s.pointer1.Some? then s.delta else ZoomFrom(deltaY, f)
  {
    hide SetDelta, Press, ZoomFrom, PinchStart, PinchEnd, Rooted;
    assert Linked(e) by { RootedLinked(e); }
    if StateOf(e, id).pointer1.None? {
      var delta := ZoomFrom(deltaY, f);
      var e1 := SetDelta(e, id, delta);
      DeltaTurned(e, id, delta);
      RootedLinked(e1);
      PressTurned(e1, FirstOf(id), id, PinchStart(f, delta));
      var e2 := Press(e1, FirstOf(id), PinchStart(f, delta));
      RootedLinked(e2);
      PressTurned(e2, SecondOf(id), id, PinchEnd(f, delta));
    }
  }

  lemma ZoomOnEffect(e: Engine, id: Id, deltaY: real, f: Frame)
    requires Rooted(e) && id in e.wheels && WheelOf(e, id).pointer1.Some? && WheelOf(e, id).pointer2.Some?
    ensures
      var r, wanted := ZoomOn(e, id, deltaY, f), ZoomWanted(WheelOf(e, id).delta, deltaY, f);
      OnlyWheel(e, r, id) && Rooted(r) && id in r.wheels
      && WheelOf(r, id).delta == ZoomTo(wanted, f)
      && WheelOf(r, id).pointer1 == (if ZoomEnds(wanted, f) then None else WheelOf(e, id).pointer1)
      && WheelOf(r, id).pointer2 == (if ZoomEnds(wanted, f) then None else WheelOf(e, id).pointer2)
      && forall t | t in r.timers ::
        (t in e.timers && r.timers[t] == e.timers[t]) || (r.timers[t].id == id && r.timers[t].zoom)
  {
    hide SetDelta, Drag, Lift, SetTimer, ZoomWanted, ZoomTo, ZoomEnds, PinchStart, PinchEnd, Rooted;
    assert Linked(e) by { RootedLinked(e); }
    var wanted := ZoomWanted(WheelOf(e, id).delta, deltaY, f);
    var delta := ZoomTo(wanted, f);
    var spot1, spot2 := PinchStart(f, delta), PinchEnd(f, delta);
    var e1 := SetDelta(e, id, delta);
    DeltaTurned(e, id, delta);
    var e2 := Drag(e1, FirstOf(id), spot1);
    DragTurned(e1, FirstOf(id), id, spot1);
    var e3 := Drag(e2, SecondOf(id), spot2);
    DragTurned(e2, SecondOf(id), id, spot2);
    RootedLinked(e3);
    if ZoomEnds(wanted, f) {
      LiftTurned(e3, FirstOf(id), id, spot1);
      RootedLinked(Lift(e3, FirstOf(id), spot1));
      LiftTurned(Lift(e3, FirstOf(id), spot1), SecondOf(id), id, spot2);
    } else {
      TimerTurned(e3, id, true, spot1, spot2);
    }
  }

  /** What a zoom leaves: both pointers while it goes on, and none when it ends. */
  ghost predicate Zoomed(e: Engine, r: Engine, id: Id, deltaY: real, f: Frame) {
    var s := WheelOf(e, id);
    var wanted := ZoomWanted(if s.pointer1.Some? then s.delta else ZoomFrom(deltaY, f), deltaY, f);
    && WheelOf(r, id).delta == ZoomTo(wanted, f)
    && WheelOf(r, id).pointer1.Some? == WheelOf(r, id).pointer2.Some? == !ZoomEnds(wanted, f)
  }

  /** What one wheel mapping does to its own wheel, to the others and to the timers. */
  lemma WheelEffect(e: Engine, m: Mapping, deltaY: real, f: Frame)
    requires Rooted(e) && m.Wheel? && !(m.gesture.Zoom? && Half(e, m.id))
    ensures
      var r, s := OnWheel(e, m, deltaY, f), WheelOf(e, m.id);
      OnlyWheel(e, r, m.id) && TimersOf(e, r, m)
      && match m.gesture
         case Scroll => Scrolled(e, r, m.id, Scale(m.pos, f), deltaY, f)
         case Zoom => Zoomed(e, r, m.id, deltaY, f)
         case Neither => WheelOf(r, m.id) == s.(timeout := None)
  {
    hide Rooted, Ready, ScrollStart, ScrollOn, ZoomStart, ZoomOn, Scale, ScrollTo, ScrollFrom, ScrollEnds;
    hide ZoomWanted, ZoomFrom, ZoomTo, ZoomEnds;
    RootedLinked(e);
    var e1, at := Ready(e, m.id), Scale(m.pos, f);
    ReadyEffect(e, m.id);
    HalfIs(e, m.id);
    HalfIs(e1, m.id);
    RootedLinked(e1);
    match m.gesture
    case Scroll =>
      ScrollStartEffect(e1, m.id, at, deltaY, f);
      ScrollOnEffect(ScrollStart(e1, m.id, at, deltaY, f), m.id, at, deltaY, f);
    case Zoom =>
      ZoomStartEffect(e1, m.id, deltaY, f);
      ZoomOnEffect(ZoomStart(e1, m.id, deltaY, f), m.id, deltaY, f);
    case Neither =>
  }

  lemma HalfIs(e: Engine, id: Id)
    ensures Half(e, id) <==> WheelOf(e, id).pointer1.Some? != WheelOf(e, id).pointer2.Some?
  {
  }

  // ---------------------------------------------------------------- compatible profiles keep every run whole

  lemma UsesMember(profile: Option<seq<Mapping>>, m: Mapping)
    requires profile.Some? && m in profile.value && m.Wheel?
    ensures Uses(profile, m.id, m.gesture)
  {
  }

  lemma NotBoth(profile: Option<seq<Mapping>>, id: Id)
    requires Compatible(profile)
    ensures !(Uses(profile, id, Scroll) && Uses(profile, id, Zoom))
  {
  }

  lemma WheelShaped(e: Engine, m: Mapping, deltaY: real, f: Frame)
    requires Good(e) && Shaped(e) && Compatible(e.profile) && e.profile.Some? && m in e.profile.value && m.Wheel?
    ensures Linked(e) && !(m.gesture.Zoom? && Half(e, m.id)) && Shaped(OnWheel(e, m, deltaY, f))
  {
    hide Good, Compatible, Uses, Half, OnWheel, Scrolled, Zoomed;
    GoodParts(e);
    UsesMember(e.profile, m);
    NotBoth(e.profile, m.id);
    WheelEffect(e, m, deltaY, f);
    var r := OnWheel(e, m, deltaY, f);
    ScrolledShape(e, r, m, deltaY, f);
    forall id | Uses(r.profile, id, Zoom) ensures !Half(r, id) {
      HalfIs(e, id);
      HalfIs(r, id);
    }
  }

  lemma ScrolledShape(e: Engine, r: Engine, m: Mapping, deltaY: real, f: Frame)
    requires m.Wheel?
    ensures Scrolled(e, r, m.id, Scale(m.pos, f), deltaY, f) ==> WheelOf(r, m.id).pointer2 == WheelOf(e, m.id).pointer2
    ensures Zoomed(e, r, m.id, deltaY, f) ==> WheelOf(r, m.id).pointer1.Some? == WheelOf(r, m.id).pointer2.Some?
  {
  }

  lemma {:induction false} TurnShaped(e: Engine, ms: seq<Mapping>, deltaY: real, f: Frame)
    requires Good(e) && Shaped(e) && Compatible(e.profile) && e.profile.Some? && ms <= e.profile.value
    ensures Linked(e) && TurnWhole(e, ms, deltaY, f) && Shaped(OnWheels(e, ms, deltaY, f))
    decreases |ms|
  {
    hide Good, Shaped, Compatible, Half, OnWheel;
    GoodParts(e);
    if ms != [] {
      var front, m := ms[..|ms| - 1], ms[|ms| - 1];
      assert m == e.profile.value[|ms| - 1];
      TurnShaped(e, front, deltaY, f);
      TurnExactly(e, front, deltaY, f);
      if m.Wheel? { WheelShaped(OnWheels(e, front, deltaY, f), m, deltaY, f); }
    }
  }

  lemma SameWheelsShaped(e: Engine, r: Engine)
    requires Shaped(e) && r.profile == e.profile && r.wheels == e.wheels && r.states == e.states && r.timers == e.timers
    ensures Shaped(r)
  {
    hide Uses;
  }

  /** Steps on keys and frames leave wheels and timers as they were. */
  lemma KeysLeaveWheels(e: Engine, k: KeyPress, m: Mapping)
    ensures OnKey(e, m, k).states == e.states && OnKey(e, m, k).timers == e.timers
  {
    hide DirectionOf, OnTap, OnStick, OnSwipe, Scale;
    if Answers(m, Lower(k.key)) && !k.repeat {
      match m
      case Tap(id, _, pos) => TapsLeaveWheels(e, id, Scale(pos, k.frame), k.isDown);
      case Joystick(_, keys, _, _) =>
        SticksLeaveWheels(e, m, DirectionOf(keys, Lower(k.key)).value, k.isDown, k.frame);
      case Swipe(_, _, _, _, _) => SwipesLeaveWheels(e, m, k.isDown, k.frame, k.now);
      case _ =>
    }
  }

  lemma TapsLeaveWheels(e: Engine, id: Id, at: Spot, isDown: bool)
    ensures OnTap(e, id, at, isDown).states == e.states && OnTap(e, id, at, isDown).timers == e.timers
  {
  }

  lemma SticksLeaveWheels(e: Engine, m: Mapping, d: Toward, isDown: bool, f: Frame)
    requires m.Joystick?
    ensures OnStick(e, m, d, isDown, f).states == e.states && OnStick(e, m, d, isDown, f).timers == e.timers
  {
    hide EdgeOf, Neutral, Scale, Pushed;
  }

  lemma SwipesLeaveWheels(e: Engine, m: Mapping, isDown: bool, f: Frame, now: real)
    requires m.Swipe?
    ensures OnSwipe(e, m, isDown, f, now).states == e.states && OnSwipe(e, m, isDown, f, now).timers == e.timers
  {
    hide Scale;
  }

  lemma {:induction false} AllKeysLeaveWheels(e: Engine, ms: seq<Mapping>, k: KeyPress)
    ensures OnKeys(e, ms, k).states == e.states && OnKeys(e, ms, k).timers == e.timers
  {
    hide OnKey;
    if ms != [] {
      AllKeysLeaveWheels(e, ms[..|ms| - 1], k);
      KeysLeaveWheels(OnKeys(e, ms[..|ms| - 1], k), k, ms[|ms| - 1]);
    }
  }

  lemma FramesLeaveWheels(e: Engine, i: nat, now: real)
    requires i < |e.strokes|
    ensures Animate(e, i, now).states == e.states && Animate(e, i, now).timers == e.timers
  {
  }

  lemma ExpireShaped(e: Engine, t: nat)
    requires Good(e) && Shaped(e) && Compatible(e.profile) && t in e.timers && e.timers[t].wheel in e.states
    ensures Shaped(Expire(e, t))
  {
    hide Good, Compatible, Uses;
    GoodParts(e);
    LastTimer(e, t);
    var r, id := Expire(e, t), e.timers[t].id;
    NotBoth(e.profile, id);
    ExpireEffect(e, t);
    forall i | Uses(r.profile, i, Zoom) ensures !Half(r, i) {
      HalfIs(e, i);
      HalfIs(r, i);
    }
  }

  lemma ExpireEffect(e: Engine, t: nat)
    requires Rooted(e) && t in e.timers && TimerFits(e, t)
    ensures
      var r, m := Expire(e, t), e.timers[t];
      OnlyWheel(e, r, m.id) && r.timers == e.timers - {t}
      && WheelOf(r, m.id).pointer1 == None
      && WheelOf(r, m.id).pointer2 ==
        (if m.zoom && WheelOf(e, m.id).pointer1.Some? then None else WheelOf(e, m.id).pointer2)
  {
  }

  /** A profile change brings a compatible profile. */
  predicate Allowed(event: Event) {
    event.Update? ==> Compatible(event.profile)
  }

  lemma EmptyShaped(e: Engine)
    requires e.wheels == map[] && e.timers == map[]
    ensures Shaped(e)
  {
    hide Uses;
  }

  lemma StepShaped(e: Engine, event: Event)
    requires Good(e) && Shaped(e) && Compatible(e.profile) && Allowed(event)
    ensures Linked(e) && StepWhole(e, event) && Shaped(Step(e, event)) && Compatible(Step(e, event).profile)
  {
    hide Good, Shaped, Compatible, TurnWhole, OnKeys, OnWheels, Animate, Expire, Release;
    GoodParts(e);
    match event
    case Key(k) =>
      if e.profile.Some? {
        AllKeysLeaveWheels(e, e.profile.value, k);
        SameWheelsShaped(e, OnKeys(e, e.profile.value, k));
      }
    case Turn(deltaY, f) => if e.profile.Some? { TurnShaped(e, e.profile.value, deltaY, f); }
    case Paint(i, now) =>
      if i < |e.strokes| {
        FramesLeaveWheels(e, i, now);
        SameWheelsShaped(e, Animate(e, i, now));
      }
    case Timeout(t) => if t in e.timers && e.timers[t].wheel in e.states { ExpireShaped(e, t); }
    case Update(p, w) =>
      if Walks(w, e) {
        SoundIgnoresProfile(e, e.(profile := p), w);
        ReleaseEmpties(e.(profile := p), w);
        EmptyShaped(Release(e.(profile := p), w));
      }
    case ReleaseAll(w) =>
      if Walks(w, e) {
        SoundIgnoresProfile(e, e, w);
        ReleaseEmpties(e, w);
        EmptyShaped(Release(e, w));
      }
  }

  lemma {:induction false} AllowedRunsAreWhole(events: seq<Event>, i: nat)
    requires i <= |events| && forall j | 0 <= j < i :: Allowed(events[j])
    ensures forall j | 0 <= j < i :: StepWhole(Run(Fresh(), events[..j]), events[j])
    ensures Shaped(Run(Fresh(), events[..i])) && Compatible(Run(Fresh(), events[..i]).profile)
  {
    hide Good, Shaped, Compatible, Allowed, Step, StepWhole;
    if i == 0 {
      FreshShaped();
    } else {
      AllowedRunsAreWhole(events, i - 1);
      WholeRunsAreGood(events, i - 1);
      StepShaped(Run(Fresh(), events[..i - 1]), events[i - 1]);
      RunNext(events, i - 1);
    }
  }

  lemma FreshShaped()
    ensures Shaped(Fresh()) && Compatible(Fresh().profile)
  {
    hide Uses;
  }

  /**
   * In every run of keys, turns, timers, frames, releases and profile changes in which no profile shares an id between
   * a scroll and a zoom, each pointer makes one gesture, DOWN MOVE* and at most one final UP, under a fresh id of at
   * least 10; and the pointers that are down are always exactly those the engine knows.
   */
  lemma TouchesAreSafe(events: seq<Event>)
    requires forall i | 0 <= i < |events| :: Allowed(events[i])
    ensures AlwaysAccounted(events)
    ensures Safe(Run(Fresh(), events).sent) && Gestures(Run(Fresh(), events).sent)
    ensures forall p | p in Used(Run(Fresh(), events).sent) :: FIRST_TOUCH_ID <= p < Run(Fresh(), events).base
  {
    hide Safe, Gestures, Used, TouchTrace.Held, PointerOf, Run, StepWhole, Shaped, Compatible, Allowed;
    AllowedRunsAreWhole(events, |events|);
    AccountedExactly(events);
    assert events[..|events|] == events;
    assert Accounted(Run(Fresh(), events[..|events|]));
    SafeIsGestures(Run(Fresh(), events).sent);
  }

  // ---------------------------------------------------------------- incompatible profiles break

  /** Within a turn, the wheel of an id after some of the mappings. */
  function WheelAfter(e: Engine, ms: seq<Mapping>, k: nat, deltaY: real, f: Frame, id: Id): WheelState
    requires Linked(e) && k <= |ms|
  {
    WheelOf(OnWheels(e, ms[..k], deltaY, f), id)
  }

  predicate SamePointers(s: WheelState, t: WheelState) {
    s.pointer1 == t.pointer1 && s.pointer2 == t.pointer2 && s.delta == t.delta
  }

  /** A mapping that moves the wheel of an id. */
  predicate Moves(m: Mapping, id: Id) {
    m.Wheel? && m.id == id && !m.gesture.Neither?
  }

  lemma OnWheelsNext(e: Engine, ms: seq<Mapping>, k: nat, deltaY: real, f: Frame)
    requires Linked(e) && k < |ms|
    ensures
      var before := OnWheels(e, ms[..k], deltaY, f);
      OnWheels(e, ms[..k + 1], deltaY, f) == if ms[k].Wheel? then OnWheel(before, ms[k], deltaY, f) else before
    ensures TurnWhole(e, ms[..k + 1], deltaY, f) <==>
      (TurnWhole(e, ms[..k], deltaY, f)
       && !(ms[k].Wheel? && ms[k].gesture.Zoom? && Half(OnWheels(e, ms[..k], deltaY, f), ms[k].id)))
  {
    hide OnWheel, Half;
    assert ms[..k + 1][..k] == ms[..k];
  }

  lemma {:induction false} WholePrefix(e: Engine, ms: seq<Mapping>, k: nat, deltaY: real, f: Frame)
    requires Linked(e) && k <= |ms| && TurnWhole(e, ms, deltaY, f)
    ensures TurnWhole(e, ms[..k], deltaY, f)
    decreases |ms| - k
  {
    hide Half, TurnWhole;
    if k < |ms| {
      WholePrefix(e, ms, k + 1, deltaY, f);
      OnWheelsNext(e, ms, k, deltaY, f);
    } else {
      assert ms[..k] == ms;
    }
  }

  /** One mapping of a whole turn. */
  lemma WheelNext(e: Engine, ms: seq<Mapping>, k: nat, deltaY: real, f: Frame)
    requires Good(e) && Linked(e) && k < |ms| && TurnWhole(e, ms, deltaY, f) && ms[k].Wheel?
    ensures
      var before, r := OnWheels(e, ms[..k], deltaY, f), OnWheels(e, ms[..k + 1], deltaY, f);
      Rooted(before) && r == OnWheel(before, ms[k], deltaY, f) && !(ms[k].gesture.Zoom? && Half(before, ms[k].id))
  {
    hide Good, Half, OnWheel, TurnWhole, Rooted;
    WholePrefix(e, ms, k, deltaY, f);
    WholePrefix(e, ms, k + 1, deltaY, f);
    OnWheelsNext(e, ms, k, deltaY, f);
    TurnExactly(e, ms[..k], deltaY, f);
    GoodParts(OnWheels(e, ms[..k], deltaY, f));
  }

  /** Mappings that do not move a wheel leave it alone. */
  lemma {:induction false} PassedOver(e: Engine, ms: seq<Mapping>, a: nat, b: nat, deltaY: real, f: Frame, id: Id)
    requires Good(e) && Linked(e) && a <= b <= |ms| && TurnWhole(e, ms, deltaY, f)
    requires forall k | a <= k < b :: !Moves(ms[k], id)
    ensures SamePointers(WheelAfter(e, ms, b, deltaY, f, id), WheelAfter(e, ms, a, deltaY, f, id))
    decreases b
  {
    hide Good, Half, OnWheel, TurnWhole, Rooted, Scrolled, Zoomed, TimersOf, WheelOf;
    if a < b {
      PassedOver(e, ms, a, b - 1, deltaY, f, id);
      assert !Moves(ms[b - 1], id);
      OnWheelsNext(e, ms, b - 1, deltaY, f);
      if ms[b - 1].Wheel? {
        WheelNext(e, ms, b - 1, deltaY, f);
        WheelEffect(OnWheels(e, ms[..b - 1], deltaY, f), ms[b - 1], deltaY, f);
      }
    }
  }

  /** A still zoom that starts goes on, with its radius just below the limit. */
  lemma StillZoom(e: Engine, r: Engine, id: Id, f: Frame)
    requires Zoomed(e, r, id, 0.0, f) && WheelOf(e, id).pointer1.None? && f.height > 0.0
    ensures WheelOf(r, id).pointer1.Some? && WheelOf(r, id).pointer2.Some? && WheelOf(r, id).delta == f.height * 0.38
  {
  }

  /** A still scroll that finds such a zoom ends, wherever it is placed, and takes the first pointer with it. */
  lemma StillScroll(e: Engine, r: Engine, id: Id, at: Spot, f: Frame)
    requires Scrolled(e, r, id, at, 0.0, f) && f.height > 0.0
    requires WheelOf(e, id).pointer1.Some? && WheelOf(e, id).delta == f.height * 0.38
    ensures WheelOf(r, id).pointer1.None? && WheelOf(r, id).pointer2 == WheelOf(e, id).pointer2
  {
  }

  /** The only mappings that move an id's wheel are a scroll at one place of the list and a zoom at another. */
  predicate Shared(ms: seq<Mapping>, i: nat, j: nat) {
    && i < |ms| && j < |ms| && ms[i].Wheel? && ms[i].gesture.Scroll? && ms[j].Wheel? && ms[j].gesture.Zoom?
    && ms[i].id == ms[j].id
    && forall k | 0 <= k < |ms| && k != i && k != j :: !Moves(ms[k], ms[i].id)
  }

  /** A turn that starts with nothing held and is whole leaves the zoom's two pointers, or the second alone. */
  lemma FirstTurn(e: Engine, ms: seq<Mapping>, i: nat, j: nat, f: Frame)
    requires f.height > 0.0 && Good(e) && Linked(e) && Shared(ms, i, j) && TurnWhole(e, ms, 0.0, f)
    requires SamePointers(WheelOf(e, ms[i].id), NO_WHEEL)
    ensures
      var s := WheelAfter(e, ms, |ms|, 0.0, f, ms[i].id);
      s.pointer2.Some? && (if i < j then s.pointer1.Some? && s.delta == f.height * 0.38 else s.pointer1.None?)
  {
    hide Good, TurnWhole, Rooted, TimersOf, WheelOf, OnWheel, Scrolled, Zoomed, Half;
    var id := ms[i].id;
    var a, b := if i < j then i else j, if i < j then j else i;
    assert ms[..0] == [];
    PassedOver(e, ms, 0, a, 0.0, f, id);
    PassedOver(e, ms, a + 1, b, 0.0, f, id);
    PassedOver(e, ms, b + 1, |ms|, 0.0, f, id);
    var e1, e2 := OnWheels(e, ms[..a], 0.0, f), OnWheels(e, ms[..b], 0.0, f);
    WheelNext(e, ms, a, 0.0, f);
    WheelNext(e, ms, b, 0.0, f);
    WheelEffect(e1, ms[a], 0.0, f);
    WheelEffect(e2, ms[b], 0.0, f);
    var r1, r2 := OnWheels(e, ms[..a + 1], 0.0, f), OnWheels(e, ms[..b + 1], 0.0, f);
    HalfIs(e2, id);
    if i < j {
      ScrolledShape(e1, r1, ms[a], 0.0, f);
      StillZoom(e2, r2, id, f);
    } else {
      StillZoom(e1, r1, id, f);
      StillScroll(e2, r2, id, Scale(ms[b].pos, f), f);
    }
  }

  /** The next turn is not whole: its zoom meets the second pointer alone. */
  lemma SecondTurn(e: Engine, ms: seq<Mapping>, i: nat, j: nat, f: Frame)
    requires f.height > 0.0 && Good(e) && Linked(e) && Shared(ms, i, j) && WheelOf(e, ms[i].id).pointer2.Some?
    requires
      var s := WheelOf(e, ms[i].id);
      if i < j then s.pointer1.Some? && s.delta == f.height * 0.38 else s.pointer1.None?
    ensures !TurnWhole(e, ms, 0.0, f)
  {
    hide Good, TurnWhole, Rooted, TimersOf, WheelOf, OnWheel, Scrolled, Zoomed, Half;
    if TurnWhole(e, ms, 0.0, f) {
      var id := ms[i].id;
      assert ms[..0] == [];
      PassedOver(e, ms, 0, if i < j then i else j, 0.0, f, id);
      WheelNext(e, ms, j, 0.0, f);
      HalfIs(OnWheels(e, ms[..j], 0.0, f), id);
      if i < j {
        WheelNext(e, ms, i, 0.0, f);
        var e1, r1 := OnWheels(e, ms[..i], 0.0, f), OnWheels(e, ms[..i + 1], 0.0, f);
        WheelEffect(e1, ms[i], 0.0, f);
        StillScroll(e1, r1, id, Scale(ms[i].pos, f), f);
        PassedOver(e, ms, i + 1, j, 0.0, f, id);
      }
    }
  }

  const NOWHERE := Walk([], [], [])

  /** Taking a profile and turning its wheels twice by nothing. */
  function TwoTurns(profile: Option<seq<Mapping>>, f: Frame): seq<Event> {
    [Update(profile, NOWHERE), Turn(0.0, f), Turn(0.0, f)]
  }

  lemma TakingAProfile(profile: Option<seq<Mapping>>, f: Frame)
    ensures Run(Fresh(), TwoTurns(profile, f)[..1]) == Fresh().(profile := profile)
    ensures Good(Fresh().(profile := profile))
  {
    hide Good;
    var es := TwoTurns(profile, f);
    RunNext(es, 0);
    assert es[..0] == [];
    FreshIsGood();
    GoodIgnoresProfile(Fresh(), profile);
  }

  lemma GoodIgnoresProfile(e: Engine, profile: Option<seq<Mapping>>)
    requires Good(e)
    ensures Good(e.(profile := profile))
  {
    hide Accounted;
    var r := e.(profile := profile);
    Unmoved(e, r);
    forall t | t in r.timers ensures t < r.nextTimer && TimerFits(r, t) { assert TimerFits(e, t); }
  }

  /** Two turns in any frame break a profile in which one scroll and one zoom share an id, wherever they are placed. */
  lemma SharedBreaks(ms: seq<Mapping>, i: nat, j: nat, f: Frame)
    requires Shared(ms, i, j) && f.height > 0.0
    ensures !AlwaysAccounted(TwoTurns(Some(ms), f))
  {
    hide Good, TurnWhole, Rooted, WheelOf, AlwaysAccounted, OnWheels;
    var es, e0 := TwoTurns(Some(ms), f), Fresh().(profile := Some(ms));
    TakingAProfile(Some(ms), f);
    AccountedExactly(es);
    if RunWhole(es) {
      assert StepWhole(Run(Fresh(), es[..1]), es[1]) && StepWhole(Run(Fresh(), es[..2]), es[2]);
      NothingYet(e0, ms[i].id);
      FirstTurn(e0, ms, i, j, f);
      RunNext(es, 1);
      assert ms[..|ms|] == ms;
      var e1 := OnWheels(e0, ms, 0.0, f);
      TurnExactly(e0, ms, 0.0, f);
      SecondTurn(e1, ms, i, j, f);
    }
  }

  lemma NothingYet(e: Engine, id: Id)
    requires e.wheels == map[]
    ensures SamePointers(WheelOf(e, id), NO_WHEEL)
  {
  }

  /** A run that only ever takes one profile. */
  predicate Only(events: seq<Event>, profile: Option<seq<Mapping>>) {
    forall i | 0 <= i < |events| :: events[i].Update? ==> events[i].profile == profile
  }

  /** Two mappings that give the same wheel the same gesture. */
  predicate Repeats(m: Mapping, n: Mapping) {
    m.Wheel? && n.Wheel? && m.id == n.id && m.gesture == n.gesture && !m.gesture.Neither?
  }

  predicate Unrepeated(profile: Option<seq<Mapping>>) {
    profile.Some? ==> forall i, j | 0 <= i < j < |profile.value| :: !Repeats(profile.value[i], profile.value[j])
  }

  /** A run whose wheels turn in one frame only. */
  predicate TurnsIn(events: seq<Event>, f: Frame) {
    forall i | 0 <= i < |events| :: events[i].Turn? ==> events[i].frame == f
  }

  /**
   * For a profile that gives no wheel the same gesture twice, and for every frame of some height: every run with it is
   * accounted for, in this frame or in all, if and only if no id is shared by a scroll and a zoom.
   */
  lemma SafeProfilesExactly(profile: Option<seq<Mapping>>, f: Frame)
    requires Unrepeated(profile) && f.height > 0.0
    ensures (forall events | Only(events, profile) && TurnsIn(events, f) :: AlwaysAccounted(events)) <==>
      Compatible(profile)
    ensures (forall events | Only(events, profile) :: AlwaysAccounted(events)) <==> Compatible(profile)
  {
    hide AlwaysAccounted, Shared;
    if Compatible(profile) {
      forall events | Only(events, profile) ensures AlwaysAccounted(events) {
        assert forall i | 0 <= i < |events| :: Allowed(events[i]);
        TouchesAreSafe(events);
      }
    } else {
      var i, j := SharedPlaces(profile.value);
      SharedBreaks(profile.value, i, j, f);
      assert Only(TwoTurns(profile, f), profile) && TurnsIn(TwoTurns(profile, f), f);
    }
  }

  lemma SharedPlaces(ms: seq<Mapping>) returns (i: nat, j: nat)
    requires !Compatible(Some(ms)) && Unrepeated(Some(ms))
    ensures Shared(ms, i, j)
  {
    var m, n :| m in ms && n in ms && m.Wheel? && n.Wheel? && m.id == n.id && m.gesture.Scroll? && n.gesture.Zoom?;
    i :| i < |ms| && ms[i] == m;
    j :| j < |ms| && ms[j] == n;
    forall k | 0 <= k < |ms| && k != i && k != j ensures !Moves(ms[k], ms[i].id) {
      NotRepeated(ms, k, i);
      NotRepeated(ms, k, j);
    }
  }

  lemma NotRepeated(ms: seq<Mapping>, k: nat, l: nat)
    requires Unrepeated(Some(ms)) && k < |ms| && l < |ms| && k != l
    ensures !Repeats(ms[k], ms[l])
  {
    var a, b := if k < l then k else l, if k < l then l else k;
    assert !Repeats(ms[a], ms[b]);
  }

  // ---------------------------------------------------------------- why gestures must not be repeated

  /** A zoom, a scroll near the lower edge of the frame, one in its middle and the zoom again, all on one wheel. */
  const REPEATED := [Wheel("w", Zoom, Spot(0.5, 0.5)), Wheel("w", Scroll, Spot(0.5, 0.95)),
                     Wheel("w", Scroll, Spot(0.5, 0.5)), Wheel("w", Zoom, Spot(0.5, 0.5))]

  /** What the wheel holds after the first zoom: a pinch in a frame of some height, or nothing in one of none. */
  predicate AfterZoom(s: WheelState, f: Frame) {
    s.pointer1.Some? == s.pointer2.Some? == (f.height > 0.0)
    && (f.height > 0.0 ==> f.height * 0.12 <= s.delta < f.height * 0.40)
  }

  lemma FirstZoom(e: Engine, r: Engine, deltaY: real, f: Frame)
    requires Zoomed(e, r, "w", deltaY, f) && WheelOf(e, "w").pointer1.None?
    ensures AfterZoom(WheelOf(r, "w"), f)
  {
  }

  /** The scroll near the edge reaches it in the same turn. */
  lemma OuterScroll(e: Engine, r: Engine, deltaY: real, f: Frame)
    requires Scrolled(e, r, "w", Scale(Spot(0.5, 0.95), f), deltaY, f) && AfterZoom(WheelOf(e, "w"), f)
    ensures WheelOf(r, "w").pointer1.None? && WheelOf(r, "w").pointer2.Some? == (f.height > 0.0)
  {
  }

  /** The scroll in the middle takes the place of the pointer that was lifted, and stays near it. */
  lemma InnerScroll(e: Engine, r: Engine, deltaY: real, f: Frame)
    requires Scrolled(e, r, "w", Scale(Spot(0.5, 0.5), f), deltaY, f)
    requires WheelOf(e, "w").pointer1.None? && WheelOf(e, "w").pointer2.Some? == (f.height > 0.0)
    ensures WheelOf(r, "w").pointer1.Some? == WheelOf(r, "w").pointer2.Some? == (f.height > 0.0)
    ensures f.height > 0.0 ==>
      WheelOf(r, "w").delta == Sign(deltaY) * (f.height * 0.15) - Sign(deltaY) * (f.height * 0.06)
  {
  }

  /** So the last zoom finds two pointers near the middle, and lifts both. */
  lemma LastZoom(e: Engine, r: Engine, deltaY: real, f: Frame)
    requires Zoomed(e, r, "w", deltaY, f)
    requires WheelOf(e, "w").pointer1.Some? == WheelOf(e, "w").pointer2.Some? == (f.height > 0.0)
    requires f.height > 0.0 ==>
      WheelOf(e, "w").delta == Sign(deltaY) * (f.height * 0.15) - Sign(deltaY) * (f.height * 0.06)
    ensures WheelOf(r, "w").pointer1.None? && WheelOf(r, "w").pointer2.None?
  {
  }

  /** Nothing is held by the wheel. */
  predicate Resting(e: Engine) {
    WheelOf(e, "w").pointer1.None? && WheelOf(e, "w").pointer2.None?
  }

  /** A turn that has been whole up to some mapping, and the next mapping, which meets no half pinch. */
  lemma WholeSoFar(e: Engine, k: nat, deltaY: real, f: Frame)
    requires Good(e) && Linked(e) && k < 4 && TurnWhole(e, REPEATED[..k], deltaY, f)
    requires REPEATED[k].gesture.Zoom? ==> !Half(OnWheels(e, REPEATED[..k], deltaY, f), "w")
    ensures TurnWhole(e, REPEATED[..k + 1], deltaY, f)
    ensures
      var before, r, m := OnWheels(e, REPEATED[..k], deltaY, f), OnWheels(e, REPEATED[..k + 1], deltaY, f), REPEATED[k];
      if m.gesture.Zoom? then Zoomed(before, r, "w", deltaY, f)
      else Scrolled(before, r, "w", Scale(m.pos, f), deltaY, f)
  {
    hide Good, TurnWhole, Half, Rooted, OnWheel, OnWheels, Zoomed, Scrolled, TimersOf, WheelOf;
    OnWheelsNext(e, REPEATED, k, deltaY, f);
    TurnExactly(e, REPEATED[..k], deltaY, f);
    GoodParts(OnWheels(e, REPEATED[..k], deltaY, f));
    WheelEffect(OnWheels(e, REPEATED[..k], deltaY, f), REPEATED[k], deltaY, f);
  }

  lemma RepeatedTurn(e: Engine, deltaY: real, f: Frame)
    requires Good(e) && Linked(e) && Resting(e)
    ensures TurnWhole(e, REPEATED, deltaY, f) && Resting(OnWheels(e, REPEATED, deltaY, f))
  {
    hide Good, TurnWhole, Half, OnWheels, Zoomed, Scrolled, WheelOf;
    var es := seq(5, k requires 0 <= k < 5 => OnWheels(e, REPEATED[..k], deltaY, f));
    NoneTurned(e, deltaY, f);
    HalfIs(es[0], "w");
    WholeSoFar(e, 0, deltaY, f);
    FirstZoom(es[0], es[1], deltaY, f);
    WholeSoFar(e, 1, deltaY, f);
    OuterScroll(es[1], es[2], deltaY, f);
    WholeSoFar(e, 2, deltaY, f);
    InnerScroll(es[2], es[3], deltaY, f);
    HalfIs(es[3], "w");
    WholeSoFar(e, 3, deltaY, f);
    LastZoom(es[3], es[4], deltaY, f);
    assert REPEATED[..4] == REPEATED;
  }

  lemma NoneTurned(e: Engine, deltaY: real, f: Frame)
    requires Linked(e)
    ensures OnWheels(e, REPEATED[..0], deltaY, f) == e && TurnWhole(e, REPEATED[..0], deltaY, f)
  {
  }

  predicate Takes(e: Engine) {
    e.profile.Some? ==> e.profile == Some(REPEATED)
  }

  predicate Brings(event: Event) {
    event.Update? ==> event.profile == Some(REPEATED)
  }

  lemma RestingStep(e: Engine, event: Event)
    requires Good(e) && Resting(e) && Takes(e) && Brings(event)
    ensures Linked(e) && StepWhole(e, event) && Resting(Step(e, event)) && Takes(Step(e, event))
  {
    hide Good, TurnWhole, OnKeys, OnWheels, Animate, Expire, Release;
    GoodParts(e);
    match event
    case Key(k) => if e.profile.Some? { AllKeysLeaveWheels(e, e.profile.value, k); }
    case Turn(deltaY, f) => if e.profile.Some? { RepeatedTurn(e, deltaY, f); }
    case Paint(i, now) => if i < |e.strokes| { FramesLeaveWheels(e, i, now); }
    case Timeout(t) =>
      if t in e.timers && e.timers[t].wheel in e.states {
        LastTimer(e, t);
        ExpireEffect(e, t);
      }
    case Update(p, w) =>
      if Walks(w, e) {
        SoundIgnoresProfile(e, e.(profile := p), w);
        ReleaseEmpties(e.(profile := p), w);
      }
    case ReleaseAll(w) =>
      if Walks(w, e) {
        SoundIgnoresProfile(e, e, w);
        ReleaseEmpties(e, w);
      }
  }

  lemma {:induction false} RepeatedRuns(events: seq<Event>, i: nat)
    requires (forall j | 0 <= j < |events| :: Brings(events[j])) && i <= |events|
    ensures forall j | 0 <= j < i :: StepWhole(Run(Fresh(), events[..j]), events[j])
    ensures Resting(Run(Fresh(), events[..i])) && Takes(Run(Fresh(), events[..i]))
  {
    hide Good, Resting, Takes, Brings, Step, StepWhole;
    if i == 0 {
      RestingFresh();
    } else {
      RepeatedRuns(events, i - 1);
      WholeRunsAreGood(events, i - 1);
      RestingStep(Run(Fresh(), events[..i - 1]), events[i - 1]);
      RunNext(events, i - 1);
    }
  }

  lemma RestingFresh()
    ensures Resting(Fresh()) && Takes(Fresh())
  {
  }

  /** A profile that shares an id between scrolls and zooms, and yet is accounted for in every run. */
  lemma RepeatedGesturesMayBeSafe(events: seq<Event>)
    requires Only(events, Some(REPEATED))
    ensures !Compatible(Some(REPEATED)) && !Unrepeated(Some(REPEATED)) && AlwaysAccounted(events)
  {
    hide AlwaysAccounted, StepWhole, Run;
    assert REPEATED[1] in REPEATED && REPEATED[0] in REPEATED;
    assert Repeats(REPEATED[0], REPEATED[3]);
    assert forall j | 0 <= j < |events| :: Brings(events[j]);
    RepeatedRuns(events, |events|);
    AccountedExactly(events);
  }
}

/** Which runs a release leaves nothing behind of: no pointer is lost unless a zoom overwrites it. */
module KeymapReleases {
  import opened Wrappers
  import opened TouchTrace
  import opened KeymapModel
  import opened KeymapSafety
  import opened KeymapProfiles

  // ---------------------------------------------------------------- what steps carry on

  /** Wheels and timers belong together. */
  ghost predicate Live(e: Engine) {
    Rooted(e) && Timed(e)
  }

  /** A pointer that is down is no longer known, so that nothing will ever lift it. */
  ghost predicate Forgot(e: Engine) {
    exists p :: Lost(e, p)
  }

  /** What was lost stays lost. */
  ghost predicate StaysLost(e: Engine, r: Engine) {
    forall p | Lost(e, p) :: Lost(r, p)
  }

  /** And nothing is lost anew. */
  ghost predicate Carries(e: Engine, r: Engine) {
    StaysLost(e, r) && (Kept(e) ==> Kept(r))
  }

  lemma CarriesChain(e: Engine, r: Engine, s: Engine)
    requires Carries(e, r) && Carries(r, s)
    ensures Carries(e, s)
  {
    hide Kept, Lost;
  }

  /** The same pointers in the same places. */
  lemma SameCarries(e: Engine, r: Engine)
    requires r.base == e.base && r.sent == e.sent && forall o :: PointerOf(r, o) == PointerOf(e, o)
    ensures Carries(e, r)
  {
    hide Used, Held, PointerOf;
    if Kept(e) {
      forall p | p in Held(r.sent) ensures exists o :: PointerOf(r, o) == Some(p) {
        var o :| PointerOf(e, o) == Some(p);
        assert PointerOf(r, o) == Some(p);
      }
    }
  }

  // ---------------------------------------------------------------- single touches

  lemma PressKept(e: Engine, r: Engine, o: Owner, at: Spot)
    requires Kept(e) && PointerOf(e, o).None? && OnlyAt(e, r, o, Some(e.base))
    requires r.base == e.base + 1 && r.sent == e.sent + [Touch(Down, Some(e.base), at.x, at.y)]
    ensures Kept(r)
  {
    hide Safe, Used, Held, PointerOf;
    SafeAppend(e.sent, Touch(Down, Some(e.base), at.x, at.y));
    forall p | p in Held(r.sent) ensures exists o' :: PointerOf(r, o') == Some(p) {
      if p == e.base {
        assert PointerOf(r, o) == Some(p);
      } else {
        var o' :| PointerOf(e, o') == Some(p);
        assert PointerOf(r, o') == Some(p);
      }
    }
  }

  lemma PressPlaces(e: Engine, o: Owner, at: Spot)
    requires Rooted(e) && Exists(e, o)
    ensures OnlyAt(e, Press(e, o, at), o, Some(e.base)) && SameTiming(e, Press(e, o, at))
  {
    AssignsOnly(e, o, Some(e.base));
    SamePlaces(Assign(e, o, Some(e.base)), Press(e, o, at));
  }

  /** A press loses no pointer, unless its place holds one. */
  lemma PressCarries(e: Engine, o: Owner, at: Spot)
    requires Live(e) && Exists(e, o)
    ensures var r := Press(e, o, at); Live(r) && SameTiming(e, r) && StaysLost(e, r) && PointerOf(r, o).Some?
    ensures PointerOf(e, o).None? ==> Carries(e, Press(e, o, at))
    ensures PointerOf(e, o).Some? && Kept(e) ==> Forgot(Press(e, o, at))
  {
    hide Safe, Used, Held, PointerOf, Rooted, Timed, SameTiming;
    var r, t := Press(e, o, at), Touch(Down, Some(e.base), at.x, at.y);
    PressPlaces(e, o, at);
    SameTimingKeeps(e, r);
    SafeAppend(e.sent, t);
    if Kept(e) {
      if PointerOf(e, o).None? { PressKept(e, r, o, at); } else { assert Lost(r, PointerOf(e, o).value); }
    }
  }

  /** A move loses none. */
  lemma DragCarries(e: Engine, o: Owner, at: Spot)
    requires Live(e)
    ensures var r := Drag(e, o, at); Live(r) && SameTiming(e, r) && Carries(e, r)
    ensures forall o' :: PointerOf(Drag(e, o, at), o') == PointerOf(e, o')
  {
    hide Safe, Used, Held, PointerOf;
    var r := Drag(e, o, at);
    SafeAppend(e.sent, Touch(Move, PointerOf(e, o), at.x, at.y));
    SamePlaces(e, r);
    SameTimingKeeps(e, r);
    if Kept(e) {
      forall p | p in Held(r.sent) ensures exists o' :: PointerOf(r, o') == Some(p) {
        var o' :| PointerOf(e, o') == Some(p);
        assert PointerOf(r, o') == Some(p);
      }
    }
  }

  lemma LiftKept(e: Engine, r: Engine, o: Owner, at: Spot)
    requires Kept(e) && OnlyAt(e, r, o, None)
    requires r.base == e.base && r.sent == e.sent + [Touch(Up, PointerOf(e, o), at.x, at.y)]
    ensures Kept(r)
  {
    hide Safe, Used, Held, PointerOf;
    SafeAppend(e.sent, Touch(Up, PointerOf(e, o), at.x, at.y));
    forall p | p in Held(r.sent) ensures exists o' :: PointerOf(r, o') == Some(p) {
      var o' :| PointerOf(e, o') == Some(p);
      assert PointerOf(r, o') == Some(p);
    }
  }

  lemma LiftPlaces(e: Engine, o: Owner, at: Spot)
    requires Rooted(e) && Exists(e, o)
    ensures OnlyAt(e, Lift(e, o, at), o, None) && SameTiming(e, Lift(e, o, at))
  {
    AssignsOnly(e, o, None);
    SamePlaces(Assign(e, o, None), Lift(e, o, at));
  }

  /** Nor does a lift, of a pointer or of none. */
  lemma LiftCarries(e: Engine, o: Owner, at: Spot)
    requires Live(e) && Exists(e, o)
    ensures var r := Lift(e, o, at); Live(r) && SameTiming(e, r) && Carries(e, r) && OnlyAt(e, r, o, None)
  {
    hide Safe, Used, Held, PointerOf, Rooted, Timed, SameTiming;
    var r := Lift(e, o, at);
    LiftPlaces(e, o, at);
    SameTimingKeeps(e, r);
    SafeAppend(e.sent, Touch(Up, PointerOf(e, o), at.x, at.y));
    if Kept(e) { LiftKept(e, r, o, at); }
  }

  // ---------------------------------------------------------------- keys and callbacks

  lemma SameLive(e: Engine, r: Engine)
    requires Live(e) && r.wheels == e.wheels && r.states == e.states && r.nextState == e.nextState
    requires r.timers == e.timers && r.nextTimer == e.nextTimer
    ensures Live(r)
  {
    forall t | t in r.timers ensures t < r.nextTimer && TimerFits(r, t) { assert TimerFits(e, t); }
  }

  lemma TapCarries(e: Engine, id: Id, at: Spot, isDown: bool)
    requires Live(e)
    ensures var r := OnTap(e, id, at, isDown); Live(r) && Carries(e, r)
  {
    hide Kept, Lost, Rooted, Timed, SameTiming, Press, Lift;
    if isDown != (id in e.active) {
      if isDown { PressCarries(e, ActiveOf(id), at); } else { LiftCarries(e, ActiveOf(id), at); }
    }
  }

  lemma SwipeCarries(e: Engine, m: Mapping, isDown: bool, f: Frame, now: real)
    requires m.Swipe? && Live(e)
    ensures var r := OnSwipe(e, m, isDown, f, now); Live(r) && Carries(e, r)
  {
    hide Live, Kept, Lost, SameTiming, Press, Lift, Scale;
    var r := OnSwipe(e, m, isDown, f, now);
    if isDown != (m.id in e.active) {
      if isDown {
        var e1 := Press(e, ActiveOf(m.id), Scale(m.startPos, f));
        PressCarries(e, ActiveOf(m.id), Scale(m.startPos, f));
        SamePlaces(e1, r);
        SameCarries(e1, r);
        SameLive(e1, r);
      } else {
        LiftCarries(e, ActiveOf(m.id), Scale(m.endPos, f));
      }
    }
  }

  lemma FollowCarries(e: Engine, id: Id, center: Spot, edge: Spot)
    requires id in e.joysticks && Live(e)
    ensures var r := Follow(e, id, center, edge); Live(r) && Carries(e, r)
  {
    hide Live, Kept, Lost, SameTiming, Press, Lift, Drag, Neutral;
    var o, stick := StickOf(id), e.joysticks[id];
    if Neutral(stick) {
      if stick.pointer.Some? { LiftCarries(e, o, center); }
    } else if stick.pointer.None? {
      PressCarries(e, o, center);
      DragCarries(Press(e, o, center), o, edge);
    } else {
      DragCarries(e, o, edge);
    }
  }

  lemma StickCarries(e: Engine, m: Mapping, d: Toward, isDown: bool, f: Frame)
    requires m.Joystick? && Live(e)
    ensures var r := OnStick(e, m, d, isDown, f); Live(r) && Carries(e, r)
  {
    hide Live, Kept, Lost, EdgeOf, Follow, Scale;
    var before := if m.id in e.joysticks then e.joysticks[m.id] else NO_STICK;
    var stick := Pushed(before, d, isDown);
    var e1 := e.(joysticks := e.joysticks[m.id := stick]);
    SameCarries(e, e1);
    SameLive(e, e1);
    FollowCarries(e1, m.id, Scale(m.center, f), EdgeOf(m, stick, f));
  }

  lemma KeyCarries(e: Engine, m: Mapping, k: KeyPress)
    requires Live(e)
    ensures var r := OnKey(e, m, k); Live(r) && Carries(e, r)
  {
    hide Live, Kept, Lost, OnTap, OnStick, OnSwipe, Scale, DirectionOf;
    if Answers(m, Lower(k.key)) && !k.repeat {
      match m
      case Tap(id, _, pos) => TapCarries(e, id, Scale(pos, k.frame), k.isDown);
      case Command(_, cmd) =>
        SamePlaces(e, e.(commands := e.commands + [cmd]));
        SameCarries(e, e.(commands := e.commands + [cmd]));
        SameLive(e, e.(commands := e.commands + [cmd]));
      case Joystick(_, keys, _, _) => StickCarries(e, m, DirectionOf(keys, Lower(k.key)).value, k.isDown, k.frame);
      case Swipe(_, _, _, _, _) => SwipeCarries(e, m, k.isDown, k.frame, k.now);
      case _ =>
    }
  }

  lemma {:induction false} KeysCarry(e: Engine, ms: seq<Mapping>, k: KeyPress)
    requires Live(e)
    ensures Live(OnKeys(e, ms, k)) && Carries(e, OnKeys(e, ms, k))
  {
    hide Live, Kept, Lost, OnKey;
    if ms != [] {
      KeysCarry(e, ms[..|ms| - 1], k);
      KeyCarries(OnKeys(e, ms[..|ms| - 1], k), ms[|ms| - 1], k);
    }
  }

  lemma PaintCarries(e: Engine, i: nat, now: real)
    requires Live(e) && i < |e.strokes|
    ensures Live(Animate(e, i, now)) && Carries(e, Animate(e, i, now))
  {
    hide Live, Kept, Lost, SameTiming, Progress, Between, Drag, PointerOf;
    var s := e.strokes[i];
    var e1 := e.(strokes := e.strokes[..i] + e.strokes[i + 1..]);
    var o, r := ActiveOf(s.id), Animate(e, i, now);
    SamePlaces(e, e1);
    SameCarries(e, e1);
    SameLive(e, e1);
    if PointerOf(e, o) == Some(s.pointer) {
      var e2 := Drag(e1, o, Between(s, Progress(s, now)));
      DragCarries(e1, o, Between(s, Progress(s, now)));
      SamePlaces(e2, r);
      SameCarries(e2, r);
      SameLive(e2, r);
    }
  }

  // ---------------------------------------------------------------- wheels

  lemma DeltaCarries(e: Engine, id: Id, delta: real)
    requires Live(e) && id in e.wheels
    ensures var r := SetDelta(e, id, delta); Live(r) && SameTiming(e, r) && Carries(e, r)
    ensures forall o :: PointerOf(SetDelta(e, id, delta), o) == PointerOf(e, o)
  {
    hide Kept, Lost;
    SameCarries(e, SetDelta(e, id, delta));
    SameTimingKeeps(e, SetDelta(e, id, delta));
  }

  lemma TimerCarries(e: Engine, id: Id, zoom: bool, spot1: Spot, spot2: Spot)
    requires Live(e) && id in e.wheels && StateOf(e, id).timeout == None
    ensures var r := SetTimer(e, id, zoom, spot1, spot2); Live(r) && Carries(e, r)
  {
    hide Kept, Lost;
    var r := SetTimer(e, id, zoom, spot1, spot2);
    SameCarries(e, r);
    forall t | t in r.timers ensures t < r.nextTimer && TimerFits(r, t) {
      if t != e.nextTimer { assert TimerFits(e, t); }
    }
  }

  /** A wheel in use whose timer is cleared. */
  ghost predicate Turning(e: Engine, id: Id) {
    Live(e) && id in e.wheels && StateOf(e, id).timeout == None
  }

  lemma CreatedPlaces(e: Engine, id: Id)
    requires Live(e)
    ensures var r := Created(e, id); r.base == e.base && r.sent == e.sent
    ensures forall o :: PointerOf(Created(e, id), o) == PointerOf(e, o)
  {
    hide Timed;
  }

  lemma CreatedCarries(e: Engine, id: Id)
    requires Live(e)
    ensures Live(Created(e, id)) && Carries(e, Created(e, id))
  {
    hide Carries;
    var r := Created(e, id);
    CreatedPlaces(e, id);
    SameCarries(e, r);
    forall t | t in r.timers ensures t < r.nextTimer && TimerFits(r, t) { assert TimerFits(e, t); }
  }

  lemma ReadyCarries(e: Engine, id: Id)
    requires Live(e)
    ensures Turning(Ready(e, id), id) && Carries(e, Ready(e, id))
    ensures WheelOf(Ready(e, id), id) == WheelOf(e, id).(timeout := None)
  {
    hide Kept, Lost, Created, Unscheduled, Timed;
    var e1 := Created(e, id);
    CreatedCarries(e, id);
    UnscheduledTimed(e1, id);
    UnscheduledPlaces(e1, id);
    SameCarries(e1, Unscheduled(e1, id));
    ReadyEffect(e, id);
  }

  lemma UnscheduledPlaces(e: Engine, id: Id)
    requires Rooted(e) && id in e.wheels
    ensures var r := Unscheduled(e, id); r.base == e.base && r.sent == e.sent
    ensures forall o :: PointerOf(Unscheduled(e, id), o) == PointerOf(e, o)
  {
  }

  lemma TimingTurning(e: Engine, r: Engine, id: Id)
    requires Turning(e, id) && Live(r) && SameTiming(e, r)
    ensures Turning(r, id)
  {
  }

  lemma FirstIs(e: Engine, id: Id)
    requires Linked(e) && id in e.wheels
    ensures PointerOf(e, FirstOf(id)) == StateOf(e, id).pointer1
    ensures PointerOf(e, SecondOf(id)) == StateOf(e, id).pointer2
    ensures Exists(e, FirstOf(id)) && Exists(e, SecondOf(id)) && WheelOf(e, id) == StateOf(e, id)
  {
  }

  lemma LiveLinked(e: Engine)
    requires Live(e)
    ensures Linked(e)
  {
  }

  lemma ScrollCarries(e: Engine, id: Id, at: Spot, deltaY: real, f: Frame)
    requires Turning(e, id)
    ensures Linked(e)
    ensures var r := ScrollOn(ScrollStart(e, id, at, deltaY, f), id, at, deltaY, f); Live(r) && Carries(e, r)
  {
    hide Live, Carries, SameTiming, PointerOf, SetDelta, Press, Drag, Lift, SetTimer;
    hide ScrollFrom, ScrollTo, Inside, ScrollEnds;
    LiveLinked(e);
    ScrollStartCarries(e, id, at, deltaY, f);
    var e0 := ScrollStart(e, id, at, deltaY, f);
    ScrollOnCarries(e0, id, at, deltaY, f);
    CarriesChain(e, e0, ScrollOn(e0, id, at, deltaY, f));
  }

  lemma ScrollStartCarries(e: Engine, id: Id, at: Spot, deltaY: real, f: Frame)
    requires Turning(e, id) && Linked(e)
    ensures var r := ScrollStart(e, id, at, deltaY, f); Turning(r, id) && Carries(e, r)
  {
    hide Live, Kept, Lost, SameTiming, PointerOf, SetDelta, Press, ScrollFrom, Inside;
    FirstIs(e, id);
    if StateOf(e, id).pointer1.None? {
      var delta := ScrollFrom(deltaY, f);
      var e1 := SetDelta(e, id, delta);
      DeltaCarries(e, id, delta);
      TimingTurning(e, e1, id);
      FirstIs(e1, id);
      PressCarries(e1, FirstOf(id), Inside(at, delta, f));
      TimingTurning(e1, Press(e1, FirstOf(id), Inside(at, delta, f)), id);
    }
  }

  lemma ScrollOnCarries(e: Engine, id: Id, at: Spot, deltaY: real, f: Frame)
    requires Turning(e, id) && Linked(e)
    ensures var r := ScrollOn(e, id, at, deltaY, f); Live(r) && Carries(e, r)
  {
    hide Live, Carries, SameTiming, PointerOf, SetDelta, Drag, Lift, SetTimer, ScrollTo, Inside, ScrollEnds;
    var delta := ScrollTo(StateOf(e, id).delta, deltaY, f);
    var e1 := SetDelta(e, id, delta);
    DeltaCarries(e, id, delta);
    TimingTurning(e, e1, id);
    var spot := if ScrollEnds(at, delta, f) then Inside(at, delta, f) else Spot(at.x, at.y + delta);
    var e2 := Drag(e1, FirstOf(id), spot);
    DragCarries(e1, FirstOf(id), spot);
    TimingTurning(e1, e2, id);
    CarriesChain(e, e1, e2);
    LiveLinked(e2);
    FirstIs(e2, id);
    if ScrollEnds(at, delta, f) {
      LiftCarries(e2, FirstOf(id), spot);
      CarriesChain(e, e2, Lift(e2, FirstOf(id), spot));
    } else {
      TimerCarries(e2, id, false, spot, spot);
      CarriesChain(e, e2, SetTimer(e2, id, false, spot, spot));
    }
  }

  lemma ZoomOnCarries(e: Engine, id: Id, deltaY: real, f: Frame)
    requires Turning(e, id) && Linked(e)
    ensures var r := ZoomOn(e, id, deltaY, f); Live(r) && Carries(e, r)
  {
    hide Live, Carries, SameTiming, PointerOf, SetDelta, Pinch, Unpinch, SetTimer, ZoomWanted, ZoomTo, ZoomEnds;
    hide PinchStart, PinchEnd;
    var wanted := ZoomWanted(StateOf(e, id).delta, deltaY, f);
    var delta := ZoomTo(wanted, f);
    var spot1, spot2 := PinchStart(f, delta), PinchEnd(f, delta);
    var e1 := SetDelta(e, id, delta);
    DeltaCarries(e, id, delta);
    TimingTurning(e, e1, id);
    LiveLinked(e1);
    var e2 := Pinch(e1, id, spot1, spot2);
    PinchCarries(e1, id, spot1, spot2);
    CarriesChain(e, e1, e2);
    LiveLinked(e2);
    if ZoomEnds(wanted, f) {
      UnpinchCarries(e2, id, spot1, spot2);
      CarriesChain(e, e2, Unpinch(e2, id, spot1, spot2));
    } else {
      TimerCarries(e2, id, true, spot1, spot2);
      CarriesChain(e, e2, SetTimer(e2, id, true, spot1, spot2));
    }
  }

  lemma PinchCarries(e: Engine, id: Id, spot1: Spot, spot2: Spot)
    requires Turning(e, id) && Linked(e)
    ensures var r := Pinch(e, id, spot1, spot2); Turning(r, id) && Carries(e, r)
  {
    hide Live, Carries, SameTiming, PointerOf, Drag;
    var e1 := Drag(e, FirstOf(id), spot1);
    DragCarries(e, FirstOf(id), spot1);
    TimingTurning(e, e1, id);
    DragCarries(e1, SecondOf(id), spot2);
    TimingTurning(e1, Drag(e1, SecondOf(id), spot2), id);
    CarriesChain(e, e1, Drag(e1, SecondOf(id), spot2));
  }

  lemma UnpinchCarries(e: Engine, id: Id, spot1: Spot, spot2: Spot)
    requires Live(e) && Linked(e) && id in e.wheels
    ensures var r := Unpinch(e, id, spot1, spot2); Live(r) && Carries(e, r)
  {
    hide Live, Carries, SameTiming, PointerOf, Lift, OnlyAt;
    var e1 := Lift(e, FirstOf(id), spot1);
    FirstIs(e, id);
    LiftCarries(e, FirstOf(id), spot1);
    LiveLinked(e1);
    FirstIs(e1, id);
    LiftCarries(e1, SecondOf(id), spot2);
    CarriesChain(e, e1, Lift(e1, SecondOf(id), spot2));
  }

  /** A wheel holds its second pointer without the first. */
  predicate SecondAlone(e: Engine, id: Id) {
    WheelOf(e, id).pointer1.None? && WheelOf(e, id).pointer2.Some?
  }

  /** A zoom that starts loses the second pointer of its wheel, if that has one alone, and no other. */
  lemma ZoomStartCarries(e: Engine, id: Id, deltaY: real, f: Frame)
    requires Turning(e, id) && Linked(e)
    ensures var r := ZoomStart(e, id, deltaY, f); Turning(r, id) && StaysLost(e, r)
    ensures !SecondAlone(e, id) ==> Carries(e, ZoomStart(e, id, deltaY, f))
    ensures SecondAlone(e, id) && Kept(e) ==> Forgot(ZoomStart(e, id, deltaY, f))
  {
    hide Live, Kept, Lost, SameTiming, PointerOf, SetDelta, Press, ZoomFrom, PinchStart, PinchEnd;
    FirstIs(e, id);
    if StateOf(e, id).pointer1.None? {
      var delta := ZoomFrom(deltaY, f);
      var e1 := SetDelta(e, id, delta);
      DeltaCarries(e, id, delta);
      TimingTurning(e, e1, id);
      FirstIs(e1, id);
      var e2 := Press(e1, FirstOf(id), PinchStart(f, delta));
      PressCarries(e1, FirstOf(id), PinchStart(f, delta));
      PressSecond(e1, id, PinchStart(f, delta));
      TimingTurning(e1, e2, id);
      FirstIs(e2, id);
      PressCarries(e2, SecondOf(id), PinchEnd(f, delta));
      TimingTurning(e2, Press(e2, SecondOf(id), PinchEnd(f, delta)), id);
    }
  }

  lemma PressSecond(e: Engine, id: Id, at: Spot)
    requires Live(e) && Linked(e) && id in e.wheels
    ensures PointerOf(Press(e, FirstOf(id), at), SecondOf(id)) == PointerOf(e, SecondOf(id))
    ensures id in Press(e, FirstOf(id), at).wheels
  {
  }

  lemma WheelCarries(e: Engine, m: Mapping, deltaY: real, f: Frame)
    requires Live(e) && m.Wheel?
    ensures Linked(e) && Live(OnWheel(e, m, deltaY, f)) && StaysLost(e, OnWheel(e, m, deltaY, f))
    ensures
      var r := OnWheel(e, m, deltaY, f);
      if m.gesture.Zoom? && SecondAlone(e, m.id) then Kept(e) ==> Forgot(r) else Carries(e, r)
  {
    hide Live, Kept, Lost, Ready, ScrollStart, ScrollOn, ZoomStart, ZoomOn, Scale, WheelOf;
    LiveLinked(e);
    ReadyCarries(e, m.id);
    var e1, at := Ready(e, m.id), Scale(m.pos, f);
    match m.gesture
    case Scroll =>
      ScrollCarries(e1, m.id, at, deltaY, f);
    case Zoom =>
      ZoomStartCarries(e1, m.id, deltaY, f);
      ZoomOnCarries(ZoomStart(e1, m.id, deltaY, f), m.id, deltaY, f);
    case Neither =>
  }

  /** No zoom of a turn meets a wheel that holds its second pointer alone. */
  predicate TurnRemembers(e: Engine, ms: seq<Mapping>, deltaY: real, f: Frame)
    requires Linked(e)
    decreases |ms|
  {
    ms == [] ||
    (TurnRemembers(e, ms[..|ms| - 1], deltaY, f) &&
     var m := ms[|ms| - 1];
     !(m.Wheel? && m.gesture.Zoom? && SecondAlone(OnWheels(e, ms[..|ms| - 1], deltaY, f), m.id)))
  }

  lemma {:induction false} TurnCarries(e: Engine, ms: seq<Mapping>, deltaY: real, f: Frame)
    requires Live(e)
    ensures Linked(e) && Live(OnWheels(e, ms, deltaY, f)) && StaysLost(e, OnWheels(e, ms, deltaY, f))
    ensures
      var r := OnWheels(e, ms, deltaY, f);
      if TurnRemembers(e, ms, deltaY, f) then Carries(e, r) else Kept(e) ==> Forgot(r)
    decreases |ms|
  {
    hide Live, Kept, Lost, SecondAlone, OnWheel;
    LiveLinked(e);
    if ms != [] {
      var front, m := ms[..|ms| - 1], ms[|ms| - 1];
      TurnCarries(e, front, deltaY, f);
      if m.Wheel? { WheelCarries(OnWheels(e, front, deltaY, f), m, deltaY, f); }
    }
  }

  // ---------------------------------------------------------------- timers and releases

  lemma FiredCarries(e: Engine, t: nat)
    requires Live(e) && t in e.timers
    ensures var r := e.(timers := e.timers - {t}); Live(r) && Carries(e, r) && TimerFits(e, t)
  {
    hide Kept, Lost;
    var r := e.(timers := e.timers - {t});
    SamePlaces(e, r);
    SameCarries(e, r);
    forall u | u in r.timers ensures u < r.nextTimer && TimerFits(r, u) { assert TimerFits(e, u); }
  }

  lemma ExpireCarries(e: Engine, t: nat)
    requires Live(e) && t in e.timers && e.timers[t].wheel in e.states
    ensures Live(Expire(e, t)) && Carries(e, Expire(e, t))
  {
    hide Live, Carries, Unpinch, Lift;
    var m, e1 := e.timers[t], e.(timers := e.timers - {t});
    FiredCarries(e, t);
    LiveLinked(e1);
    if StateOf(e1, m.id).pointer1.Some? {
      ExpireIs(e, t);
      if m.zoom {
        UnpinchCarries(e1, m.id, m.spot1, m.spot2);
        CarriesChain(e, e1, Unpinch(e1, m.id, m.spot1, m.spot2));
      } else {
        FirstIs(e1, m.id);
        LiftCarries(e1, FirstOf(m.id), m.spot1);
        CarriesChain(e, e1, Lift(e1, FirstOf(m.id), m.spot1));
      }
    }
  }

  lemma ExpireIs(e: Engine, t: nat)
    requires Linked(e) && t in e.timers && TimerFits(e, t) && e.states[e.timers[t].wheel].pointer1.Some?
    ensures
      var m, e1 := e.timers[t], e.(timers := e.timers - {t});
      Expire(e, t) == if m.zoom then Unpinch(e1, m.id, m.spot1, m.spot2) else Lift(e1, FirstOf(m.id), m.spot1)
  {
    var m, e1 := e.timers[t], e.(timers := e.timers - {t});
    if m.zoom { assert Expire(e, t).states == Unpinch(e1, m.id, m.spot1, m.spot2).states; }
  }

  lemma {:induction false} ReleaseActiveCarries(e: Engine, ids: seq<Id>)
    requires Live(e)
    ensures Live(ReleaseActive(e, ids)) && Carries(e, ReleaseActive(e, ids))
    decreases |ids|
  {
    hide Live, Carries, Lift, OnlyAt, SameTiming;
    if ids == [] {
      SameCarries(e, e);
    } else {
      LiftCarries(e, ActiveOf(ids[0]), ORIGIN);
      ReleaseActiveCarries(Lift(e, ActiveOf(ids[0]), ORIGIN), ids[1..]);
      CarriesChain(e, Lift(e, ActiveOf(ids[0]), ORIGIN), ReleaseActive(e, ids));
    }
  }

  lemma ReleaseStickCarries(e: Engine, id: Id)
    requires Live(e) && id in e.joysticks
    ensures Live(ReleaseStick(e, id)) && Carries(e, ReleaseStick(e, id))
  {
    hide Live, Carries, OnlyAt, SameTiming;
    var e1 := if e.joysticks[id].pointer.Some? then Lift(e, StickOf(id), ORIGIN) else e;
    SameCarries(e, e);
    if e.joysticks[id].pointer.Some? { LiftCarries(e, StickOf(id), ORIGIN); }
    SameCarries(e1, ReleaseStick(e, id));
    SameLive(e1, ReleaseStick(e, id));
    CarriesChain(e, e1, ReleaseStick(e, id));
  }

  lemma {:induction false} ReleaseSticksCarries(e: Engine, ids: seq<Id>)
    requires Live(e) && forall i | 0 <= i < |ids| :: ids[i] in e.joysticks
    ensures Live(ReleaseSticks(e, ids)) && Carries(e, ReleaseSticks(e, ids))
    decreases |ids|
  {
    hide Live, Carries;
    if ids == [] {
      SameCarries(e, e);
    } else {
      var e1 := ReleaseStick(e, ids[0]);
      assert e1.joysticks.Keys == e.joysticks.Keys;
      ReleaseStickCarries(e, ids[0]);
      ReleaseSticksCarries(e1, ids[1..]);
      CarriesChain(e, e1, ReleaseSticks(e, ids));
    }
  }

  lemma UntimedCarries(e: Engine, id: Id)
    requires Live(e) && id in e.wheels
    ensures Linked(e) && Live(Untimed(e, id)) && Carries(e, Untimed(e, id))
    ensures forall t | t in Untimed(e, id).timers :: Untimed(e, id).timers[t].id != id
  {
    hide Kept, Lost;
    var r := Untimed(e, id);
    SamePlaces(e, r);
    SameCarries(e, r);
    forall t | t in r.timers ensures t < r.nextTimer && TimerFits(r, t) && r.timers[t].id != id {
      assert TimerFits(e, t);
    }
  }

  lemma LiftBothCarries(e: Engine, id: Id)
    requires Live(e) && Linked(e) && id in e.wheels
    ensures Carries(e, LiftBoth(e, id))
  {
    hide Live, Carries, Lift, OnlyAt, SameTiming;
    SameCarries(e, e);
    FirstIs(e, id);
    var e1 := if StateOf(e, id).pointer1.Some? then Lift(e, FirstOf(id), ORIGIN) else e;
    if StateOf(e, id).pointer1.Some? { LiftCarries(e, FirstOf(id), ORIGIN); }
    LiveLinked(e1);
    FirstIs(e1, id);
    if StateOf(e1, id).pointer2.Some? {
      LiftCarries(e1, SecondOf(id), ORIGIN);
      CarriesChain(e, e1, Lift(e1, SecondOf(id), ORIGIN));
    }
  }

  /** After both lifts the wheel holds nothing, and the others are as they were. */
  lemma LiftBothPlaces(e: Engine, id: Id)
    requires Live(e) && Linked(e) && id in e.wheels
    ensures
      var r := LiftBoth(e, id);
      forall o :: PointerOf(r, o) == if o == FirstOf(id) || o == SecondOf(id) then None else PointerOf(e, o)
  {
    hide PointerOf, Lift, Timed, SameTiming, Carries;
    FirstIs(e, id);
    var e1 := if StateOf(e, id).pointer1.Some? then Lift(e, FirstOf(id), ORIGIN) else e;
    if StateOf(e, id).pointer1.Some? { LiftCarries(e, FirstOf(id), ORIGIN); }
    LiveLinked(e1);
    FirstIs(e1, id);
    if StateOf(e1, id).pointer2.Some? { LiftCarries(e1, SecondOf(id), ORIGIN); }
  }

  lemma ReleaseWheelCarries(e: Engine, id: Id)
    requires Live(e) && id in e.wheels
    ensures Linked(e) && Live(ReleaseWheel(e, id)) && Carries(e, ReleaseWheel(e, id))
  {
    hide Rooted, Timed, Carries, Untimed, LiftBoth, ReleaseWheel, PointerOf;
    LiveLinked(e);
    var e1, r := Untimed(e, id), ReleaseWheel(e, id);
    UntimedCarries(e, id);
    ReleaseWheelFields(e, id);
    ReleaseWheelSends(e, id);
    LiveLinked(e1);
    LiftBothCarries(e1, id);
    LiftBothPlaces(e1, id);
    DroppedPlaces(e1, r, id);
    SameCarries(LiftBoth(e1, id), r);
    CarriesChain(e, e1, LiftBoth(e1, id));
    CarriesChain(e, LiftBoth(e1, id), r);
    DroppedTimed(e1, r, id);
  }

  lemma DroppedPlaces(e: Engine, r: Engine, id: Id)
    requires r.wheels == e.wheels - {id} && r.states == e.states && r.active == e.active && r.joysticks == e.joysticks
    ensures forall o :: PointerOf(r, o) == if o == FirstOf(id) || o == SecondOf(id) then None else PointerOf(e, o)
  {
  }

  lemma {:induction false} ReleaseWheelsCarries(e: Engine, ids: seq<Id>)
    requires Live(e) && (forall i | 0 <= i < |ids| :: ids[i] in e.wheels)
    requires forall i, j | 0 <= i < j < |ids| :: ids[i] != ids[j]
    ensures Linked(e) && Live(ReleaseWheels(e, ids)) && Carries(e, ReleaseWheels(e, ids))
    decreases |ids|
  {
    hide Live, Carries, ReleaseWheel;
    LiveLinked(e);
    if ids == [] {
      SameCarries(e, e);
    } else {
      ReleaseWheelCarries(e, ids[0]);
      ReleaseWheelsCarries(ReleaseWheel(e, ids[0]), ids[1..]);
      CarriesChain(e, ReleaseWheel(e, ids[0]), ReleaseWheels(e, ids));
    }
  }

  lemma ReleaseCarries(e: Engine, w: Walk)
    requires Live(e) && Walks(w, e)
    ensures Linked(e) && Live(Release(e, w)) && Carries(e, Release(e, w))
  {
    hide Live, Carries, ReleaseActive, ReleaseSticks, ReleaseWheels;
    LiveLinked(e);
    WalkedKeys(e, w);
    var e1 := ReleaseActive(e, w.active);
    ReleaseActiveKeeps(e, w.active);
    ReleaseActiveCarries(e, w.active);
    var e2 := ReleaseSticks(e1, w.joysticks);
    ReleaseSticksKeeps(e1, w.joysticks);
    ReleaseSticksCarries(e1, w.joysticks);
    ReleaseWheelsCarries(e2, w.wheels);
    CarriesChain(e, e1, e2);
    CarriesChain(e, e2, Release(e, w));
  }

  lemma WalkedKeys(e: Engine, w: Walk)
    requires Walks(w, e)
    ensures forall i | 0 <= i < |w.joysticks| :: w.joysticks[i] in e.joysticks
    ensures forall i | 0 <= i < |w.wheels| :: w.wheels[i] in e.wheels
  {
    assert forall i | 0 <= i < |w.joysticks| :: w.joysticks[i] in e.joysticks.Keys;
    assert forall i | 0 <= i < |w.wheels| :: w.wheels[i] in e.wheels.Keys;
  }

  /** After a release no place holds a pointer and no timer is pending. */
  lemma ReleaseHoldsNothing(e: Engine, w: Walk)
    requires Live(e) && Walks(w, e)
    ensures Linked(e) && Release(e, w).timers == map[] && forall o :: PointerOf(Release(e, w), o).None?
  {
    hide Carries;
    LiveLinked(e);
    ReleaseCarries(e, w);
    ReleaseShape(e, w);
    var r := Release(e, w);
    assert forall t | t in r.timers :: TimerFits(r, t);
    assert r.timers.Keys == {};
  }

  // ---------------------------------------------------------------- runs

  predicate StepRemembers(e: Engine, event: Event)
    requires Linked(e)
  {
    event.Turn? && e.profile.Some? ==> TurnRemembers(e, e.profile.value, event.deltaY, event.frame)
  }

  lemma StepCarries(e: Engine, event: Event)
    requires Live(e)
    ensures Linked(e) && Live(Step(e, event)) && StaysLost(e, Step(e, event))
    ensures if StepRemembers(e, event) then Carries(e, Step(e, event)) else Kept(e) ==> Forgot(Step(e, event))
  {
    hide Live, Kept, Lost, OnKeys, OnWheels, Animate, Expire, Release, TurnRemembers;
    LiveLinked(e);
    match event
    case Key(k) => if e.profile.Some? { KeysCarry(e, e.profile.value, k); }
    case Turn(deltaY, f) => if e.profile.Some? { TurnCarries(e, e.profile.value, deltaY, f); }
    case Paint(i, now) => if i < |e.strokes| { PaintCarries(e, i, now); }
    case Timeout(t) => if t in e.timers && e.timers[t].wheel in e.states { ExpireCarries(e, t); }
    case Update(p, w) => if Walks(w, e) { AnyProfileCarries(e, e.(profile := p), w); }
    case ReleaseAll(w) => if Walks(w, e) { AnyProfileCarries(e, e, w); }
  }

  lemma AnyProfileCarries(e: Engine, e1: Engine, w: Walk)
    requires Live(e) && Walks(w, e) && e1 == e.(profile := e1.profile)
    ensures Linked(e1) && Live(Release(e1, w)) && Carries(e, Release(e1, w))
    ensures Release(e1, w).timers == map[] && forall o :: PointerOf(Release(e1, w), o).None?
  {
    hide Kept, Lost, Release;
    SamePlaces(e, e1);
    SameCarries(e, e1);
    SameLive(e, e1);
    ReleaseCarries(e1, w);
    ReleaseHoldsNothing(e1, w);
  }

  /** In no turn of a run does a zoom meet a wheel that holds its second pointer alone. */
  predicate RunRemembers(events: seq<Event>) {
    forall i | 0 <= i < |events| :: StepRemembers(Run(Fresh(), events[..i]), events[i])
  }

  lemma {:induction false} RunCarries(events: seq<Event>, i: nat)
    requires i <= |events|
    ensures
      var e := Run(Fresh(), events[..i]);
      && Live(e)
      && if forall j | 0 <= j < i :: StepRemembers(Run(Fresh(), events[..j]), events[j]) then Kept(e) else Forgot(e)
  {
    hide Live, Kept, Lost, Step, StepRemembers;
    if i == 0 {
      FreshKept();
    } else {
      RunCarries(events, i - 1);
      RunNext(events, i - 1);
      StepCarries(Run(Fresh(), events[..i - 1]), events[i - 1]);
    }
  }

  lemma FreshKept()
    ensures Live(Fresh()) && Kept(Fresh())
  {
  }

  /**
   * For every run under any profiles and a profile change or a release at its end: no pointer is left down if and only
   * if no zoom met a wheel that held its second pointer alone. No timer is left in any case.
   */
  lemma NothingHeldExactly(events: seq<Event>, last: Event)
    requires (last.Update? || last.ReleaseAll?) && Walks(last.walk, Run(Fresh(), events))
    ensures TouchTrace.Held(Run(Fresh(), events + [last]).sent) == {} <==> RunRemembers(events)
    ensures Run(Fresh(), events + [last]).timers == map[]
  {
    hide Live, Kept, Lost, TouchTrace.Held, PointerOf, Release, Run, Walks, StepRemembers;
    var e, all := Run(Fresh(), events), events + [last];
    assert events[..|events|] == events;
    RunCarries(events, |events|);
    assert all[..|events|] == events && all[..|events| + 1] == all;
    RunNext(all, |events|);
    AnyProfileCarries(e, if last.Update? then e.(profile := last.profile) else e, last.walk);
    NoPlaceNothingHeld(Run(Fresh(), all));
  }

  lemma NoPlaceNothingHeld(e: Engine)
    requires forall o :: PointerOf(e, o).None?
    ensures Kept(e) ==> TouchTrace.Held(e.sent) == {}
    ensures Forgot(e) ==> TouchTrace.Held(e.sent) != {}
  {
    hide Used, TouchTrace.Held, PointerOf;
  }
}

/** Every run of the keymap engine emits a safe touch stream, and releasing it leaves no pointer down. */
module KeymapSafety {
  import opened Wrappers
  import opened TouchTrace
  import opened KeymapModel

  // ---------------------------------------------------------------- the invariant

  /** The pointers that are down are exactly those the engine still holds, each in one place; ids count upwards. */
  ghost predicate Kept(e: Engine) {
    && (forall p | p in Used(e.sent) :: FIRST_TOUCH_ID <= p < e.base)
    && Held(e.sent) <= Used(e.sent)
    && FIRST_TOUCH_ID <= e.base
    && (forall o | PointerOf(e, o).Some? :: PointerOf(e, o).value in Held(e.sent))
    && (forall o, o' | PointerOf(e, o).Some? && PointerOf(e, o) == PointerOf(e, o') :: o == o')
    && (forall p | p in Held(e.sent) :: exists o :: PointerOf(e, o) == Some(p))
  }

  /** And every touch was one that a device can follow. */
  ghost predicate Accounted(e: Engine) {
    Safe(e.sent) && Kept(e)
  }

  /** Wheels have state objects of their own. */
  ghost predicate Rooted(e: Engine) {
    && Linked(e)
    && (forall i, j | i in e.wheels && j in e.wheels && e.wheels[i] == e.wheels[j] :: i == j)
    && (forall r | r in e.states :: r < e.nextState)
  }

  ghost predicate TimerFits(e: Engine, t: nat)
    requires t in e.timers
  {
    var m := e.timers[t];
    m.id in e.wheels && e.wheels[m.id] == m.wheel && m.wheel in e.states && e.states[m.wheel].timeout == Some(t)
  }

  /** A pending timer belongs to a wheel in use and is the one that wheel remembers. */
  ghost predicate Timed(e: Engine) {
    && (forall t | t in e.timers :: t < e.nextTimer && TimerFits(e, t))
    && (forall r | r in e.states :: e.states[r].timeout.Some? ==> e.states[r].timeout.value < e.nextTimer)
  }

  /** A pending lift of two pointers finds both of them. */
  ghost predicate Paired(e: Engine) {
    forall t | t in e.timers && e.timers[t].zoom :: BothHeld(e, e.timers[t].wheel)
  }

  predicate BothHeld(e: Engine, wheel: nat) {
    wheel in e.states && e.states[wheel].pointer1.Some? && e.states[wheel].pointer2.Some?
  }

  /** A wheel holds one of its two pointers without the other. */
  predicate Half(e: Engine, id: Id) {
    Exists(e, FirstOf(id)) && e.states[e.wheels[id]].pointer1.Some? != e.states[e.wheels[id]].pointer2.Some?
  }

  ghost predicate Sound(e: Engine) {
    Accounted(e) && Rooted(e) && Timed(e)
  }

  ghost predicate Good(e: Engine) {
    Sound(e) && Paired(e)
  }

  lemma FreshIsGood()
    ensures Good(Fresh())
  {
  }

  // ---------------------------------------------------------------- single touches

  /** Places other than one keep their pointers. */
  ghost predicate OnlyAt(e: Engine, r: Engine, o: Owner, p: Option<nat>) {
    forall o' :: PointerOf(r, o') == if o' == o then p else PointerOf(e, o')
  }

  lemma AssignsOnly(e: Engine, o: Owner, p: Option<nat>)
    requires Exists(e, o) && Rooted(e)
    ensures OnlyAt(e, Assign(e, o, p), o, p)
  {
  }

  lemma Pressing(e: Engine, r: Engine, o: Owner, at: Spot)
    requires Accounted(e) && PointerOf(e, o).None?
    requires OnlyAt(e, r, o, Some(e.base))
    requires r.base == e.base + 1 && r.sent == e.sent + [Touch(Down, Some(e.base), at.x, at.y)]
    ensures Accounted(r)
  {
    hide Safe, Used, Held, PointerOf;
    SafeAppend(e.sent, Touch(Down, Some(e.base), at.x, at.y));
    forall p | p in Held(r.sent) ensures exists o' :: PointerOf(r, o') == Some(p) {
      if p == e.base {
        assert PointerOf(r, o) == Some(p);
      } else {
        var o' :| PointerOf(e, o') == Some(p);
        assert PointerOf(r, o') == Some(p);
      }
    }
  }

  lemma Dragging(e: Engine, r: Engine, o: Owner, at: Spot)
    requires Accounted(e) && PointerOf(e, o).Some?
    requires forall o' :: PointerOf(r, o') == PointerOf(e, o')
    requires r.base == e.base && r.sent == e.sent + [Touch(Move, PointerOf(e, o), at.x, at.y)]
    ensures Accounted(r)
  {
    hide Safe, Used, Held, PointerOf;
    SafeAppend(e.sent, Touch(Move, PointerOf(e, o), at.x, at.y));
    forall p | p in Held(r.sent) ensures exists o' :: PointerOf(r, o') == Some(p) {
      var o' :| PointerOf(e, o') == Some(p);
      assert PointerOf(r, o') == Some(p);
    }
  }

  lemma Lifting(e: Engine, r: Engine, o: Owner, at: Spot)
    requires Accounted(e) && PointerOf(e, o).Some?
    requires OnlyAt(e, r, o, None)
    requires r.base == e.base && r.sent == e.sent + [Touch(Up, PointerOf(e, o), at.x, at.y)]
    ensures Accounted(r)
    ensures Held(r.sent) == Held(e.sent) - {PointerOf(e, o).value}
  {
    hide Safe, Used, Held, PointerOf;
    SafeAppend(e.sent, Touch(Up, PointerOf(e, o), at.x, at.y));
    forall p | p in Held(r.sent) ensures exists o' :: PointerOf(r, o') == Some(p) {
      var o' :| PointerOf(e, o') == Some(p);
      assert PointerOf(r, o') == Some(p);
    }
  }

  lemma Unmoved(e: Engine, r: Engine)
    requires Accounted(e)
    requires forall o :: PointerOf(r, o) == PointerOf(e, o)
    requires r.base == e.base && r.sent == e.sent
    ensures Accounted(r)
  {
    hide Safe, Used, Held, PointerOf;
    forall p | p in Held(r.sent) ensures exists o :: PointerOf(r, o) == Some(p) {
      var o :| PointerOf(e, o) == Some(p);
      assert PointerOf(r, o) == Some(p);
    }
  }

  /** Nothing about wheels changed but, maybe, the pointers that are held. */
  ghost predicate SameTiming(e: Engine, r: Engine) {
    && r.profile == e.profile && r.wheels == e.wheels && r.states.Keys == e.states.Keys && r.nextState == e.nextState
    && r.timers == e.timers && r.nextTimer == e.nextTimer
    && forall i | i in e.states :: r.states[i].timeout == e.states[i].timeout
  }

  lemma PressKeeps(e: Engine, o: Owner, at: Spot)
    requires Accounted(e) && Rooted(e) && Exists(e, o) && PointerOf(e, o).None?
    ensures Accounted(Press(e, o, at)) && SameTiming(e, Press(e, o, at))
    ensures OnlyAt(e, Press(e, o, at), o, Some(e.base))
  {
    hide Accounted;
    var r := Press(e, o, at);
    AssignsOnly(e, o, Some(e.base));
    assert forall o' :: PointerOf(r, o') == PointerOf(Assign(e, o, Some(e.base)), o');
    Pressing(e, r, o, at);
  }

  lemma DragKeeps(e: Engine, o: Owner, at: Spot)
    requires Accounted(e) && PointerOf(e, o).Some?
    ensures Accounted(Drag(e, o, at)) && SameTiming(e, Drag(e, o, at))
    ensures PointerOf(Drag(e, o, at), o) == PointerOf(e, o)
  {
    hide Accounted;
    Dragging(e, Drag(e, o, at), o, at);
  }

  lemma LiftKeeps(e: Engine, o: Owner, at: Spot)
    requires Accounted(e) && Rooted(e) && Exists(e, o) && PointerOf(e, o).Some?
    ensures Accounted(Lift(e, o, at)) && SameTiming(e, Lift(e, o, at))
    ensures OnlyAt(e, Lift(e, o, at), o, None)
    ensures Held(Lift(e, o, at).sent) == Held(e.sent) - {PointerOf(e, o).value}
  {
    hide Accounted;
    var r := Lift(e, o, at);
    AssignsOnly(e, o, None);
    assert forall o' :: PointerOf(r, o') == PointerOf(Assign(e, o, None), o');
    Lifting(e, r, o, at);
  }

  /** Events that leave the wheels alone keep what is said about them. */
  lemma TimingKept(e: Engine, r: Engine)
    requires Rooted(e) && Timed(e) && Paired(e)
    requires SameTiming(e, r) && r.states == e.states
    ensures Rooted(r) && Timed(r) && Paired(r)
  {
    forall t | t in r.timers ensures t < r.nextTimer && TimerFits(r, t) { assert TimerFits(e, t); }
  }

  // ---------------------------------------------------------------- keys

  lemma TapKeeps(e: Engine, id: Id, at: Spot, isDown: bool)
    requires Good(e)
    ensures Good(OnTap(e, id, at, isDown))
  {
    hide Accounted, Rooted, Timed, Paired;
    if isDown != (id in e.active) {
      if isDown { PressKeeps(e, ActiveOf(id), at); } else { LiftKeeps(e, ActiveOf(id), at); }
      TimingKept(e, OnTap(e, id, at, isDown));
    }
  }

  lemma SwipeKeeps(e: Engine, m: Mapping, isDown: bool, f: Frame, now: real)
    requires m.Swipe? && Good(e)
    ensures Good(OnSwipe(e, m, isDown, f, now))
  {
    hide Accounted, Rooted, Timed, Paired;
    var r := OnSwipe(e, m, isDown, f, now);
    if isDown != (m.id in e.active) {
      if isDown {
        PressKeeps(e, ActiveOf(m.id), Scale(m.startPos, f));
        Unmoved(Press(e, ActiveOf(m.id), Scale(m.startPos, f)), r);
      } else {
        LiftKeeps(e, ActiveOf(m.id), Scale(m.endPos, f));
      }
      TimingKept(e, r);
    }
  }

  lemma FollowKeeps(e: Engine, id: Id, center: Spot, edge: Spot)
    requires id in e.joysticks && Good(e)
    ensures Good(Follow(e, id, center, edge))
  {
    hide Accounted, Rooted, Timed, Paired, Neutral;
    var o, stick := StickOf(id), e.joysticks[id];
    if Neutral(stick) {
      if stick.pointer.Some? { LiftKeeps(e, o, center); }
    } else if stick.pointer.None? {
      PressKeeps(e, o, center);
      DragKeeps(Press(e, o, center), o, edge);
    } else {
      DragKeeps(e, o, edge);
    }
    TimingKept(e, Follow(e, id, center, edge));
  }

  lemma StickKeeps(e: Engine, m: Mapping, d: Toward, isDown: bool, f: Frame)
    requires m.Joystick? && Good(e)
    ensures Good(OnStick(e, m, d, isDown, f))
  {
    hide Accounted, Rooted, Timed, Paired, EdgeOf, Follow;
    var before := if m.id in e.joysticks then e.joysticks[m.id] else NO_STICK;
    var stick := Pushed(before, d, isDown);
    var e1 := e.(joysticks := e.joysticks[m.id := stick]);
    Unmoved(e, e1);
    TimingKept(e, e1);
    FollowKeeps(e1, m.id, Scale(m.center, f), EdgeOf(m, stick, f));
  }

  lemma KeyKeeps(e: Engine, m: Mapping, k: KeyPress)
    requires Good(e)
    ensures Good(OnKey(e, m, k))
  {
    hide Good, OnTap, OnStick, OnSwipe;
    if Answers(m, Lower(k.key)) && !k.repeat {
      match m
      case Tap(id, _, pos) => TapKeeps(e, id, Scale(pos, k.frame), k.isDown);
      case Command(_, cmd) => CommandKeeps(e, cmd);
      case Joystick(_, keys, _, _) => StickKeeps(e, m, DirectionOf(keys, Lower(k.key)).value, k.isDown, k.frame);
      case Swipe(_, _, _, _, _) => SwipeKeeps(e, m, k.isDown, k.frame, k.now);
      case _ =>
    }
  }

  lemma CommandKeeps(e: Engine, cmd: string)
    requires Good(e)
    ensures Good(e.(commands := e.commands + [cmd]))
  {
    hide Accounted, Rooted, Timed, Paired;
    Unmoved(e, e.(commands := e.commands + [cmd]));
    TimingKept(e, e.(commands := e.commands + [cmd]));
  }

  lemma {:induction false} KeysKeep(e: Engine, ms: seq<Mapping>, k: KeyPress)
    requires Good(e)
    ensures Good(OnKeys(e, ms, k))
  {
    hide Good, OnKey;
    if ms != [] {
      KeysKeep(e, ms[..|ms| - 1], k);
      KeyKeeps(OnKeys(e, ms[..|ms| - 1], k), ms[|ms| - 1], k);
    }
  }

  /**
   * An animation callback moves its own pointer while it is down, and nothing once another press has taken its place.
   */
  lemma PaintKeeps(e: Engine, i: nat, now: real)
    requires Good(e) && i < |e.strokes|
    ensures Good(Animate(e, i, now))
  {
    hide Accounted, Rooted, Timed, Paired, Progress, Between;
    var s := e.strokes[i];
    var e1 := e.(strokes := e.strokes[..i] + e.strokes[i + 1..]);
    var o, r := ActiveOf(s.id), Animate(e, i, now);
    Unmoved(e, e1);
    if PointerOf(e, o) == Some(s.pointer) {
      var e2 := Drag(e1, o, Between(s, Progress(s, now)));
      DragKeeps(e1, o, Between(s, Progress(s, now)));
      Unmoved(e2, r);
    }
    TimingKept(e, r);
  }

  // ---------------------------------------------------------------- wheels

  /** Only the state object of one wheel changed, and not its timer. */
  ghost predicate Edits(e: Engine, r: Engine, id: Id) {
    && id in e.wheels && Linked(e) && SameTiming(e, r)
    && forall i | i in e.states && i != e.wheels[id] :: r.states[i] == e.states[i]
  }

  lemma EditsChain(e: Engine, r: Engine, s: Engine, id: Id)
    requires Edits(e, r, id) && Edits(r, s, id)
    ensures Edits(e, s, id)
  {
  }

  /** A wheel whose timer is cleared has no pending timer. */
  lemma NoTimerOf(e: Engine, id: Id, t: nat)
    requires Rooted(e) && Timed(e) && id in e.wheels && StateOf(e, id).timeout == None && t in e.timers
    ensures e.timers[t].wheel != e.wheels[id]
  {
    assert TimerFits(e, t);
  }

  lemma EditsKeep(e: Engine, r: Engine, id: Id)
    requires Edits(e, r, id) && Good(e) && Accounted(r) && StateOf(e, id).timeout == None
    ensures Good(r)
  {
    hide Accounted;
    forall t | t in r.timers ensures t < r.nextTimer && TimerFits(r, t) { assert TimerFits(e, t); }
    forall t | t in r.timers && r.timers[t].zoom ensures BothHeld(r, r.timers[t].wheel) { NoTimerOf(e, id, t); }
  }

  lemma EditsRooted(e: Engine, r: Engine, id: Id)
    requires Edits(e, r, id) && Rooted(e)
    ensures Rooted(r)
  {
  }

  lemma DeltaEdits(e: Engine, id: Id, delta: real)
    requires Accounted(e) && Rooted(e) && id in e.wheels
    ensures Accounted(SetDelta(e, id, delta)) && Edits(e, SetDelta(e, id, delta), id)
    ensures StateOf(SetDelta(e, id, delta), id) == StateOf(e, id).(delta := delta)
  {
    hide Accounted;
    Unmoved(e, SetDelta(e, id, delta));
  }

  predicate Of(o: Owner, id: Id) {
    o == FirstOf(id) || o == SecondOf(id)
  }

  function Given(s: WheelState, o: Owner, p: Option<nat>): WheelState {
    if o.FirstOf? then s.(pointer1 := p) else s.(pointer2 := p)
  }

  function Got(s: WheelState, o: Owner): Option<nat> {
    if o.FirstOf? then s.pointer1 else s.pointer2
  }

  lemma PressEdits(e: Engine, o: Owner, id: Id, at: Spot)
    requires Accounted(e) && Rooted(e) && id in e.wheels && Of(o, id) && Got(StateOf(e, id), o).None?
    ensures Accounted(Press(e, o, at)) && Edits(e, Press(e, o, at), id) && Rooted(Press(e, o, at))
    ensures StateOf(Press(e, o, at), id) == Given(StateOf(e, id), o, Some(e.base))
  {
    hide Accounted;
    PressKeeps(e, o, at);
  }

  lemma DragEdits(e: Engine, o: Owner, id: Id, at: Spot)
    requires Accounted(e) && Rooted(e) && id in e.wheels && Of(o, id) && Got(StateOf(e, id), o).Some?
    ensures Accounted(Drag(e, o, at)) && Edits(e, Drag(e, o, at), id) && Rooted(Drag(e, o, at))
    ensures StateOf(Drag(e, o, at), id) == StateOf(e, id)
  {
    hide Accounted;
    DragKeeps(e, o, at);
  }

  lemma LiftEdits(e: Engine, o: Owner, id: Id, at: Spot)
    requires Accounted(e) && Rooted(e) && id in e.wheels && Of(o, id) && Got(StateOf(e, id), o).Some?
    ensures Accounted(Lift(e, o, at)) && Edits(e, Lift(e, o, at), id) && Rooted(Lift(e, o, at))
    ensures StateOf(Lift(e, o, at), id) == Given(StateOf(e, id), o, None)
  {
    hide Accounted;
    LiftKeeps(e, o, at);
  }

  lemma CreatedMovesNone(e: Engine, id: Id)
    requires Accounted(e) && Rooted(e)
    ensures Accounted(Created(e, id))
  {
    hide Accounted;
    Unmoved(e, Created(e, id));
  }

  lemma CreatedKeeps(e: Engine, id: Id)
    requires Good(e)
    ensures Good(Created(e, id))
  {
    hide Accounted;
    var r := Created(e, id);
    CreatedMovesNone(e, id);
    forall t | t in r.timers ensures t < r.nextTimer && TimerFits(r, t) { assert TimerFits(e, t); }
  }

  lemma UnscheduledTimed(e: Engine, id: Id)
    requires Rooted(e) && Timed(e) && id in e.wheels
    ensures Rooted(Unscheduled(e, id)) && Timed(Unscheduled(e, id))
    ensures StateOf(Unscheduled(e, id), id) == StateOf(e, id).(timeout := None)
  {
    var r := Unscheduled(e, id);
    forall t | t in r.timers ensures t < r.nextTimer && TimerFits(r, t) { assert TimerFits(e, t); }
  }

  lemma UnscheduledPaired(e: Engine, id: Id)
    requires Rooted(e) && Paired(e) && id in e.wheels
    ensures Paired(Unscheduled(e, id))
  {
    var r := Unscheduled(e, id);
    forall t | t in r.timers && r.timers[t].zoom ensures BothHeld(r, r.timers[t].wheel) {
      assert BothHeld(e, e.timers[t].wheel);
    }
  }

  lemma UnscheduledMovesNone(e: Engine, id: Id)
    requires Accounted(e) && Rooted(e) && id in e.wheels
    ensures Accounted(Unscheduled(e, id))
  {
    hide Accounted;
    Unmoved(e, Unscheduled(e, id));
  }

  lemma UnscheduledKeeps(e: Engine, id: Id)
    requires Good(e) && id in e.wheels
    ensures Good(Unscheduled(e, id))
    ensures StateOf(Unscheduled(e, id), id) == StateOf(e, id).(timeout := None)
  {
    hide Accounted, Timed, Paired, Unscheduled;
    UnscheduledTimed(e, id);
    UnscheduledPaired(e, id);
    UnscheduledMovesNone(e, id);
  }

  lemma TimerKeeps(e: Engine, id: Id, zoom: bool, spot1: Spot, spot2: Spot)
    requires Good(e) && id in e.wheels && StateOf(e, id).timeout == None
    requires zoom ==> StateOf(e, id).pointer1.Some? && StateOf(e, id).pointer2.Some?
    ensures Good(SetTimer(e, id, zoom, spot1, spot2))
  {
    hide Accounted;
    var r := SetTimer(e, id, zoom, spot1, spot2);
    Unmoved(e, r);
    forall t | t in r.timers ensures t < r.nextTimer && TimerFits(r, t) {
      if t != e.nextTimer { assert TimerFits(e, t); }
    }
  }

  /** A wheel in use whose timer is cleared. */
  ghost predicate Going(e: Engine, id: Id) {
    Good(e) && id in e.wheels && StateOf(e, id).timeout == None
  }

  lemma GoodParts(e: Engine)
    requires Good(e)
    ensures Accounted(e) && Rooted(e) && Timed(e) && Linked(e)
  {
  }

  lemma ScrollStartKeeps(e: Engine, id: Id, at: Spot, deltaY: real, f: Frame)
    requires Going(e, id)
    ensures Going(ScrollStart(e, id, at, deltaY, f), id)
    ensures StateOf(ScrollStart(e, id, at, deltaY, f), id).pointer1.Some?
  {
    hide Good, Accounted, Rooted, Timed, SetDelta, Press, ScrollFrom, Inside;
    GoodParts(e);
    if StateOf(e, id).pointer1.None? {
      var delta := ScrollFrom(deltaY, f);
      var e1, spot := SetDelta(e, id, delta), Inside(at, delta, f);
      DeltaEdits(e, id, delta);
      EditsRooted(e, e1, id);
      PressEdits(e1, FirstOf(id), id, spot);
      EditsChain(e, e1, Press(e1, FirstOf(id), spot), id);
      EditsKeep(e, Press(e1, FirstOf(id), spot), id);
    }
  }

  lemma ScrollOnKeeps(e: Engine, id: Id, at: Spot, deltaY: real, f: Frame)
    requires Going(e, id) && StateOf(e, id).pointer1.Some?
    ensures Good(ScrollOn(e, id, at, deltaY, f))
  {
    hide Good, Accounted, Rooted, Timed, SetDelta, Drag, Lift, ScrollTo, Inside, ScrollEnds;
    GoodParts(e);
    var delta := ScrollTo(StateOf(e, id).delta, deltaY, f);
    var o, e1 := FirstOf(id), SetDelta(e, id, delta);
    DeltaEdits(e, id, delta);
    EditsRooted(e, e1, id);
    var spot := if ScrollEnds(at, delta, f) then Inside(at, delta, f) else Spot(at.x, at.y + delta);
    var e2 := Drag(e1, o, spot);
    DragEdits(e1, o, id, spot);
    EditsChain(e, e1, e2, id);
    if ScrollEnds(at, delta, f) {
      LiftEdits(e2, o, id, spot);
      EditsChain(e, e2, Lift(e2, o, spot), id);
      EditsKeep(e, Lift(e2, o, spot), id);
    } else {
      EditsKeep(e, e2, id);
      TimerKeeps(e2, id, false, spot, spot);
    }
  }

  lemma ZoomStartKeeps(e: Engine, id: Id, deltaY: real, f: Frame)
    requires Going(e, id) && !Half(e, id)
    ensures Going(ZoomStart(e, id, deltaY, f), id) && Pinching(ZoomStart(e, id, deltaY, f), id)
  {
    hide Good, Accounted, Rooted, Timed, SetDelta, Press, ZoomFrom, PinchStart, PinchEnd;
    GoodParts(e);
    if StateOf(e, id).pointer1.None? {
      var delta := ZoomFrom(deltaY, f);
      var e1 := SetDelta(e, id, delta);
      DeltaEdits(e, id, delta);
      EditsRooted(e, e1, id);
      var e2 := Press(e1, FirstOf(id), PinchStart(f, delta));
      PressEdits(e1, FirstOf(id), id, PinchStart(f, delta));
      EditsChain(e, e1, e2, id);
      var e3 := Press(e2, SecondOf(id), PinchEnd(f, delta));
      PressEdits(e2, SecondOf(id), id, PinchEnd(f, delta));
      EditsChain(e, e2, e3, id);
      EditsKeep(e, e3, id);
    }
  }

  /** Both pointers of a pinch are down. */
  ghost predicate Pinching(e: Engine, id: Id) {
    Accounted(e) && Rooted(e) && id in e.wheels && StateOf(e, id).pointer1.Some? && StateOf(e, id).pointer2.Some?
  }

  lemma PinchEdits(e: Engine, id: Id, spot1: Spot, spot2: Spot)
    requires Pinching(e, id)
    ensures Edits(e, Pinch(e, id, spot1, spot2), id) && Pinching(Pinch(e, id, spot1, spot2), id)
    ensures StateOf(Pinch(e, id, spot1, spot2), id) == StateOf(e, id)
  {
    hide Accounted, Drag;
    DragEdits(e, FirstOf(id), id, spot1);
    DragEdits(Drag(e, FirstOf(id), spot1), SecondOf(id), id, spot2);
  }

  lemma UnpinchEdits(e: Engine, id: Id, spot1: Spot, spot2: Spot)
    requires Pinching(e, id)
    ensures Edits(e, Unpinch(e, id, spot1, spot2), id)
    ensures Accounted(Unpinch(e, id, spot1, spot2)) && Rooted(Unpinch(e, id, spot1, spot2))
    ensures StateOf(Unpinch(e, id, spot1, spot2), id) == StateOf(e, id).(pointer1 := None, pointer2 := None)
  {
    hide Accounted, Lift;
    LiftEdits(e, FirstOf(id), id, spot1);
    LiftEdits(Lift(e, FirstOf(id), spot1), SecondOf(id), id, spot2);
  }

  lemma ZoomOnKeeps(e: Engine, id: Id, deltaY: real, f: Frame)
    requires Going(e, id) && Pinching(e, id)
    ensures Good(ZoomOn(e, id, deltaY, f))
  {
    hide Good, Accounted, Rooted, Timed, SetDelta, Pinch, Unpinch, PinchStart, PinchEnd;
    hide ZoomWanted, ZoomTo, ZoomEnds;
    GoodParts(e);
    var wanted := ZoomWanted(StateOf(e, id).delta, deltaY, f);
    var delta := ZoomTo(wanted, f);
    var spot1, spot2 := PinchStart(f, delta), PinchEnd(f, delta);
    var e1 := SetDelta(e, id, delta);
    DeltaEdits(e, id, delta);
    EditsRooted(e, e1, id);
    var e2 := Pinch(e1, id, spot1, spot2);
    PinchEdits(e1, id, spot1, spot2);
    EditsChain(e, e1, e2, id);
    if ZoomEnds(wanted, f) {
      UnpinchEdits(e2, id, spot1, spot2);
      EditsChain(e, e2, Unpinch(e2, id, spot1, spot2), id);
      EditsKeep(e, Unpinch(e2, id, spot1, spot2), id);
    } else {
      EditsKeep(e, e2, id);
      TimerKeeps(e2, id, true, spot1, spot2);
    }
  }

  lemma ReadyKeeps(e: Engine, id: Id)
    requires Good(e)
    ensures Linked(e) && Going(Ready(e, id), id) && (Half(Ready(e, id), id) <==> Half(e, id))
  {
    hide Good, Created, Unscheduled;
    GoodParts(e);
    CreatedKeeps(e, id);
    UnscheduledKeeps(Created(e, id), id);
    CreatedHalf(e, id);
  }

  lemma CreatedHalf(e: Engine, id: Id)
    requires Linked(e)
    ensures Half(Created(e, id), id) <==> Half(e, id)
  {
  }

  /** A turn of a wheel keeps everything in order, unless a zoom meets a wheel that holds half a pinch. */
  lemma WheelKeeps(e: Engine, m: Mapping, deltaY: real, f: Frame)
    requires Good(e) && m.Wheel? && !(m.gesture.Zoom? && Half(e, m.id))
    ensures Linked(e) && Good(OnWheel(e, m, deltaY, f))
  {
    hide Good, Half, Ready, ScrollStart, ScrollOn, ZoomStart, ZoomOn;
    ReadyKeeps(e, m.id);
    var e1, at := Ready(e, m.id), Scale(m.pos, f);
    match m.gesture
    case Scroll =>
      ScrollStartKeeps(e1, m.id, at, deltaY, f);
      ScrollOnKeeps(ScrollStart(e1, m.id, at, deltaY, f), m.id, at, deltaY, f);
    case Zoom =>
      ZoomStartKeeps(e1, m.id, deltaY, f);
      ZoomOnKeeps(ZoomStart(e1, m.id, deltaY, f), m.id, deltaY, f);
    case Neither =>
  }

  // ---------------------------------------------------------------- timers

  lemma FiredKeeps(e: Engine, t: nat)
    requires Good(e) && t in e.timers
    ensures Good(e.(timers := e.timers - {t})) && TimerFits(e, t)
  {
    hide Accounted;
    var r := e.(timers := e.timers - {t});
    Unmoved(e, r);
    forall u | u in r.timers ensures u < r.nextTimer && TimerFits(r, u) { assert TimerFits(e, u); }
  }

  /** Other timers belong to other wheels. */
  lemma LastTimer(e: Engine, t: nat)
    requires Good(e) && t in e.timers
    ensures TimerFits(e, t) && forall u | u in e.timers && u != t :: e.timers[u].wheel != e.timers[t].wheel
  {
    hide Accounted;
    forall u | u in e.timers ensures TimerFits(e, u) { }
  }

  /** A wheel that no pending timer belongs to may change its pointers. */
  lemma EditsKeepUntimed(e: Engine, r: Engine, id: Id)
    requires Edits(e, r, id) && Good(e) && Accounted(r) && forall u | u in e.timers :: e.timers[u].wheel != e.wheels[id]
    ensures Good(r)
  {
    hide Accounted;
    forall t | t in r.timers ensures t < r.nextTimer && TimerFits(r, t) { assert TimerFits(e, t); }
  }

  lemma ExpireKeeps(e: Engine, t: nat)
    requires Good(e) && t in e.timers && e.timers[t].wheel in e.states
    ensures Good(Expire(e, t))
  {
    hide Good, Accounted, Rooted, Timed;
    var m, e1 := e.timers[t], e.(timers := e.timers - {t});
    FiredKeeps(e, t);
    LastTimer(e, t);
    GoodParts(e1);
    if StateOf(e1, m.id).pointer1.Some? {
      var r := Expire(e, t);
      if m.zoom {
        var e2 := Unpinch(e1, m.id, m.spot1, m.spot2);
        ZoomTimer(e, t);
        UnpinchEdits(e1, m.id, m.spot1, m.spot2);
        EditsKeepUntimed(e1, e2, m.id);
        assert r.states == e2.states;
      } else {
        var e2 := Lift(e1, FirstOf(m.id), m.spot1);
        LiftEdits(e1, FirstOf(m.id), m.id, m.spot1);
        EditsKeepUntimed(e1, e2, m.id);
        assert r.states == e2.states;
      }
    }
  }

  lemma ZoomTimer(e: Engine, t: nat)
    requires Good(e) && t in e.timers && e.timers[t].zoom
    ensures BothHeld(e, e.timers[t].wheel)
  {
    hide Accounted, Rooted, Timed;
  }

  // ---------------------------------------------------------------- release

  lemma {:induction false} ReleaseActiveSound(e: Engine, ids: seq<Id>)
    requires Sound(e) && Visits(ids, e.active.Keys)
    ensures Sound(ReleaseActive(e, ids)) && SameTiming(e, ReleaseActive(e, ids))
    ensures ReleaseActive(e, ids).active == map[]
    decreases |ids|
  {
    hide Accounted, Rooted, Timed;
    if ids != [] {
      assert ids[0] in e.active.Keys;
      var e1 := Lift(e, ActiveOf(ids[0]), ORIGIN);
      LiftKeeps(e, ActiveOf(ids[0]), ORIGIN);
      SameTimingKeeps(e, e1);
      VisitsRest(ids, e.active.Keys);
      ReleaseActiveSound(e1, ids[1..]);
    }
  }

  lemma VisitsRest(ids: seq<Id>, keys: set<Id>)
    requires ids != [] && Visits(ids, keys)
    ensures Visits(ids[1..], keys - {ids[0]})
  {
    assert ids == [ids[0]] + ids[1..];
    forall id | id in keys - {ids[0]} ensures id in ids[1..] { assert id in ids; }
  }

  lemma SameTimingKeeps(e: Engine, r: Engine)
    requires Rooted(e) && Timed(e) && SameTiming(e, r)
    ensures Rooted(r) && Timed(r)
  {
    forall t | t in r.timers ensures t < r.nextTimer && TimerFits(r, t) { assert TimerFits(e, t); }
  }

  /** Forgetting which keys a stick holds moves no pointer. */
  lemma CentredSound(e: Engine, id: Id)
    requires Sound(e) && id in e.joysticks && e.joysticks[id].pointer.None?
    ensures Sound(e.(joysticks := e.joysticks[id := NO_STICK]))
  {
    hide Accounted, Rooted, Timed;
    var r := e.(joysticks := e.joysticks[id := NO_STICK]);
    Unmoved(e, r);
    SameTimingKeeps(e, r);
  }

  lemma ReleaseStickFields(e: Engine, id: Id)
    requires id in e.joysticks
    ensures ReleaseStick(e, id).joysticks == e.joysticks[id := NO_STICK]
    ensures ReleaseStick(e, id).active == e.active
  {
  }

  lemma ReleaseStickSound(e: Engine, id: Id)
    requires Sound(e) && id in e.joysticks
    ensures Sound(ReleaseStick(e, id)) && SameTiming(e, ReleaseStick(e, id))
  {
    hide Accounted, Rooted, Timed;
    if e.joysticks[id].pointer.Some? {
      var e1 := Lift(e, StickOf(id), ORIGIN);
      LiftKeeps(e, StickOf(id), ORIGIN);
      SameTimingKeeps(e, e1);
      CentredSound(e1, id);
    } else {
      CentredSound(e, id);
    }
  }

  lemma {:induction false} ReleaseSticksSound(e: Engine, ids: seq<Id>)
    requires Sound(e) && forall i | 0 <= i < |ids| :: ids[i] in e.joysticks
    ensures Sound(ReleaseSticks(e, ids)) && SameTiming(e, ReleaseSticks(e, ids))
    ensures ReleaseSticks(e, ids).active == e.active && ReleaseSticks(e, ids).joysticks.Keys == e.joysticks.Keys
    ensures forall id | id in e.joysticks ::
      ReleaseSticks(e, ids).joysticks[id] == if id in ids then NO_STICK else e.joysticks[id]
    decreases |ids|
  {
    hide Sound, ReleaseStick;
    if ids != [] {
      ReleaseStickSound(e, ids[0]);
      ReleaseStickFields(e, ids[0]);
      ReleaseSticksSound(ReleaseStick(e, ids[0]), ids[1..]);
    }
  }

  /** A wheel without its timer. */
  function Untimed(e: Engine, id: Id): (r: Engine)
    requires Linked(e) && id in e.wheels
    ensures SameWheels(e, r)
  {
    if StateOf(e, id).timeout.Some? then e.(timers := e.timers - {StateOf(e, id).timeout.value}) else e
  }

  lemma UntimedSound(e: Engine, id: Id)
    requires Sound(e) && id in e.wheels
    ensures Sound(Untimed(e, id))
    ensures forall t | t in Untimed(e, id).timers :: Untimed(e, id).timers[t].id != id
  {
    hide Accounted;
    var r := Untimed(e, id);
    Unmoved(e, r);
    forall t | t in r.timers
      ensures t < r.nextTimer && TimerFits(r, t) && r.timers[t].id != id
    {
      assert TimerFits(e, t);
    }
  }

  /** Lifts the pointers a wheel holds. */
  function LiftBoth(e: Engine, id: Id): (r: Engine)
    requires Linked(e) && id in e.wheels
    ensures SameWheels(e, r)
  {
    var e1 := if StateOf(e, id).pointer1.Some? then Lift(e, FirstOf(id), ORIGIN) else e;
    if StateOf(e1, id).pointer2.Some? then Lift(e1, SecondOf(id), ORIGIN) else e1
  }

  lemma LiftBothSound(e: Engine, id: Id)
    requires Sound(e) && id in e.wheels
    ensures Sound(LiftBoth(e, id)) && Edits(e, LiftBoth(e, id), id)
    ensures StateOf(LiftBoth(e, id), id) == StateOf(e, id).(pointer1 := None, pointer2 := None)
  {
    hide Accounted, Lift, Timed;
    var e1 := if StateOf(e, id).pointer1.Some? then Lift(e, FirstOf(id), ORIGIN) else e;
    if StateOf(e, id).pointer1.Some? { LiftEdits(e, FirstOf(id), id, ORIGIN); }
    if StateOf(e1, id).pointer2.Some? { LiftEdits(e1, SecondOf(id), id, ORIGIN); }
    EditsChain(e, e1, LiftBoth(e, id), id);
    SameTimingKeeps(e, LiftBoth(e, id));
  }

  lemma ReleaseWheelSound(e: Engine, id: Id)
    requires Sound(e) && id in e.wheels
    ensures Sound(ReleaseWheel(e, id)) && ReleaseWheel(e, id).wheels == e.wheels - {id}
    ensures ReleaseWheel(e, id).active == e.active && ReleaseWheel(e, id).joysticks == e.joysticks
    ensures ReleaseWheel(e, id).profile == e.profile
  {
    hide Accounted, Timed, Rooted, Edits, Untimed, LiftBoth, ReleaseWheel;
    assert Linked(e) by { SoundLinked(e); }
    var e1 := Untimed(e, id);
    UntimedSound(e, id);
    ReleaseWheelFields(e, id);
    ReleaseWheelSends(e, id);
    LiftBothSound(e1, id);
    Dropped(e1, LiftBoth(e1, id), ReleaseWheel(e, id), id);
    DroppedTimed(e1, ReleaseWheel(e, id), id);
  }

  lemma SoundLinked(e: Engine)
    requires Sound(e)
    ensures Linked(e)
  {
  }

  /** Releasing a wheel leaves its state object alone. */
  lemma ReleaseWheelFields(e: Engine, id: Id)
    requires Linked(e) && id in e.wheels
    ensures ReleaseWheel(e, id) == Untimed(e, id).(sent := ReleaseWheel(e, id).sent, wheels := e.wheels - {id})
    ensures Untimed(e, id) == e.(timers := Untimed(e, id).timers)
  {
  }

  /** Releasing a wheel sends what lifting its pointers would send. */
  lemma ReleaseWheelSends(e: Engine, id: Id)
    requires Linked(e) && id in e.wheels
    ensures
      var r := LiftBoth(Untimed(e, id), id);
      r.sent == ReleaseWheel(e, id).sent && r.active == e.active && r.joysticks == e.joysticks && r.base == e.base
  {
    hide ReleaseWheel;
    assert ReleaseWheel(e, id).sent == e.sent + UpsOf(StateOf(e, id)) by { ReleaseWheelUps(e, id); }
    LiftBothUps(Untimed(e, id), id);
  }

  function UpsOf(s: WheelState): seq<Touch> {
    (if s.pointer1.Some? then [Touch(Up, s.pointer1, 0.0, 0.0)] else [])
    + (if s.pointer2.Some? then [Touch(Up, s.pointer2, 0.0, 0.0)] else [])
  }

  lemma ReleaseWheelUps(e: Engine, id: Id)
    requires Linked(e) && id in e.wheels
    ensures ReleaseWheel(e, id).sent == e.sent + UpsOf(StateOf(e, id))
  {
  }

  lemma LiftSends(e: Engine, o: Owner)
    requires Exists(e, o) && (o.FirstOf? || o.SecondOf?)
    ensures Lift(e, o, ORIGIN).sent == e.sent + [Touch(Up, PointerOf(e, o), 0.0, 0.0)]
    ensures Lift(e, o, ORIGIN).active == e.active && Lift(e, o, ORIGIN).joysticks == e.joysticks
    ensures Lift(e, o, ORIGIN).base == e.base
  {
  }

  lemma LiftFirstOnly(e: Engine, id: Id)
    requires Linked(e) && id in e.wheels
    ensures StateOf(Lift(e, FirstOf(id), ORIGIN), id).pointer2 == StateOf(e, id).pointer2
    ensures PointerOf(Lift(e, FirstOf(id), ORIGIN), SecondOf(id)) == StateOf(e, id).pointer2
  {
  }

  lemma LiftBothUps(e: Engine, id: Id)
    requires Linked(e) && id in e.wheels
    ensures LiftBoth(e, id).sent == e.sent + UpsOf(StateOf(e, id))
    ensures LiftBoth(e, id).active == e.active && LiftBoth(e, id).joysticks == e.joysticks
    ensures LiftBoth(e, id).base == e.base
  {
    hide Lift;
    var first := StateOf(e, id).pointer1.Some?;
    var e1 := if first then Lift(e, FirstOf(id), ORIGIN) else e;
    if first {
      LiftSends(e, FirstOf(id));
      LiftFirstOnly(e, id);
    }
    if StateOf(e1, id).pointer2.Some? { LiftSends(e1, SecondOf(id)); }
  }

  lemma DroppedTimed(e: Engine, r: Engine, id: Id)
    requires Rooted(e) && Timed(e) && id in e.wheels && forall t | t in e.timers :: e.timers[t].id != id
    requires r.wheels == e.wheels - {id} && r.states == e.states && r.timers == e.timers
    requires r.nextTimer == e.nextTimer && r.nextState == e.nextState
    ensures Rooted(r) && Timed(r)
  {
    forall t | t in r.timers ensures t < r.nextTimer && TimerFits(r, t) { assert TimerFits(e, t); }
  }

  /** Dropping a wheel that holds nothing: the same touches, and no pointer is lost sight of. */
  lemma Dropped(e1: Engine, e2: Engine, r: Engine, id: Id)
    requires id in e1.wheels && Edits(e1, e2, id) && Accounted(e2)
    requires StateOf(e2, id).pointer1.None? && StateOf(e2, id).pointer2.None?
    requires Rooted(e1)
    requires r.wheels == e1.wheels - {id} && r.states == e1.states
    requires r.active == e2.active && r.joysticks == e2.joysticks && r.sent == e2.sent && r.base == e2.base
    ensures Accounted(r)
  {
    hide Accounted;
    Unmoved(e2, r);
  }

  lemma {:induction false} ReleaseWheelsSound(e: Engine, ids: seq<Id>)
    requires Sound(e) && Visits(ids, e.wheels.Keys)
    ensures Linked(e) && forall i | 0 <= i < |ids| :: ids[i] in e.wheels
    ensures Sound(ReleaseWheels(e, ids)) && ReleaseWheels(e, ids).wheels == map[]
    ensures ReleaseWheels(e, ids).active == e.active && ReleaseWheels(e, ids).joysticks == e.joysticks
    ensures ReleaseWheels(e, ids).profile == e.profile
    decreases |ids|
  {
    hide Accounted, Timed, ReleaseWheel;
    assert forall i | 0 <= i < |ids| :: ids[i] in e.wheels.Keys;
    if ids != [] {
      ReleaseWheelSound(e, ids[0]);
      VisitsRest(ids, e.wheels.Keys);
      ReleaseWheelsSound(ReleaseWheel(e, ids[0]), ids[1..]);
    }
  }

  /** After a release no pointer is down, no wheel is in use and no timer is pending. */
  lemma ReleaseEmpties(e: Engine, w: Walk)
    requires Sound(e) && Walks(w, e)
    ensures Linked(e) && Sound(Release(e, w)) && Release(e, w).profile == e.profile
    ensures Held(Release(e, w).sent) == {}
    ensures Release(e, w).wheels == map[] && Release(e, w).timers == map[]
  {
    hide ReleaseActive, ReleaseSticks, ReleaseWheels, Held, Used, Safe;
    assert Linked(e);
    var e1 := ReleaseActive(e, w.active);
    ReleaseActiveSound(e, w.active);
    ReleaseActiveKeeps(e, w.active);
    var e2 := ReleaseSticks(e1, w.joysticks);
    assert forall id | id in e1.joysticks :: id in w.joysticks by { assert Visits(w.joysticks, e1.joysticks.Keys); }
    ReleaseSticksSound(e1, w.joysticks);
    ReleaseWheelsSound(e2, w.wheels);
    Released(Release(e, w));
  }

  lemma Released(r: Engine)
    requires Sound(r) && r.active == map[] && r.wheels == map[]
    requires forall id | id in r.joysticks :: r.joysticks[id].pointer.None?
    ensures Held(r.sent) == {} && r.timers == map[]
  {
    hide Held, Used, Safe;
    assert forall o :: PointerOf(r, o).None?;
    assert r.timers.Keys == {};
  }

  // ---------------------------------------------------------------- what goes wrong stays wrong

  /** A pointer that is down and that the engine no longer knows, so that nothing will ever lift it. */
  ghost predicate Lost(e: Engine, p: nat) {
    p in Held(e.sent) && p < e.base && forall o :: PointerOf(e, o) != Some(p)
  }

  ghost predicate Bad(e: Engine) {
    Rooted(e) && (!Safe(e.sent) || exists p :: Lost(e, p))
  }

  lemma BadIsUnaccounted(e: Engine)
    requires Bad(e)
    ensures !Accounted(e)
  {
    hide Safe, Held, Used, PointerOf;
    if p :| Lost(e, p) { assert p in Held(e.sent); }
  }

  lemma UnsafeStays(t: seq<Touch>, e: Touch)
    requires !Safe(t) || e.pointer.None?
    ensures !Safe(t + [e])
  {
    SafeAppend(t, e);
  }

  lemma BadPress(e: Engine, o: Owner, at: Spot)
    requires Bad(e) && Exists(e, o)
    ensures Bad(Press(e, o, at))
  {
    hide Safe, Held, PointerOf;
    var t, r := Touch(Down, Some(e.base), at.x, at.y), Press(e, o, at);
    AssignsOnly(e, o, Some(e.base));
    SafeAppend(e.sent, t);
    assert forall o' :: PointerOf(r, o') == PointerOf(Assign(e, o, Some(e.base)), o') by {
      SamePlaces(Assign(e, o, Some(e.base)), r);
    }
    AssignRooted(e, o, Some(e.base));
    if p :| Lost(e, p) { assert Lost(r, p); }
  }

  lemma SamePlaces(e: Engine, r: Engine)
    requires r.active == e.active && r.joysticks == e.joysticks && r.wheels == e.wheels && r.states == e.states
    ensures forall o :: PointerOf(r, o) == PointerOf(e, o)
  {
  }

  lemma AssignRooted(e: Engine, o: Owner, p: Option<nat>)
    requires Rooted(e) && Exists(e, o)
    ensures Rooted(Assign(e, o, p))
  {
  }

  lemma BadDrag(e: Engine, o: Owner, at: Spot)
    requires Bad(e)
    ensures Bad(Drag(e, o, at))
  {
    hide Safe, Held, PointerOf;
    var t, r := Touch(Move, PointerOf(e, o), at.x, at.y), Drag(e, o, at);
    SafeAppend(e.sent, t);
    SamePlaces(e, r);
    if p :| Lost(e, p) { assert Lost(r, p); }
  }

  lemma BadLift(e: Engine, o: Owner, at: Spot)
    requires Bad(e) && Exists(e, o)
    ensures Bad(Lift(e, o, at))
  {
    hide Safe, Held, PointerOf;
    var t, r := Touch(Up, PointerOf(e, o), at.x, at.y), Lift(e, o, at);
    AssignsOnly(e, o, None);
    AssignRooted(e, o, None);
    SafeAppend(e.sent, t);
    SamePlaces(Assign(e, o, None), r);
    if p :| Lost(e, p) { assert Lost(r, p); }
  }

  lemma BadElsewhere(e: Engine, r: Engine)
    requires Bad(e) && Rooted(r) && r.sent == e.sent && r.base == e.base
    requires forall o :: PointerOf(r, o) == PointerOf(e, o)
    ensures Bad(r)
  {
    hide Safe, Held, PointerOf, Rooted;
    if p :| Lost(e, p) { assert Lost(r, p); }
  }

  lemma BadDelta(e: Engine, id: Id, delta: real)
    requires Bad(e) && id in e.wheels
    ensures Bad(SetDelta(e, id, delta))
  {
    hide Bad;
    assert Rooted(e) by { BadRooted(e); }
    BadElsewhere(e, SetDelta(e, id, delta));
  }

  lemma BadTimer(e: Engine, id: Id, zoom: bool, spot1: Spot, spot2: Spot)
    requires Bad(e) && id in e.wheels
    ensures Bad(SetTimer(e, id, zoom, spot1, spot2))
  {
    hide Bad;
    assert Rooted(e) by { BadRooted(e); }
    BadElsewhere(e, SetTimer(e, id, zoom, spot1, spot2));
  }

  lemma BadCreated(e: Engine, id: Id)
    requires Bad(e)
    ensures Linked(e) && Bad(Created(e, id))
  {
    hide Bad;
    assert Rooted(e) by { BadRooted(e); }
    BadElsewhere(e, Created(e, id));
  }

  lemma BadUnscheduled(e: Engine, id: Id)
    requires Bad(e) && id in e.wheels
    ensures Linked(e) && Bad(Unscheduled(e, id))
  {
    hide Bad;
    assert Rooted(e) by { BadRooted(e); }
    BadElsewhere(e, Unscheduled(e, id));
  }

  lemma BadRooted(e: Engine)
    requires Bad(e)
    ensures Rooted(e) && Linked(e)
  {
    hide Safe, Lost;
  }

  lemma BadScroll(e: Engine, id: Id, at: Spot, deltaY: real, f: Frame)
    requires Bad(e) && Linked(e) && id in e.wheels
    ensures Bad(ScrollOn(ScrollStart(e, id, at, deltaY, f), id, at, deltaY, f))
  {
    hide Bad, SetDelta, Press, Drag, Lift, SetTimer, ScrollFrom, ScrollTo, Inside, ScrollEnds;
    var e0 := ScrollStart(e, id, at, deltaY, f);
    if StateOf(e, id).pointer1.None? {
      var delta := ScrollFrom(deltaY, f);
      BadDelta(e, id, delta);
      BadPress(SetDelta(e, id, delta), FirstOf(id), Inside(at, delta, f));
    }
    var delta := ScrollTo(StateOf(e0, id).delta, deltaY, f);
    var e1 := SetDelta(e0, id, delta);
    BadDelta(e0, id, delta);
    var spot := if ScrollEnds(at, delta, f) then Inside(at, delta, f) else Spot(at.x, at.y + delta);
    BadDrag(e1, FirstOf(id), spot);
    var e2 := Drag(e1, FirstOf(id), spot);
    if ScrollEnds(at, delta, f) { BadLift(e2, FirstOf(id), spot); } else { BadTimer(e2, id, false, spot, spot); }
  }

  lemma BadZoomOn(e: Engine, id: Id, deltaY: real, f: Frame)
    requires Bad(e) && Linked(e) && id in e.wheels
    ensures Bad(ZoomOn(e, id, deltaY, f))
  {
    hide Bad, SetDelta, Drag, Lift, SetTimer, ZoomWanted, ZoomTo, ZoomEnds, PinchStart, PinchEnd;
    var wanted := ZoomWanted(StateOf(e, id).delta, deltaY, f);
    var delta := ZoomTo(wanted, f);
    var spot1, spot2 := PinchStart(f, delta), PinchEnd(f, delta);
    var e1 := SetDelta(e, id, delta);
    BadDelta(e, id, delta);
    BadDrag(e1, FirstOf(id), spot1);
    var e2 := Pinch(e1, id, spot1, spot2);
    BadDrag(Drag(e1, FirstOf(id), spot1), SecondOf(id), spot2);
    if ZoomEnds(wanted, f) {
      BadLift(e2, FirstOf(id), spot1);
      BadLift(Lift(e2, FirstOf(id), spot1), SecondOf(id), spot2);
    } else {
      BadTimer(e2, id, true, spot1, spot2);
    }
  }

  lemma BadZoomStart(e: Engine, id: Id, deltaY: real, f: Frame)
    requires Bad(e) && Linked(e) && id in e.wheels
    ensures Bad(ZoomStart(e, id, deltaY, f))
  {
    hide Bad, SetDelta, Press, ZoomFrom, PinchStart, PinchEnd;
    if StateOf(e, id).pointer1.None? {
      var delta := ZoomFrom(deltaY, f);
      BadDelta(e, id, delta);
      BadPress(SetDelta(e, id, delta), FirstOf(id), PinchStart(f, delta));
      BadPress(Press(SetDelta(e, id, delta), FirstOf(id), PinchStart(f, delta)), SecondOf(id), PinchEnd(f, delta));
    }
  }

  lemma BadWheel(e: Engine, m: Mapping, deltaY: real, f: Frame)
    requires Bad(e) && m.Wheel?
    ensures Linked(e) && Bad(OnWheel(e, m, deltaY, f))
  {
    hide Bad, Created, Unscheduled, ScrollStart, ScrollOn, ZoomStart, ZoomOn, Scale;
    BadCreated(e, m.id);
    BadUnscheduled(Created(e, m.id), m.id);
    var e1, at := Ready(e, m.id), Scale(m.pos, f);
    match m.gesture
    case Scroll => BadScroll(e1, m.id, at, deltaY, f);
    case Zoom =>
      BadZoomStart(e1, m.id, deltaY, f);
      BadZoomOn(ZoomStart(e1, m.id, deltaY, f), m.id, deltaY, f);
    case Neither =>
  }

  // ---------------------------------------------------------------- a zoom that meets half a pinch

  /** With the first pointer alone, it moves a second one that does not exist. */
  lemma ZoomMovesNothing(e: Engine, id: Id, deltaY: real, f: Frame)
    requires Rooted(e) && id in e.wheels && StateOf(e, id).pointer1.Some? && StateOf(e, id).pointer2.None?
    ensures Bad(ZoomOn(e, id, deltaY, f))
  {
    hide Bad, Safe, Held, PinchStart, PinchEnd, ZoomWanted, ZoomTo, ZoomEnds, Lift, SetTimer;
    var wanted := ZoomWanted(StateOf(e, id).delta, deltaY, f);
    var delta := ZoomTo(wanted, f);
    var spot1, spot2 := PinchStart(f, delta), PinchEnd(f, delta);
    var e1 := Drag(SetDelta(e, id, delta), FirstOf(id), spot1);
    var e2 := Drag(e1, SecondOf(id), spot2);
    UnsafeStays(e1.sent, Touch(Move, None, spot2.x, spot2.y));
    UnsafeIsBad(e2);
    if ZoomEnds(wanted, f) {
      BadLift(e2, FirstOf(id), spot1);
      BadLift(Lift(e2, FirstOf(id), spot1), SecondOf(id), spot2);
    } else {
      BadTimer(e2, id, true, spot1, spot2);
    }
  }

  lemma UnsafeIsBad(e: Engine)
    requires Rooted(e) && !Safe(e.sent)
    ensures Bad(e)
  {
  }

  /** With the second pointer alone, it forgets that pointer. */
  lemma ZoomForgets(e: Engine, id: Id, deltaY: real, f: Frame)
    requires Accounted(e) && Rooted(e) && id in e.wheels
    requires StateOf(e, id).pointer1.None? && StateOf(e, id).pointer2.Some?
    ensures Bad(ZoomStart(e, id, deltaY, f))
  {
    hide Bad, Accounted, SetDelta, Press, ZoomFrom, PinchStart, PinchEnd;
    var delta := ZoomFrom(deltaY, f);
    var e1 := SetDelta(e, id, delta);
    DeltaEdits(e, id, delta);
    EditsRooted(e, e1, id);
    var e2 := Press(e1, FirstOf(id), PinchStart(f, delta));
    PressEdits(e1, FirstOf(id), id, PinchStart(f, delta));
    PressForgets(e2, SecondOf(id), PinchEnd(f, delta));
  }

  /** Pressing in a place that holds a pointer loses that pointer. */
  lemma PressForgets(e: Engine, o: Owner, at: Spot)
    requires Accounted(e) && Rooted(e) && Exists(e, o) && PointerOf(e, o).Some?
    ensures Bad(Press(e, o, at))
  {
    hide Safe, Held, Used, PointerOf;
    var p, r := PointerOf(e, o).value, Press(e, o, at);
    AssignsOnly(e, o, Some(e.base));
    AssignRooted(e, o, Some(e.base));
    SamePlaces(Assign(e, o, Some(e.base)), r);
    SafeAppend(e.sent, Touch(Down, Some(e.base), at.x, at.y));
    assert p in Held(e.sent) && p < e.base;
    assert Lost(r, p);
  }

  lemma ZoomBreaks(e: Engine, m: Mapping, deltaY: real, f: Frame)
    requires Good(e) && m.Wheel? && m.gesture.Zoom? && Half(e, m.id)
    ensures Linked(e) && Bad(OnWheel(e, m, deltaY, f))
  {
    hide Good, Bad, Ready, ZoomStart, ZoomOn;
    ReadyKeeps(e, m.id);
    var e1 := Ready(e, m.id);
    GoodParts(e1);
    if StateOf(e1, m.id).pointer1.Some? {
      ZoomStarted(e1, m.id, deltaY, f);
      ZoomMovesNothing(e1, m.id, deltaY, f);
    } else {
      ZoomForgets(e1, m.id, deltaY, f);
      BadZoomOn(ZoomStart(e1, m.id, deltaY, f), m.id, deltaY, f);
    }
  }

  lemma ZoomStarted(e: Engine, id: Id, deltaY: real, f: Frame)
    requires Linked(e) && id in e.wheels && StateOf(e, id).pointer1.Some?
    ensures ZoomStart(e, id, deltaY, f) == e
  {
  }

  // ---------------------------------------------------------------- turns

  /** No zoom of a turn meets a wheel that holds half a pinch. */
  predicate TurnWhole(e: Engine, ms: seq<Mapping>, deltaY: real, f: Frame)
    requires Linked(e)
    decreases |ms|
  {
    ms == [] ||
    (TurnWhole(e, ms[..|ms| - 1], deltaY, f) &&
     var m := ms[|ms| - 1];
     !(m.Wheel? && m.gesture.Zoom? && Half(OnWheels(e, ms[..|ms| - 1], deltaY, f), m.id)))
  }

  lemma {:induction false} TurnExactly(e: Engine, ms: seq<Mapping>, deltaY: real, f: Frame)
    requires Good(e)
    ensures Linked(e)
    ensures if TurnWhole(e, ms, deltaY, f) then Good(OnWheels(e, ms, deltaY, f)) else Bad(OnWheels(e, ms, deltaY, f))
    decreases |ms|
  {
    hide Good, Bad, Half, OnWheel;
    GoodParts(e);
    if ms != [] {
      var front, m := ms[..|ms| - 1], ms[|ms| - 1];
      TurnExactly(e, front, deltaY, f);
      var before := OnWheels(e, front, deltaY, f);
      if m.Wheel? {
        if !TurnWhole(e, front, deltaY, f) {
          BadWheel(before, m, deltaY, f);
        } else if m.gesture.Zoom? && Half(before, m.id) {
          ZoomBreaks(before, m, deltaY, f);
        } else {
          WheelKeeps(before, m, deltaY, f);
        }
      }
    }
  }

  // ---------------------------------------------------------------- runs

  predicate StepWhole(e: Engine, event: Event)
    requires Linked(e)
  {
    event.Turn? && e.profile.Some? ==> TurnWhole(e, e.profile.value, event.deltaY, event.frame)
  }

  lemma StepExactly(e: Engine, event: Event)
    requires Good(e)
    ensures Linked(e)
    ensures if StepWhole(e, event) then Good(Step(e, event)) else Bad(Step(e, event))
  {
    hide Good, Bad, TurnWhole, OnKeys, OnWheels, Animate, Expire, Release;
    GoodParts(e);
    match event
    case Key(k) => if e.profile.Some? { KeysKeep(e, e.profile.value, k); }
    case Turn(deltaY, f) => if e.profile.Some? { TurnExactly(e, e.profile.value, deltaY, f); }
    case Paint(i, now) => if i < |e.strokes| { PaintKeeps(e, i, now); }
    case Timeout(t) => if t in e.timers && e.timers[t].wheel in e.states { ExpireKeeps(e, t); }
    case Update(p, w) => if Walks(w, e) { ReleaseKeeps(e, e.(profile := p), w); }
    case ReleaseAll(w) => if Walks(w, e) { ReleaseKeeps(e, e, w); }
  }

  lemma ReleaseKeeps(e: Engine, e1: Engine, w: Walk)
    requires Good(e) && Walks(w, e) && e1 == e.(profile := e1.profile)
    ensures Linked(e1) && Good(Release(e1, w))
  {
    hide Accounted, Release;
    SoundIgnoresProfile(e, e1, w);
    ReleaseEmpties(e1, w);
  }

  lemma SoundIgnoresProfile(e: Engine, e1: Engine, w: Walk)
    requires Good(e) && e1 == e.(profile := e1.profile) && Walks(w, e)
    ensures Sound(e1) && Walks(w, e1)
  {
    hide Accounted;
    Unmoved(e, e1);
    forall t | t in e1.timers ensures t < e1.nextTimer && TimerFits(e1, t) { assert TimerFits(e, t); }
  }

  /** In no turn of a run does a zoom meet a wheel that holds half a pinch. */
  predicate RunWhole(events: seq<Event>) {
    forall i | 0 <= i < |events| :: StepWhole(Run(Fresh(), events[..i]), events[i])
  }

  /** Before and after every event of a run the pointers that are down are exactly those the engine knows. */
  ghost predicate AlwaysAccounted(events: seq<Event>) {
    forall i | 0 <= i <= |events| :: Accounted(Run(Fresh(), events[..i]))
  }

  lemma RunNext(events: seq<Event>, i: nat)
    requires i < |events|
    ensures Run(Fresh(), events[..i + 1]) == Step(Run(Fresh(), events[..i]), events[i])
  {
    hide Step;
    assert events[..i + 1][..i] == events[..i];
  }

  lemma {:induction false} WholeRunsAreGood(events: seq<Event>, i: nat)
    requires i <= |events| && forall j | 0 <= j < i :: StepWhole(Run(Fresh(), events[..j]), events[j])
    ensures Good(Run(Fresh(), events[..i]))
  {
    hide Good, Step, StepWhole;
    if i == 0 {
      FreshIsGood();
    } else {
      WholeRunsAreGood(events, i - 1);
      RunNext(events, i - 1);
      StepExactly(Run(Fresh(), events[..i - 1]), events[i - 1]);
    }
  }

  /** The first turn at which a zoom meets half a pinch leaves pointers unaccounted for. */
  lemma {:induction false} BrokenRunsAreBad(events: seq<Event>, i: nat)
    requires i < |events| && !StepWhole(Run(Fresh(), events[..i]), events[i])
    ensures !AlwaysAccounted(events)
    decreases i
  {
    hide Good, Bad, Accounted, Step, StepWhole;
    if j :| 0 <= j < i && !StepWhole(Run(Fresh(), events[..j]), events[j]) {
      BrokenRunsAreBad(events, j);
    } else {
      WholeRunsAreGood(events, i);
      RunNext(events, i);
      StepExactly(Run(Fresh(), events[..i]), events[i]);
      BadIsUnaccounted(Run(Fresh(), events[..i + 1]));
    }
  }

  /**
   * For every run under any profiles: the pointers that are down are always exactly those the engine knows, each in
   * one place, if and only if no zoom ever meets a wheel that holds one pointer of a pinch without the other.
   */
  lemma AccountedExactly(events: seq<Event>)
    ensures AlwaysAccounted(events) <==> RunWhole(events)
  {
    hide Good, Accounted, StepWhole, Run;
    if RunWhole(events) {
      forall i | 0 <= i <= |events| ensures Accounted(Run(Fresh(), events[..i])) {
        WholeRunsAreGood(events, i);
        GoodParts(Run(Fresh(), events[..i]));
      }
    } else {
      var i :| 0 <= i < |events| && !StepWhole(Run(Fresh(), events[..i]), events[i]);
      BrokenRunsAreBad(events, i);
    }
  }
}

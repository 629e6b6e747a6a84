/** What turning a mapped wheel makes the engine send, in numbers. */
module KeymapTurns {
  import opened Wrappers
  import opened TouchTrace
  import opened KeymapModel

  // ---------------------------------------------------------------- the only wheel of a profile

  predicate SoleWheel(ms: seq<Mapping>, j: nat) {
    j < |ms| && ms[j].Wheel? && forall i | 0 <= i < |ms| && i != j :: !ms[i].Wheel?
  }

  lemma {:induction false} OnlyThat(e: Engine, ms: seq<Mapping>, j: nat, deltaY: real, f: Frame)
    requires Linked(e) && forall i | 0 <= i < |ms| && i != j :: !ms[i].Wheel?
    ensures OnWheels(e, ms, deltaY, f) ==
      if j < |ms| && ms[j].Wheel? then OnWheel(e, ms[j], deltaY, f) else e
    decreases |ms|
  {
    hide OnWheel;
    if ms != [] {
      var front := ms[..|ms| - 1];
      assert forall i | 0 <= i < |front| :: front[i] == ms[i];
      OnlyThat(e, front, j, deltaY, f);
    }
  }

  /** What is known of a wheel; one that was not turned yet holds nothing. */
  function WheelAt(e: Engine, id: Id): WheelState {
    if id in e.wheels && e.wheels[id] in e.states then e.states[e.wheels[id]] else NO_WHEEL
  }

  /** Nothing new is sent, and a wheel is as it was but for a timer that was pending. */
  predicate Readied(e: Engine, r: Engine, id: Id) {
    && id in r.wheels && r.wheels[id] in r.states && r.sent == e.sent && r.base == e.base && r.nextTimer == e.nextTimer
    && WheelAt(r, id) == WheelAt(e, id).(timeout := None)
    && r.timers == match WheelAt(e, id).timeout case Some(t) => e.timers - {t} case None => e.timers
  }

  lemma ReadyTells(e: Engine, id: Id)
    requires Linked(e)
    ensures Readied(e, Ready(e, id), id)
  {
  }

  // ---------------------------------------------------------------- scrolls

  /** One way, the other way or nowhere, by a step. */
  function Stepped(deltaY: real, step: real): real {
    if deltaY < 0.0 then -step else if deltaY > 0.0 then step else 0.0
  }

  function InFrame(y: real, height: real): real {
    if y < 0.0 || height < 0.0 then 0.0 else if y > height then height else y
  }

  lemma Numbers(deltaY: real, step: real, y: real, height: real)
    ensures Sign(deltaY) * step == Stepped(deltaY, step) && Clamp(y, height) == InFrame(y, height)
  {
  }

  /** The pending timer of a wheel lifts its fingers at given spots. */
  predicate Pending(e: Engine, id: Id, zoom: bool, spot1: Spot, spot2: Spot) {
    var timeout := WheelAt(e, id).timeout;
    id in e.wheels && timeout.Some? && timeout.value in e.timers
    && e.timers[timeout.value] == Timer(id, e.wheels[id], zoom, spot1, spot2)
  }

  /** A wheel's fingers, and how far it has gone. */
  predicate Holds(e: Engine, id: Id, pointer1: Option<nat>, pointer2: Option<nat>, delta: real) {
    var s := WheelAt(e, id);
    s.pointer1 == pointer1 && s.pointer2 == pointer2 && s.delta == delta
  }

  lemma StartTells(e: Engine, id: Id, at: Spot, deltaY: real, f: Frame)
    requires Linked(e) && id in e.wheels
    ensures
      var r, was, begin := ScrollStart(e, id, at, deltaY, f), WheelAt(e, id), Stepped(deltaY, f.height * 0.15);
      var idle, p := was.pointer1.None?, if was.pointer1.Some? then was.pointer1 else Some(e.base);
      && Holds(r, id, p, was.pointer2, if idle then begin else was.delta)
      && r.sent == e.sent + if idle then [Touch(Down, p, at.x, InFrame(at.y + begin, f.height))] else []
  {
    var begin := Stepped(deltaY, f.height * 0.15);
    Numbers(deltaY, f.height * 0.15, at.y + begin, f.height);
    hide Stepped, InFrame, Sign, Clamp;
  }

  lemma GoOnTells(e: Engine, id: Id, at: Spot, deltaY: real, f: Frame)
    requires Linked(e) && id in e.wheels
    ensures
      var r, s := ScrollOn(e, id, at, deltaY, f), WheelAt(e, id);
      var delta := s.delta - Stepped(deltaY, f.height * 0.06);
      var y, third := at.y + delta, f.height * 0.3;
      if y <= 0.0 || y >= f.height || delta > third || -delta > third then
        var edge := InFrame(y, f.height);
        Holds(r, id, None, s.pointer2, delta)
        && r.sent == e.sent + [Touch(Move, s.pointer1, at.x, edge)] + [Touch(Up, s.pointer1, at.x, edge)]
      else
        && Holds(r, id, s.pointer1, s.pointer2, delta) && Pending(r, id, false, Spot(at.x, y), Spot(at.x, y))
        && r.sent == e.sent + [Touch(Move, s.pointer1, at.x, y)]
  {
    var delta := WheelAt(e, id).delta - Stepped(deltaY, f.height * 0.06);
    Numbers(deltaY, f.height * 0.06, at.y + delta, f.height);
    EndsAre(at, delta, f);
    assert ScrollTo(StateOf(e, id).delta, deltaY, f) == delta;
    var e1 := Drag(SetDelta(e, id, delta), FirstOf(id), Spot(at.x, at.y + delta));
    assert Holds(e1, id, WheelAt(e, id).pointer1, WheelAt(e, id).pointer2, delta);
    TimerTells(e1, id, false, Spot(at.x, at.y + delta), Spot(at.x, at.y + delta));
    hide Stepped, InFrame, Sign, Clamp, ScrollEnds, ScrollTo, SetTimer, Pending;
  }

  lemma TimerTells(e: Engine, id: Id, zoom: bool, spot1: Spot, spot2: Spot)
    requires Linked(e) && id in e.wheels
    ensures
      var r := SetTimer(e, id, zoom, spot1, spot2);
      && WheelAt(r, id) == WheelAt(e, id).(timeout := Some(e.nextTimer)) && r.sent == e.sent
      && Pending(r, id, zoom, spot1, spot2)
  {
  }

  lemma EndsAre(at: Spot, delta: real, f: Frame)
    ensures ScrollEnds(at, delta, f) <==>
      at.y + delta <= 0.0 || at.y + delta >= f.height || delta > f.height * 0.3 || -delta > f.height * 0.3
  {
  }

  /**
   * What a turn makes of a scroll around a place. If no finger is down it puts a new one down, 15% of the height off
   * the place and inside the frame. Then it moves the finger back by 6% of the height. At the frame's edge, or 30% of
   * the height off the place, the finger is kept inside the frame and goes up there; otherwise a timer is left to lift
   * it where it is.
   */
  predicate Scrolled(
    sent: seq<Touch>, next: nat, r: Engine, id: Id, was: WheelState, x: real, y: real, deltaY: real, f: Frame)
  {
    var begin := Stepped(deltaY, f.height * 0.15);
    var idle, p := was.pointer1.None?, if was.pointer1.Some? then was.pointer1 else Some(next);
    var down := if idle then [Touch(Down, p, x, InFrame(y + begin, f.height))] else [];
    var delta := (if idle then begin else was.delta) - Stepped(deltaY, f.height * 0.06);
    var to, third := y + delta, f.height * 0.3;
    if to <= 0.0 || to >= f.height || delta > third || -delta > third then
      var edge := InFrame(to, f.height);
      Holds(r, id, None, was.pointer2, delta)
      && r.sent == sent + down + [Touch(Move, p, x, edge)] + [Touch(Up, p, x, edge)]
    else
      && Holds(r, id, p, was.pointer2, delta) && Pending(r, id, false, Spot(x, to), Spot(x, to))
      && r.sent == sent + down + [Touch(Move, p, x, to)]
  }

  lemma ScrollTells(e: Engine, id: Id, at: Spot, deltaY: real, f: Frame)
    requires Linked(e) && id in e.wheels
    ensures
      var r := ScrollOn(ScrollStart(e, id, at, deltaY, f), id, at, deltaY, f);
      Scrolled(e.sent, e.base, r, id, WheelAt(e, id), at.x, at.y, deltaY, f)
  {
    hide ScrollStart, ScrollOn, Stepped, InFrame, WheelAt, Pending;
    StartTells(e, id, at, deltaY, f);
    GoOnTells(ScrollStart(e, id, at, deltaY, f), id, at, deltaY, f);
  }

  lemma OneTurn(e: Engine, ms: seq<Mapping>, j: nat, deltaY: real, f: Frame)
    requires Linked(e) && e.profile == Some(ms) && SoleWheel(ms, j)
    ensures Step(e, Turn(deltaY, f)) == OnWheel(e, ms[j], deltaY, f)
  {
    hide OnWheel;
    OnlyThat(e, ms, j, deltaY, f);
  }

  lemma ScrollTurn(e: Engine, m: Mapping, deltaY: real, f: Frame)
    requires Linked(e) && m.Wheel? && m.gesture.Scroll?
    ensures
      var e1, at := Ready(e, m.id), Spot(m.pos.x * f.width, m.pos.y * f.height);
      OnWheel(e, m, deltaY, f) == ScrollOn(ScrollStart(e1, m.id, at, deltaY, f), m.id, at, deltaY, f)
  {
    hide Ready, ScrollStart, ScrollOn;
    assert Scale(m.pos, f) == Spot(m.pos.x * f.width, m.pos.y * f.height);
  }

  /** A turn of a profile's only wheel, for scrolling, whatever it holds. */
  lemma ScrollsExactly(e: Engine, ms: seq<Mapping>, j: nat, deltaY: real, f: Frame)
    requires Linked(e) && e.profile == Some(ms) && SoleWheel(ms, j) && ms[j].gesture.Scroll?
    ensures Scrolled(e.sent, e.base, Step(e, Turn(deltaY, f)), ms[j].id, WheelAt(e, ms[j].id),
                     ms[j].pos.x * f.width, ms[j].pos.y * f.height, deltaY, f)
  {
    hide Step, OnWheel, Ready, ScrollStart, ScrollOn, Scrolled, WheelAt;
    var m := ms[j];
    var at := Spot(m.pos.x * f.width, m.pos.y * f.height);
    assert at.x == ms[j].pos.x * f.width && at.y == ms[j].pos.y * f.height;
    OneTurn(e, ms, j, deltaY, f);
    ScrollTurn(e, m, deltaY, f);
    ReadyTells(e, m.id);
    ScrollTells(Ready(e, m.id), m.id, at, deltaY, f);
    SameScrolled(Ready(e, m.id), e, Step(e, Turn(deltaY, f)), m.id, at.x, at.y, deltaY, f);
  }

  lemma SameScrolled(e1: Engine, e: Engine, r: Engine, id: Id, x: real, y: real, deltaY: real, f: Frame)
    requires Readied(e, e1, id)
    requires Scrolled(e1.sent, e1.base, r, id, WheelAt(e1, id), x, y, deltaY, f)
    ensures Scrolled(e.sent, e.base, r, id, WheelAt(e, id), x, y, deltaY, f)
  {
    hide WheelAt, Holds, Pending, Stepped, InFrame;
  }

  // ---------------------------------------------------------------- zooms

  /** The fingers of a pinch lie a radius off the middle of the frame, on a diagonal: left above, and right below. */
  function LeftAbove(f: Frame, radius: real): Spot {
    Spot(f.width / 2.0 - radius * 0.7071067811865476, f.height / 2.0 - radius * 0.7071067811865476)
  }

  function RightBelow(f: Frame, radius: real): Spot {
    Spot(f.width / 2.0 + radius * 0.7071067811865476, f.height / 2.0 + radius * 0.7071067811865476)
  }

  /** The radius a pinch begins with: near the smallest when it is to grow, near the largest when it is to shrink. */
  function FirstRadius(deltaY: real, height: real): real {
    if deltaY < 0.0 then height * 0.05 + height * 0.02 else height * 0.40 - height * 0.02
  }

  function Raised(wanted: real, height: real): real {
    if wanted <= height * 0.05 then height * 0.05 else wanted
  }

  /** The radius kept between 5% and 40% of the height. */
  function Bounded(wanted: real, height: real): real {
    if Raised(wanted, height) >= height * 0.40 then height * 0.40 else Raised(wanted, height)
  }

  predicate AtBound(wanted: real, height: real) {
    wanted <= height * 0.05 || Raised(wanted, height) >= height * 0.40
  }

  /**
   * What a turn makes of a zoom. If no finger is down it puts two new ones down. Then it moves both apart or together
   * by 5% of the height, not beyond the bounds. At a bound both go up where they are; otherwise a timer is left to lift
   * them.
   */
  predicate Zoomed(sent: seq<Touch>, next: nat, r: Engine, id: Id, was: WheelState, deltaY: real, f: Frame) {
    var begin, idle := FirstRadius(deltaY, f.height), was.pointer1.None?;
    var p, q := if idle then Some(next) else was.pointer1, if idle then Some(next + 1) else was.pointer2;
    var from, from' := LeftAbove(f, begin), RightBelow(f, begin);
    var down := if idle then [Touch(Down, p, from.x, from.y)] + [Touch(Down, q, from'.x, from'.y)] else [];
    var wanted := (if idle then begin else was.delta) - Stepped(deltaY, f.height * 0.05);
    Pinched(sent + down, r, id, p, q, wanted, f)
  }

  predicate Pinched(sent: seq<Touch>, r: Engine, id: Id, p: Option<nat>, q: Option<nat>, wanted: real, f: Frame) {
    var radius := Bounded(wanted, f.height);
    var at, at' := LeftAbove(f, radius), RightBelow(f, radius);
    var moved := sent + [Touch(Move, p, at.x, at.y)] + [Touch(Move, q, at'.x, at'.y)];
    if AtBound(wanted, f.height) then
      Holds(r, id, None, None, radius)
      && r.sent == moved + [Touch(Up, p, at.x, at.y)] + [Touch(Up, q, at'.x, at'.y)]
    else Holds(r, id, p, q, radius) && Pending(r, id, true, at, at') && r.sent == moved
  }

  lemma Places(f: Frame, radius: real, wanted: real, deltaY: real)
    ensures PinchStart(f, radius) == LeftAbove(f, radius) && PinchEnd(f, radius) == RightBelow(f, radius)
    ensures ZoomTo(wanted, f) == Bounded(wanted, f.height) && (ZoomEnds(wanted, f) <==> AtBound(wanted, f.height))
    ensures ZoomFrom(deltaY, f) == FirstRadius(deltaY, f.height)
  {
  }

  lemma BeginTells(e: Engine, id: Id, deltaY: real, f: Frame)
    requires Linked(e) && id in e.wheels
    ensures
      var r, was, begin := ZoomStart(e, id, deltaY, f), WheelAt(e, id), FirstRadius(deltaY, f.height);
      var idle := was.pointer1.None?;
      var p, q := if idle then Some(e.base) else was.pointer1, if idle then Some(e.base + 1) else was.pointer2;
      var from, from' := LeftAbove(f, begin), RightBelow(f, begin);
      && Holds(r, id, p, q, if idle then begin else was.delta)
      && r.sent ==
           e.sent + if idle then [Touch(Down, p, from.x, from.y)] + [Touch(Down, q, from'.x, from'.y)] else []
  {
    Places(f, FirstRadius(deltaY, f.height), 0.0, deltaY);
    hide PinchStart, PinchEnd, LeftAbove, RightBelow, ZoomFrom, FirstRadius;
  }

  lemma MovedTells(e: Engine, id: Id, delta: real, at: Spot, at': Spot)
    requires Linked(e) && id in e.wheels
    ensures
      var r, was := Pinch(SetDelta(e, id, delta), id, at, at'), WheelAt(e, id);
      && Holds(r, id, was.pointer1, was.pointer2, delta)
      && r.sent == e.sent + [Touch(Move, was.pointer1, at.x, at.y)] + [Touch(Move, was.pointer2, at'.x, at'.y)]
  {
  }

  lemma LiftedTells(e: Engine, id: Id, at: Spot, at': Spot)
    requires Linked(e) && id in e.wheels
    ensures
      var r, was := Unpinch(e, id, at, at'), WheelAt(e, id);
      && Holds(r, id, None, None, was.delta)
      && r.sent == e.sent + [Touch(Up, was.pointer1, at.x, at.y)] + [Touch(Up, was.pointer2, at'.x, at'.y)]
  {
  }

  lemma PinchTells(e: Engine, id: Id, deltaY: real, f: Frame)
    requires Linked(e) && id in e.wheels
    ensures
      var was := WheelAt(e, id);
      var wanted := was.delta - Stepped(deltaY, f.height * 0.05);
      Pinched(e.sent, ZoomOn(e, id, deltaY, f), id, was.pointer1, was.pointer2, wanted, f)
  {
    Numbers(deltaY, f.height * 0.05, 0.0, 0.0);
    var wanted := WheelAt(e, id).delta - Stepped(deltaY, f.height * 0.05);
    assert ZoomWanted(StateOf(e, id).delta, deltaY, f) == wanted;
    var radius := Bounded(wanted, f.height);
    Places(f, radius, wanted, deltaY);
    var at, at' := LeftAbove(f, radius), RightBelow(f, radius);
    hide PinchStart, PinchEnd, LeftAbove, RightBelow, ZoomWanted, ZoomTo, Bounded, ZoomEnds, AtBound, Stepped;
    hide Pinch, Unpinch, SetDelta, SetTimer, Pending, WheelAt, StateOf;
    MovedTells(e, id, radius, at, at');
    var e1 := Pinch(SetDelta(e, id, radius), id, at, at');
    LiftedTells(e1, id, at, at');
    TimerTells(e1, id, true, at, at');
  }

  lemma ZoomTurn(e: Engine, m: Mapping, deltaY: real, f: Frame)
    requires Linked(e) && m.Wheel? && m.gesture.Zoom?
    ensures
      var e1 := Ready(e, m.id);
      OnWheel(e, m, deltaY, f) == ZoomOn(ZoomStart(e1, m.id, deltaY, f), m.id, deltaY, f)
  {
    hide Ready, ZoomStart, ZoomOn;
  }

  /** A turn of a profile's only wheel, for zooming, whatever it holds. */
  lemma ZoomsExactly(e: Engine, ms: seq<Mapping>, j: nat, deltaY: real, f: Frame)
    requires Linked(e) && e.profile == Some(ms) && SoleWheel(ms, j) && ms[j].gesture.Zoom?
    ensures Zoomed(e.sent, e.base, Step(e, Turn(deltaY, f)), ms[j].id, WheelAt(e, ms[j].id), deltaY, f)
  {
    hide Step, OnWheel, Ready, ZoomStart, ZoomOn, Pinched, WheelAt, LeftAbove, RightBelow, FirstRadius, Stepped;
    var id := ms[j].id;
    OneTurn(e, ms, j, deltaY, f);
    ZoomTurn(e, ms[j], deltaY, f);
    ReadyTells(e, id);
    BeginTells(Ready(e, id), id, deltaY, f);
    PinchTells(ZoomStart(Ready(e, id), id, deltaY, f), id, deltaY, f);
  }

  // ---------------------------------------------------------------- timers

  /** A timer that runs out lifts the finger it was left for, or both, where they were, if the first is still down. */
  lemma TimeoutTells(e: Engine, t: nat)
    requires Linked(e) && t in e.timers && e.timers[t].wheel in e.states
    ensures
      var r, timer, was := Step(e, Timeout(t)), e.timers[t], e.states[e.timers[t].wheel];
      var at, at' := timer.spot1, timer.spot2;
      && t !in r.timers && timer.wheel in r.states
      && if was.pointer1.None? then r.sent == e.sent && r.states == e.states
      else
        && r.states[timer.wheel].pointer1.None?
        && r.states[timer.wheel].pointer2 == (if timer.zoom then None else was.pointer2)
        && r.sent == e.sent + [Touch(Up, was.pointer1, at.x, at.y)]
             + if timer.zoom then [Touch(Up, was.pointer2, at'.x, at'.y)] else []
  {
  }

  /** A turn of a profile's only wheel takes away the timer that was pending for it. */
  lemma TurnCancels(e: Engine, ms: seq<Mapping>, j: nat, deltaY: real, f: Frame, t: nat)
    requires Linked(e) && e.profile == Some(ms) && SoleWheel(ms, j) && WheelAt(e, ms[j].id).timeout == Some(t)
    requires t < e.nextTimer
    ensures t !in Step(e, Turn(deltaY, f)).timers
  {
    hide Step, OnWheel, Ready, WheelAt;
    OneTurn(e, ms, j, deltaY, f);
    ReadyTells(e, ms[j].id);
    NoOldTimer(e, ms[j], deltaY, f, t);
  }

  lemma StartTimers(e: Engine, id: Id, at: Spot, deltaY: real, f: Frame)
    requires Linked(e) && id in e.wheels
    ensures
      var r, s := ScrollStart(e, id, at, deltaY, f), ZoomStart(e, id, deltaY, f);
      r.timers == s.timers == e.timers && r.nextTimer == s.nextTimer == e.nextTimer
  {
    hide ScrollFrom, Inside, ZoomFrom, PinchStart, PinchEnd;
  }

  lemma ScrollTimers(e: Engine, id: Id, at: Spot, deltaY: real, f: Frame)
    requires Linked(e) && id in e.wheels
    ensures ScrollOn(e, id, at, deltaY, f).timers.Keys <= e.timers.Keys + {e.nextTimer}
  {
    hide ScrollTo, ScrollEnds, Inside;
  }

  lemma ZoomTimers(e: Engine, id: Id, deltaY: real, f: Frame)
    requires Linked(e) && id in e.wheels
    ensures ZoomOn(e, id, deltaY, f).timers.Keys <= e.timers.Keys + {e.nextTimer}
  {
    hide ZoomWanted, ZoomTo, ZoomEnds, PinchStart, PinchEnd;
  }

  lemma NoOldTimer(e: Engine, m: Mapping, deltaY: real, f: Frame, t: nat)
    requires Linked(e) && m.Wheel? && t !in Ready(e, m.id).timers && t < Ready(e, m.id).nextTimer
    ensures t !in OnWheel(e, m, deltaY, f).timers
  {
    hide Ready, Scale, ScrollStart, ScrollOn, ZoomStart, ZoomOn;
    var e1, at := Ready(e, m.id), Scale(m.pos, f);
    StartTimers(e1, m.id, at, deltaY, f);
    ScrollTimers(ScrollStart(e1, m.id, at, deltaY, f), m.id, at, deltaY, f);
    ZoomTimers(ZoomStart(e1, m.id, deltaY, f), m.id, deltaY, f);
  }
}

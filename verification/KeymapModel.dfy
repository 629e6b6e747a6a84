/** What the keymap engine does, as functions on its whole state. */
module KeymapModel {
  import opened Wrappers
  import opened TouchTrace

  type Id = string

  datatype Spot = Spot(x: real, y: real)

  datatype Frame = Frame(width: real, height: real)

  datatype Toward = Upward | Downward | Leftward | Rightward

  datatype Keys = Keys(up: string, down: string, left: string, right: string)

  datatype Gesture = Scroll | Zoom | Neither

  datatype Mapping =
    | Tap(id: Id, key: string, pos: Spot)
    | Command(key: string, cmd: string)
    | Joystick(id: Id, keys: Keys, center: Spot, radius: real)
    | Swipe(id: Id, key: string, startPos: Spot, endPos: Spot, duration: real)
    | Wheel(id: Id, gesture: Gesture, pos: Spot)
    | Unknown

  datatype Stick = Stick(up: bool, down: bool, left: bool, right: bool, pointer: Option<nat>)

  datatype WheelState = WheelState(pointer1: Option<nat>, pointer2: Option<nat>, timeout: Option<nat>, delta: real)

  /** A pending lift: the closure passed to setTimeout, which captured a wheel state and one or two spots. */
  datatype Timer = Timer(id: Id, wheel: nat, zoom: bool, spot1: Spot, spot2: Spot)

  /** A pending animation callback: the closure that moves a swipe along. */
  datatype Stroke = Stroke(id: Id, pointer: nat, start: Spot, end: Spot, startTime: real, duration: real)

  /** The engine's fields, the objects and closures it has created, and what it has sent. */
  datatype Engine = Engine(
    profile: Option<seq<Mapping>>,
    base: nat,
    active: map<Id, nat>,
    joysticks: map<Id, Stick>,
    wheels: map<Id, nat>,
    states: map<nat, WheelState>,
    nextState: nat,
    timers: map<nat, Timer>,
    nextTimer: nat,
    strokes: seq<Stroke>,
    sent: seq<Touch>,
    commands: seq<string>)

  const FIRST_TOUCH_ID := 10
  const ROOT_TWO := 1.4142135623730951
  const HALF_ROOT_TWO := 0.7071067811865476
  const NO_STICK := Stick(false, false, false, false, None)
  const NO_WHEEL := WheelState(None, None, None, 0.0)
  const ORIGIN := Spot(0.0, 0.0)

  function Fresh(): Engine {
    Engine(None, FIRST_TOUCH_ID, map[], map[], map[], map[], 0, map[], 0, [], [], [])
  }

  // ---------------------------------------------------------------- small helpers

  function Lower(s: string): string {
    seq(|s|, i requires 0 <= i < |s| => if 'A' <= s[i] <= 'Z' then s[i] + ' ' else s[i])
  }

  function Sign(x: real): real {
    if x < 0.0 then -1.0 else if x > 0.0 then 1.0 else 0.0
  }

  function Clamp(y: real, high: real): real {
    var m := if y < high then y else high;
    if m > 0.0 then m else 0.0
  }

  function Abs(x: real): real {
    if x < 0.0 then -x else x
  }

  function Scale(p: Spot, f: Frame): Spot {
    Spot(p.x * f.width, p.y * f.height)
  }

  function Send(e: Engine, a: Action, p: Option<nat>, at: Spot): Engine {
    e.(sent := e.sent + [Touch(a, p, at.x, at.y)])
  }

  // ---------------------------------------------------------------- who holds a pointer

  /** A place of the engine that can hold a pointer. */
  datatype Owner = ActiveOf(id: Id) | StickOf(id: Id) | FirstOf(id: Id) | SecondOf(id: Id)

  function PointerOf(e: Engine, o: Owner): Option<nat> {
    match o
    case ActiveOf(id) => if id in e.active then Some(e.active[id]) else None
    case StickOf(id) => if id in e.joysticks then e.joysticks[id].pointer else None
    case FirstOf(id) => if id in e.wheels && e.wheels[id] in e.states then e.states[e.wheels[id]].pointer1 else None
    case SecondOf(id) => if id in e.wheels && e.wheels[id] in e.states then e.states[e.wheels[id]].pointer2 else None
  }

  /** Whether the place exists, so that a pointer can be stored in it. */
  predicate Exists(e: Engine, o: Owner) {
    match o
    case ActiveOf(_) => true
    case StickOf(id) => id in e.joysticks
    case FirstOf(id) => id in e.wheels && e.wheels[id] in e.states
    case SecondOf(id) => id in e.wheels && e.wheels[id] in e.states
  }

  /** The wheel states in use exist. */
  predicate Linked(e: Engine) {
    forall id | id in e.wheels :: e.wheels[id] in e.states
  }

  /** The same profile and wheels, with the same state objects, whatever those hold. */
  predicate SameWheels(e: Engine, r: Engine) {
    r.profile == e.profile && r.wheels == e.wheels && r.states.Keys == e.states.Keys
  }

  function Assign(e: Engine, o: Owner, p: Option<nat>): (r: Engine)
    requires Exists(e, o)
    ensures SameWheels(e, r)
  {
    match o
    case ActiveOf(id) => e.(active := if p.Some? then e.active[id := p.value] else e.active - {id})
    case StickOf(id) => e.(joysticks := e.joysticks[id := e.joysticks[id].(pointer := p)])
    case FirstOf(id) => e.(states := e.states[e.wheels[id] := e.states[e.wheels[id]].(pointer1 := p)])
    case SecondOf(id) => e.(states := e.states[e.wheels[id] := e.states[e.wheels[id]].(pointer2 := p)])
  }

  function Press(e: Engine, o: Owner, at: Spot): (r: Engine)
    requires Exists(e, o)
    ensures SameWheels(e, r)
  {
    Send(Assign(e, o, Some(e.base)).(base := e.base + 1), Down, Some(e.base), at)
  }

  function Drag(e: Engine, o: Owner, at: Spot): (r: Engine)
    ensures SameWheels(e, r)
  {
    Send(e, Move, PointerOf(e, o), at)
  }

  function Lift(e: Engine, o: Owner, at: Spot): (r: Engine)
    requires Exists(e, o)
    ensures SameWheels(e, r)
  {
    Send(Assign(e, o, None), Up, PointerOf(e, o), at)
  }

  // ---------------------------------------------------------------- keys

  function OnTap(e: Engine, id: Id, at: Spot, isDown: bool): (r: Engine)
    ensures SameWheels(e, r)
  {
    if isDown == (id in e.active) then e
    else if isDown then Press(e, ActiveOf(id), at)
    else Lift(e, ActiveOf(id), at)
  }

  function Pushed(s: Stick, d: Toward, isDown: bool): Stick {
    match d
    case Upward => s.(up := isDown)
    case Downward => s.(down := isDown)
    case Leftward => s.(left := isDown)
    case Rightward => s.(right := isDown)
  }

  function Across(s: Stick): real {
    (if s.right then 1.0 else 0.0) - (if s.left then 1.0 else 0.0)
  }

  function Along(s: Stick): real {
    (if s.down then 1.0 else 0.0) - (if s.up then 1.0 else 0.0)
  }

  /** The length of a direction vector whose coordinates are -1, 0 or 1, not both 0. */
  function Length(dx: real, dy: real): (r: real)
    ensures r != 0.0
  {
    if dx != 0.0 && dy != 0.0 then ROOT_TWO else 1.0
  }

  predicate Neutral(s: Stick) {
    Across(s) == 0.0 && Along(s) == 0.0
  }

  /** A stick's radius is a part of the frame's width. */
  function RadiusOf(m: Mapping, f: Frame): real
    requires m.Joystick?
  {
    m.radius * f.width
  }

  /** Where a tilted stick puts its finger: on the stick's edge, in the direction of the held keys. */
  function EdgeOf(m: Mapping, s: Stick, f: Frame): Spot
    requires m.Joystick?
  {
    var center, n, radius := Scale(m.center, f), Length(Across(s), Along(s)), RadiusOf(m, f);
    Spot(center.x + Across(s) / n * radius, center.y + Along(s) / n * radius)
  }

  /** Brings the finger of a stick where its held keys want it. */
  function Follow(e: Engine, id: Id, center: Spot, edge: Spot): (r: Engine)
    requires id in e.joysticks
    ensures SameWheels(e, r)
  {
    var o, stick := StickOf(id), e.joysticks[id];
    if Neutral(stick) then
      if stick.pointer.Some? then Lift(e, o, center) else e
    else if stick.pointer.None? then Drag(Press(e, o, center), o, edge)
    else Drag(e, o, edge)
  }

  function OnStick(e: Engine, m: Mapping, d: Toward, isDown: bool, f: Frame): (r: Engine)
    requires m.Joystick?
    ensures SameWheels(e, r)
  {
    var before := if m.id in e.joysticks then e.joysticks[m.id] else NO_STICK;
    var stick := Pushed(before, d, isDown);
    Follow(e.(joysticks := e.joysticks[m.id := stick]), m.id, Scale(m.center, f), EdgeOf(m, stick, f))
  }

  function DurationOf(m: Mapping): (d: real)
    requires m.Swipe?
    ensures d != 0.0
  {
    if m.duration == 0.0 then 150.0 else m.duration
  }

  function OnSwipe(e: Engine, m: Mapping, isDown: bool, f: Frame, now: real): (r: Engine)
    requires m.Swipe?
    ensures SameWheels(e, r)
  {
    var start, end := Scale(m.startPos, f), Scale(m.endPos, f);
    if isDown == (m.id in e.active) then e
    else if isDown then
      Press(e, ActiveOf(m.id), start)
      .(strokes := e.strokes + [Stroke(m.id, e.base, start, end, now, DurationOf(m))])
    else Lift(e, ActiveOf(m.id), end)
  }

  function DirectionOf(keys: Keys, key: string): Option<Toward> {
    if key == Lower(keys.up) then Some(Upward)
    else if key == Lower(keys.down) then Some(Downward)
    else if key == Lower(keys.left) then Some(Leftward)
    else if key == Lower(keys.right) then Some(Rightward)
    else None
  }

  /** Whether a mapping answers a key, given in lower case. */
  predicate Answers(m: Mapping, key: string) {
    match m
    case Tap(_, k, _) => Lower(k) == key
    case Command(k, _) => Lower(k) == key
    case Joystick(_, keys, _, _) => DirectionOf(keys, key).Some?
    case Swipe(_, k, _, _, _) => Lower(k) == key
    case _ => false
  }

  datatype KeyPress = KeyPress(key: string, repeat: bool, isDown: bool, frame: Frame, now: real)

  function OnKey(e: Engine, m: Mapping, k: KeyPress): (r: Engine)
    ensures SameWheels(e, r)
  {
    if !Answers(m, Lower(k.key)) || k.repeat then e
    else
      match m
      case Tap(id, _, pos) => OnTap(e, id, Scale(pos, k.frame), k.isDown)
      case Command(_, cmd) => if k.isDown then e.(commands := e.commands + [cmd]) else e
      case Joystick(_, keys, _, _) => OnStick(e, m, DirectionOf(keys, Lower(k.key)).value, k.isDown, k.frame)
      case Swipe(_, _, _, _, _) => OnSwipe(e, m, k.isDown, k.frame, k.now)
      case _ => e
  }

  function OnKeys(e: Engine, ms: seq<Mapping>, k: KeyPress): (r: Engine)
    ensures SameWheels(e, r)
  {
    if ms == [] then e else OnKey(OnKeys(e, ms[..|ms| - 1], k), ms[|ms| - 1], k)
  }

  // ---------------------------------------------------------------- animation

  function Progress(s: Stroke, now: real): real {
    var p := if s.duration == 0.0 then 1.0 else (now - s.startTime) / s.duration;
    if p >= 1.0 then 1.0 else p
  }

  function Between(s: Stroke, progress: real): Spot {
    Spot(s.start.x + (s.end.x - s.start.x) * progress, s.start.y + (s.end.y - s.start.y) * progress)
  }

  /** Runs a pending animation callback. */
  function Animate(e: Engine, i: nat, now: real): (r: Engine)
    requires i < |e.strokes|
    ensures SameWheels(e, r)
  {
    var s := e.strokes[i];
    var e1 := e.(strokes := e.strokes[..i] + e.strokes[i + 1..]);
    if PointerOf(e, ActiveOf(s.id)) != Some(s.pointer) then e1
    else
      var e2 := Drag(e1, ActiveOf(s.id), Between(s, Progress(s, now)));
      if Progress(s, now) < 1.0 then e2.(strokes := e1.strokes + [s]) else e2
  }

  // ---------------------------------------------------------------- wheels

  function StateOf(e: Engine, id: Id): WheelState
    requires Linked(e) && id in e.wheels
  {
    e.states[e.wheels[id]]
  }

  function Created(e: Engine, id: Id): (r: Engine)
    requires Linked(e)
    ensures Linked(r) && id in r.wheels && r.profile == e.profile
  {
    if id in e.wheels then e
    else
      e.(wheels := e.wheels[id := e.nextState], states := e.states[e.nextState := NO_WHEEL],
         nextState := e.nextState + 1)
  }

  function Unscheduled(e: Engine, id: Id): (r: Engine)
    requires Linked(e) && id in e.wheels
    ensures SameWheels(e, r)
  {
    var s := StateOf(e, id);
    if s.timeout.None? then e
    else e.(timers := e.timers - {s.timeout.value}, states := e.states[e.wheels[id] := s.(timeout := None)])
  }

  /** The wheel state of a mapping, created when missing, with its timer cleared. */
  function Ready(e: Engine, id: Id): (r: Engine)
    requires Linked(e)
    ensures Linked(r) && id in r.wheels && r.profile == e.profile
  {
    hide Created, Unscheduled;
    Unscheduled(Created(e, id), id)
  }

  function SetDelta(e: Engine, id: Id, delta: real): (r: Engine)
    requires Linked(e) && id in e.wheels
    ensures SameWheels(e, r)
  {
    e.(states := e.states[e.wheels[id] := StateOf(e, id).(delta := delta)])
  }

  function SetTimer(e: Engine, id: Id, zoom: bool, spot1: Spot, spot2: Spot): (r: Engine)
    requires Linked(e) && id in e.wheels
    ensures SameWheels(e, r)
  {
    e.(states := e.states[e.wheels[id] := StateOf(e, id).(timeout := Some(e.nextTimer))],
       timers := e.timers[e.nextTimer := Timer(id, e.wheels[id], zoom, spot1, spot2)],
       nextTimer := e.nextTimer + 1)
  }

  /** How far from the wheel's place a scroll starts, and how far one turn moves it. */
  function ScrollFrom(deltaY: real, f: Frame): real {
    Sign(deltaY) * (f.height * 0.15)
  }

  function ScrollTo(delta: real, deltaY: real, f: Frame): real {
    delta - Sign(deltaY) * (f.height * 0.06)
  }

  /** The spot a distance below a place, kept inside the frame's height. */
  function Inside(at: Spot, delta: real, f: Frame): Spot {
    Spot(at.x, Clamp(at.y + delta, f.height))
  }

  /** A scroll ends at the frame's edges and after a third of the height. */
  predicate ScrollEnds(at: Spot, delta: real, f: Frame) {
    at.y + delta <= 0.0 || at.y + delta >= f.height || Abs(delta) > f.height * 0.3
  }

  function ScrollStart(e: Engine, id: Id, at: Spot, deltaY: real, f: Frame): (r: Engine)
    requires Linked(e) && id in e.wheels
    ensures SameWheels(e, r)
  {
    if StateOf(e, id).pointer1.Some? then e
    else
      var delta := ScrollFrom(deltaY, f);
      Press(SetDelta(e, id, delta), FirstOf(id), Inside(at, delta, f))
  }

  function ScrollOn(e: Engine, id: Id, at: Spot, deltaY: real, f: Frame): (r: Engine)
    requires Linked(e) && id in e.wheels
    ensures SameWheels(e, r)
  {
    var delta := ScrollTo(StateOf(e, id).delta, deltaY, f);
    var e1 := SetDelta(e, id, delta);
    if ScrollEnds(at, delta, f) then
      var edge := Inside(at, delta, f);
      Lift(Drag(e1, FirstOf(id), edge), FirstOf(id), edge)
    else
      var spot := Spot(at.x, at.y + delta);
      SetTimer(Drag(e1, FirstOf(id), spot), id, false, spot, spot)
  }

  /** The two ends of a pinch around the middle of the frame, along a diagonal. */
  function PinchStart(f: Frame, radius: real): Spot {
    Spot(f.width / 2.0 - radius * HALF_ROOT_TWO, f.height / 2.0 - radius * HALF_ROOT_TWO)
  }

  function PinchEnd(f: Frame, radius: real): Spot {
    Spot(f.width / 2.0 + radius * HALF_ROOT_TWO, f.height / 2.0 + radius * HALF_ROOT_TWO)
  }

  function ZoomFrom(deltaY: real, f: Frame): real {
    if deltaY < 0.0 then f.height * 0.05 + f.height * 0.02 else f.height * 0.40 - f.height * 0.02
  }

  function ZoomWanted(delta: real, deltaY: real, f: Frame): real {
    delta - Sign(deltaY) * (f.height * 0.05)
  }

  function NotTooSmall(wanted: real, f: Frame): real {
    if wanted <= f.height * 0.05 then f.height * 0.05 else wanted
  }

  function ZoomTo(wanted: real, f: Frame): real {
    if NotTooSmall(wanted, f) >= f.height * 0.40 then f.height * 0.40 else NotTooSmall(wanted, f)
  }

  predicate ZoomEnds(wanted: real, f: Frame) {
    wanted <= f.height * 0.05 || NotTooSmall(wanted, f) >= f.height * 0.40
  }

  function ZoomStart(e: Engine, id: Id, deltaY: real, f: Frame): (r: Engine)
    requires Linked(e) && id in e.wheels
    ensures SameWheels(e, r)
  {
    if StateOf(e, id).pointer1.Some? then e
    else
      var delta := ZoomFrom(deltaY, f);
      Press(Press(SetDelta(e, id, delta), FirstOf(id), PinchStart(f, delta)), SecondOf(id), PinchEnd(f, delta))
  }

  function Pinch(e: Engine, id: Id, spot1: Spot, spot2: Spot): (r: Engine)
    requires Linked(e) && id in e.wheels
    ensures SameWheels(e, r)
  {
    Drag(Drag(e, FirstOf(id), spot1), SecondOf(id), spot2)
  }

  function Unpinch(e: Engine, id: Id, spot1: Spot, spot2: Spot): (r: Engine)
    requires Linked(e) && id in e.wheels
    ensures SameWheels(e, r)
  {
    Lift(Lift(e, FirstOf(id), spot1), SecondOf(id), spot2)
  }

  function ZoomOn(e: Engine, id: Id, deltaY: real, f: Frame): (r: Engine)
    requires Linked(e) && id in e.wheels
    ensures SameWheels(e, r)
  {
    var wanted := ZoomWanted(StateOf(e, id).delta, deltaY, f);
    var delta := ZoomTo(wanted, f);
    var spot1, spot2 := PinchStart(f, delta), PinchEnd(f, delta);
    var e1 := Pinch(SetDelta(e, id, delta), id, spot1, spot2);
    if ZoomEnds(wanted, f) then Unpinch(e1, id, spot1, spot2) else SetTimer(e1, id, true, spot1, spot2)
  }

  function OnWheel(e: Engine, m: Mapping, deltaY: real, f: Frame): (r: Engine)
    requires m.Wheel? && Linked(e)
    ensures Linked(r) && r.profile == e.profile
  {
    hide Ready, ScrollStart, ScrollOn, ZoomStart, ZoomOn;
    var e1 := Ready(e, m.id);
    var at := Scale(m.pos, f);
    match m.gesture
    case Scroll => ScrollOn(ScrollStart(e1, m.id, at, deltaY, f), m.id, at, deltaY, f)
    case Zoom => ZoomOn(ZoomStart(e1, m.id, deltaY, f), m.id, deltaY, f)
    case Neither => e1
  }

  function OnWheels(e: Engine, ms: seq<Mapping>, deltaY: real, f: Frame): (r: Engine)
    requires Linked(e)
    ensures Linked(r) && r.profile == e.profile
    decreases |ms|
  {
    hide OnWheel;
    if ms == [] then e
    else
      var before := OnWheels(e, ms[..|ms| - 1], deltaY, f);
      var m := ms[|ms| - 1];
      if m.Wheel? then OnWheel(before, m, deltaY, f) else before
  }

  /** Runs a pending timer's closure. */
  function Expire(e: Engine, t: nat): (r: Engine)
    requires t in e.timers && e.timers[t].wheel in e.states
    ensures SameWheels(e, r)
  {
    var timer := e.timers[t];
    var s := e.states[timer.wheel];
    var e1 := e.(timers := e.timers - {t});
    if s.pointer1.None? then e1
    else if timer.zoom then
      Send(Send(e1, Up, s.pointer1, timer.spot1), Up, s.pointer2, timer.spot2)
      .(states := e.states[timer.wheel := s.(pointer1 := None, pointer2 := None)])
    else
      Send(e1, Up, s.pointer1, timer.spot1).(states := e.states[timer.wheel := s.(pointer1 := None)])
  }

  // ---------------------------------------------------------------- release

  /** The order in which the engine's maps are walked. */
  datatype Walk = Walk(active: seq<Id>, joysticks: seq<Id>, wheels: seq<Id>)

  /** A walk visits every key once. */
  predicate Visits(s: seq<Id>, keys: set<Id>) {
    (forall i, j | 0 <= i < j < |s| :: s[i] != s[j]) && (set id | id in s) == keys
  }

  predicate Walks(w: Walk, e: Engine) {
    Visits(w.active, e.active.Keys) && Visits(w.joysticks, e.joysticks.Keys) && Visits(w.wheels, e.wheels.Keys)
  }

  function ReleaseActive(e: Engine, ids: seq<Id>): Engine
    decreases |ids|
  {
    if ids == [] then e else ReleaseActive(Lift(e, ActiveOf(ids[0]), ORIGIN), ids[1..])
  }

  function ReleaseStick(e: Engine, id: Id): Engine
    requires id in e.joysticks
  {
    var e1 := if e.joysticks[id].pointer.Some? then Lift(e, StickOf(id), ORIGIN) else e;
    e1.(joysticks := e1.joysticks[id := NO_STICK])
  }

  function ReleaseSticks(e: Engine, ids: seq<Id>): Engine
    requires forall i | 0 <= i < |ids| :: ids[i] in e.joysticks
    decreases |ids|
  {
    if ids == [] then e
    else
      var e1 := ReleaseStick(e, ids[0]);
      assert e1.joysticks.Keys == e.joysticks.Keys;
      ReleaseSticks(e1, ids[1..])
  }

  /** Clears a wheel's timer, lifts its pointers and drops the wheel; its state object is left as it was. */
  function ReleaseWheel(e: Engine, id: Id): (r: Engine)
    requires Linked(e) && id in e.wheels
    ensures Linked(r) && r.wheels == e.wheels - {id} && r.profile == e.profile
  {
    var s := StateOf(e, id);
    var e1 := if s.timeout.Some? then e.(timers := e.timers - {s.timeout.value}) else e;
    var e2 := if s.pointer1.Some? then Send(e1, Up, s.pointer1, ORIGIN) else e1;
    var e3 := if s.pointer2.Some? then Send(e2, Up, s.pointer2, ORIGIN) else e2;
    e3.(wheels := e.wheels - {id})
  }

  function ReleaseWheels(e: Engine, ids: seq<Id>): (r: Engine)
    requires Linked(e)
    requires forall i | 0 <= i < |ids| :: ids[i] in e.wheels
    requires forall i, j | 0 <= i < j < |ids| :: ids[i] != ids[j]
    ensures Linked(r) && r.profile == e.profile
    decreases |ids|
  {
    hide ReleaseWheel;
    if ids == [] then e else ReleaseWheels(ReleaseWheel(e, ids[0]), ids[1..])
  }

  lemma {:induction false} ReleaseActiveKeeps(e: Engine, ids: seq<Id>)
    ensures ReleaseActive(e, ids).joysticks == e.joysticks && ReleaseActive(e, ids).profile == e.profile
    ensures ReleaseActive(e, ids).wheels == e.wheels && ReleaseActive(e, ids).states == e.states
    decreases |ids|
  {
    if ids != [] { ReleaseActiveKeeps(Lift(e, ActiveOf(ids[0]), ORIGIN), ids[1..]); }
  }

  lemma {:induction false} ReleaseSticksKeeps(e: Engine, ids: seq<Id>)
    requires forall i | 0 <= i < |ids| :: ids[i] in e.joysticks
    ensures ReleaseSticks(e, ids).wheels == e.wheels && ReleaseSticks(e, ids).states == e.states
    ensures ReleaseSticks(e, ids).profile == e.profile
    decreases |ids|
  {
    if ids != [] {
      assert ReleaseStick(e, ids[0]).joysticks.Keys == e.joysticks.Keys;
      ReleaseSticksKeeps(ReleaseStick(e, ids[0]), ids[1..]);
    }
  }

  lemma {:induction false} SticksReleased(e: Engine, ids: seq<Id>)
    requires forall i | 0 <= i < |ids| :: ids[i] in e.joysticks
    ensures
      var r := ReleaseSticks(e, ids);
      r.joysticks.Keys == e.joysticks.Keys
      && forall id | id in e.joysticks :: r.joysticks[id] == if id in ids then NO_STICK else e.joysticks[id]
    decreases |ids|
  {
    if ids != [] {
      var e1 := ReleaseStick(e, ids[0]);
      assert e1.joysticks.Keys == e.joysticks.Keys;
      SticksReleased(e1, ids[1..]);
    }
  }

  lemma {:induction false} WheelsKeepSticks(e: Engine, ids: seq<Id>)
    requires Linked(e)
    requires (forall i | 0 <= i < |ids| :: ids[i] in e.wheels) && (forall i, j | 0 <= i < j < |ids| :: ids[i] != ids[j])
    ensures ReleaseWheels(e, ids).joysticks == e.joysticks
    decreases |ids|
  {
    if ids != [] { WheelsKeepSticks(ReleaseWheel(e, ids[0]), ids[1..]); }
  }

  function Release(e: Engine, w: Walk): (r: Engine)
    requires Linked(e) && Walks(w, e)
    ensures Linked(r) && r.profile == e.profile
  {
    hide ReleaseActive, ReleaseSticks, ReleaseWheels;
    var e1 := ReleaseActive(e, w.active);
    ReleaseActiveKeeps(e, w.active);
    var e2 := ReleaseSticks(e1, w.joysticks);
    ReleaseSticksKeeps(e1, w.joysticks);
    ReleaseWheels(e2, w.wheels)
  }

  lemma {:induction false} ActiveReleased(e: Engine, ids: seq<Id>)
    requires forall id | id in e.active :: id in ids
    ensures ReleaseActive(e, ids).active == map[]
    decreases |ids|
  {
    if ids == [] {
      assert e.active.Keys == {};
    } else {
      ActiveReleased(Lift(e, ActiveOf(ids[0]), ORIGIN), ids[1..]);
    }
  }

  lemma {:induction false} WheelsReleased(e: Engine, ids: seq<Id>)
    requires Linked(e) && forall id | id in e.wheels :: id in ids
    requires (forall i | 0 <= i < |ids| :: ids[i] in e.wheels) && (forall i, j | 0 <= i < j < |ids| :: ids[i] != ids[j])
    ensures ReleaseWheels(e, ids).wheels == map[] && ReleaseWheels(e, ids).active == e.active
    decreases |ids|
  {
    hide StateOf;
    if ids == [] {
      assert e.wheels.Keys == {};
    } else {
      WheelsReleased(ReleaseWheel(e, ids[0]), ids[1..]);
    }
  }

  lemma SticksKeepActive(e: Engine, ids: seq<Id>)
    requires forall i | 0 <= i < |ids| :: ids[i] in e.joysticks
    ensures ReleaseSticks(e, ids).active == e.active
    decreases |ids|
  {
    if ids != [] {
      assert ReleaseStick(e, ids[0]).joysticks.Keys == e.joysticks.Keys;
      SticksKeepActive(ReleaseStick(e, ids[0]), ids[1..]);
    }
  }

  /** What a release leaves: no tap, no wheel, and every stick in its middle without a pointer. */
  lemma ReleaseShape(e: Engine, w: Walk)
    requires Linked(e) && Walks(w, e)
    ensures
      var r := Release(e, w);
      r.active == map[] && r.wheels == map[] && forall id | id in r.joysticks :: r.joysticks[id] == NO_STICK
  {
    hide ReleaseActive, ReleaseSticks, ReleaseWheels;
    Visited(w.active, e.active.Keys);
    Visited(w.joysticks, e.joysticks.Keys);
    Visited(w.wheels, e.wheels.Keys);
    var e1 := ReleaseActive(e, w.active);
    ReleaseActiveKeeps(e, w.active);
    ActiveReleased(e, w.active);
    ReleaseSticksKeeps(e1, w.joysticks);
    SticksReleased(e1, w.joysticks);
    SticksKeepActive(e1, w.joysticks);
    WheelsKeepSticks(ReleaseSticks(e1, w.joysticks), w.wheels);
    WheelsReleased(ReleaseSticks(e1, w.joysticks), w.wheels);
  }

  lemma Visited(ids: seq<Id>, keys: set<Id>)
    requires Visits(ids, keys)
    ensures (forall i | 0 <= i < |ids| :: ids[i] in keys) && forall id | id in keys :: id in ids
  {
  }

  // ---------------------------------------------------------------- runs

  datatype Event =
    | Key(press: KeyPress)
    | Turn(deltaY: real, frame: Frame)
    | Paint(i: nat, now: real)
    | Timeout(t: nat)
    | Update(profile: Option<seq<Mapping>>, walk: Walk)
    | ReleaseAll(walk: Walk)

  /** One event; a callback that is not pending, or a walk of other keys, is no event. */
  function Step(e: Engine, event: Event): (r: Engine)
    requires Linked(e)
    ensures Linked(r)
  {
    hide OnKeys, OnWheels, Animate, Expire, Release;
    match event
    case Key(k) => if e.profile.Some? then OnKeys(e, e.profile.value, k) else e
    case Turn(deltaY, f) => if e.profile.Some? then OnWheels(e, e.profile.value, deltaY, f) else e
    case Paint(i, now) => if i < |e.strokes| then Animate(e, i, now) else e
    case Timeout(t) => if t in e.timers && e.timers[t].wheel in e.states then Expire(e, t) else e
    case Update(p, w) => if Walks(w, e) then Release(e.(profile := p), w) else e
    case ReleaseAll(w) => if Walks(w, e) then Release(e, w) else e
  }

  function Run(e: Engine, events: seq<Event>): (r: Engine)
    requires Linked(e)
    ensures Linked(r)
  {
    hide Step;
    if events == [] then e else Step(Run(e, events[..|events| - 1]), events[|events| - 1])
  }
}

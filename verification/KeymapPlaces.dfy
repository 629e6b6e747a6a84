/** Where the keymap engine's touches land: inside the frame, on a stick's edge, or outside a narrow frame. */
module KeymapPlaces {
  import opened Wrappers
  import opened TouchTrace
  import opened KeymapModel

  predicate Within(p: Spot, f: Frame) {
    0.0 <= p.x <= f.width && 0.0 <= p.y <= f.height
  }

  /** A place given in proportions of the frame. */
  predicate Proportional(p: Spot) {
    0.0 <= p.x <= 1.0 && 0.0 <= p.y <= 1.0
  }

  lemma PartOf(a: real, w: real)
    requires 0.0 <= a <= 1.0 && 0.0 <= w
    ensures 0.0 <= a * w <= w
  {
    NotNegative(a, w);
    NotNegative(1.0 - a, w);
    assert (1.0 - a) * w == w - a * w;
  }

  lemma NotNegative(a: real, b: real)
    requires 0.0 <= a && 0.0 <= b
    ensures 0.0 <= a * b
  {
  }

  lemma ScaledX(p: Spot, f: Frame)
    requires 0.0 <= p.x <= 1.0 && 0.0 <= f.width
    ensures 0.0 <= Scale(p, f).x <= f.width
  {
    PartOf(p.x, f.width);
    var x := Scale(p, f).x;
    assert x == p.x * f.width;
  }

  lemma ScaledY(p: Spot, f: Frame)
    requires 0.0 <= p.y <= 1.0 && 0.0 <= f.height
    ensures 0.0 <= Scale(p, f).y <= f.height
  {
    PartOf(p.y, f.height);
    var y := Scale(p, f).y;
    assert y == p.y * f.height;
  }

  lemma ScaledWithin(p: Spot, f: Frame)
    requires Proportional(p) && 0.0 <= f.width && 0.0 <= f.height
    ensures Within(Scale(p, f), f)
  {
    hide Scale;
    ScaledX(p, f);
    ScaledY(p, f);
  }

  lemma BetweenEnds(a: real, b: real, p: real, w: real)
    requires 0.0 <= a <= w && 0.0 <= b <= w && 0.0 <= p <= 1.0
    ensures 0.0 <= a + (b - a) * p <= w
  {
    var d := b - a;
    var part := d * p;
    if a <= b { Onward(a, d, p); } else { Back(a, -d, d, p); }
    assert 0.0 <= a + part <= w;
  }

  lemma Onward(a: real, d: real, p: real)
    requires 0.0 <= d && 0.0 <= p <= 1.0
    ensures a <= a + d * p <= a + d
  {
    PartOf(p, d);
  }

  lemma Back(a: real, d: real, e: real, p: real)
    requires 0.0 <= d && 0.0 <= p <= 1.0 && e == -d
    ensures a - d <= a + e * p <= a
  {
    PartOf(p, d);
    assert e * p == -(p * d);
  }

  // ---------------------------------------------------------------- where sticks put their fingers

  /** A stick is tilted only in directions that have a key of their own; one key can stand for several directions. */
  predicate HasKey(keys: Keys, d: Toward) {
    DirectionOf(keys, Lower(KeyOf(keys, d))) == Some(d)
  }

  function KeyOf(keys: Keys, d: Toward): string {
    match d
    case Upward => keys.up
    case Downward => keys.down
    case Leftward => keys.left
    case Rightward => keys.right
  }

  /** The point of a stick's edge in one direction lies in the frame. */
  predicate EdgeFits(m: Mapping, d: Toward, f: Frame)
    requires m.Joystick?
  {
    var c, radius := Scale(m.center, f), RadiusOf(m, f);
    match d
    case Upward => 0.0 <= c.y - radius <= f.height
    case Downward => 0.0 <= c.y + radius <= f.height
    case Leftward => 0.0 <= c.x - radius <= f.width
    case Rightward => 0.0 <= c.x + radius <= f.width
  }

  /** The middle of a stick lies in the frame, and its edge wherever its keys take it. */
  predicate StickFits(m: Mapping, f: Frame)
    requires m.Joystick?
  {
    Within(Scale(m.center, f), f) && forall d | HasKey(m.keys, d) :: EdgeFits(m, d, f)
  }

  /** Sticks that share an id share its direction keys. */
  predicate SticksFit(ms: seq<Mapping>, f: Frame) {
    forall m, n, d | m in ms && n in ms && m.Joystick? && n.Joystick? && m.id == n.id && HasKey(n.keys, d) ::
      EdgeFits(m, d, f)
  }

  predicate Tilted(s: Stick, d: Toward) {
    match d
    case Upward => s.up
    case Downward => s.down
    case Leftward => s.left
    case Rightward => s.right
  }

  predicate Steers(profile: Option<seq<Mapping>>, id: Id, d: Toward) {
    profile.Some? && exists n :: n in profile.value && n.Joystick? && n.id == id && HasKey(n.keys, d)
  }

  /** Every stick is tilted only as some mapping of its id can tilt it. */
  predicate Steered(e: Engine) {
    forall id, d | id in e.joysticks && Tilted(e.joysticks[id], d) :: Steers(e.profile, id, d)
  }

  /** Along one side: the middle, or a part of the way to the end that is reached. */
  lemma SideWithin(c: real, a: real, n: real, radius: real, w: real)
    requires a == 0.0 || a == 1.0 || a == -1.0
    requires n == 1.0 || n == ROOT_TWO
    requires 0.0 <= c <= w && (a == 1.0 ==> 0.0 <= c + radius <= w) && (a == -1.0 ==> 0.0 <= c - radius <= w)
    ensures 0.0 <= c + a / n * radius <= w
  {
    if a == 1.0 {
      BetweenEnds(c, c + radius, 1.0 / n, w);
      assert a / n * radius == (c + radius - c) * (1.0 / n);
    } else if a == -1.0 {
      BetweenEnds(c, c - radius, 1.0 / n, w);
      assert a / n * radius == (c - radius - c) * (1.0 / n);
    }
  }

  lemma TiltFits(m: Mapping, s: Stick, f: Frame)
    requires m.Joystick? && forall d | Tilted(s, d) :: EdgeFits(m, d, f)
    ensures
      var c, radius := Scale(m.center, f), RadiusOf(m, f);
      && (Across(s) == 1.0 ==> 0.0 <= c.x + radius <= f.width) && (Across(s) == -1.0 ==> 0.0 <= c.x - radius <= f.width)
      && (Along(s) == 1.0 ==> 0.0 <= c.y + radius <= f.height) && (Along(s) == -1.0 ==> 0.0 <= c.y - radius <= f.height)
  {
    hide Scale, RadiusOf;
    if s.left { assert EdgeFits(m, Leftward, f); }
    if s.right { assert EdgeFits(m, Rightward, f); }
    if s.up { assert EdgeFits(m, Upward, f); }
    if s.down { assert EdgeFits(m, Downward, f); }
  }

  lemma Components(s: Stick)
    ensures Across(s) == 0.0 || Across(s) == 1.0 || Across(s) == -1.0
    ensures Along(s) == 0.0 || Along(s) == 1.0 || Along(s) == -1.0
    ensures Length(Across(s), Along(s)) == 1.0 || Length(Across(s), Along(s)) == ROOT_TWO
  {
  }

  /** The finger of a tilted stick lies in the frame when the points of the edge it is tilted to do. */
  lemma EdgeWithin(m: Mapping, s: Stick, f: Frame)
    requires m.Joystick? && Within(Scale(m.center, f), f) && forall d | Tilted(s, d) :: EdgeFits(m, d, f)
    ensures Within(EdgeOf(m, s, f), f)
  {
    hide Scale, EdgeFits, RadiusOf, Tilted, Across, Along, Length;
    Components(s);
    var c, radius, n := Scale(m.center, f), RadiusOf(m, f), Length(Across(s), Along(s));
    TiltFits(m, s, f);
    SideWithin(c.x, Across(s), n, radius, f.width);
    SideWithin(c.y, Along(s), n, radius, f.height);
  }

  // ---------------------------------------------------------------- taps, swipes, sticks, scrolls and zooms

  /** A frame in which the widest pinch of a zoom, at 45 degrees, still fits. */
  predicate WideEnough(f: Frame) {
    f.height * 0.80 * HALF_ROOT_TWO <= f.width
  }

  /** A mapping whose own places lie in a frame: zooms only in a wide one, and a swipe takes time. */
  predicate Tame(m: Mapping, f: Frame) {
    match m
    case Tap(_, _, pos) => Proportional(pos)
    case Swipe(_, _, start, end, duration) => Proportional(start) && Proportional(end) && 0.0 <= duration
    case Wheel(_, gesture, pos) => if gesture.Zoom? then WideEnough(f) else Proportional(pos)
    case Joystick(_, _, center, _) => Within(Scale(center, f), f)
    case _ => true
  }

  predicate TameProfile(profile: Option<seq<Mapping>>, f: Frame) {
    profile.Some? ==> (forall m | m in profile.value :: Tame(m, f)) && SticksFit(profile.value, f)
  }

  predicate StrokeFits(s: Stroke, f: Frame, now: real) {
    Within(s.start, f) && Within(s.end, f) && 0.0 < s.duration && s.startTime <= now
  }

  predicate AllWithin(t: seq<Touch>, f: Frame) {
    forall k | 0 <= k < |t| :: Within(Spot(t[k].x, t[k].y), f)
  }

  /** What was sent, and what pending callbacks may still send, lies in the frame; swipes began in the past. */
  predicate Framed(e: Engine, f: Frame, now: real) {
    && AllWithin(e.sent, f)
    && (forall k | 0 <= k < |e.strokes| :: StrokeFits(e.strokes[k], f, now))
    && (forall t | t in e.timers :: Within(e.timers[t].spot1, f) && Within(e.timers[t].spot2, f))
  }

  lemma SentWithin(e: Engine, r: Engine, touch: Touch, f: Frame, now: real)
    requires Framed(e, f, now) && Within(Spot(touch.x, touch.y), f)
    requires r.sent == e.sent + [touch] && r.strokes == e.strokes && r.timers == e.timers
    ensures Framed(r, f, now)
  {
  }

  lemma PressFramed(e: Engine, o: Owner, at: Spot, f: Frame, now: real)
    requires Framed(e, f, now) && Exists(e, o) && Within(at, f)
    ensures Framed(Press(e, o, at), f, now) && Framed(Lift(e, o, at), f, now)
  {
    hide Framed, Within;
    SentWithin(e, Press(e, o, at), Touch(Down, Some(e.base), at.x, at.y), f, now);
    SentWithin(e, Lift(e, o, at), Touch(Up, PointerOf(e, o), at.x, at.y), f, now);
  }

  lemma DragFramed(e: Engine, o: Owner, at: Spot, f: Frame, now: real)
    requires Framed(e, f, now) && Within(at, f)
    ensures Framed(Drag(e, o, at), f, now)
  {
    hide Framed, Within;
    SentWithin(e, Drag(e, o, at), Touch(Move, PointerOf(e, o), at.x, at.y), f, now);
  }

  /** Changes of what is not sent and not pending. */
  lemma StillFramed(e: Engine, r: Engine, f: Frame, now: real)
    requires Framed(e, f, now) && r.sent == e.sent && r.strokes == e.strokes
    requires r.timers.Keys <= e.timers.Keys && forall t | t in r.timers :: r.timers[t] == e.timers[t]
    ensures Framed(r, f, now)
  {
  }

  lemma SwipeFramed(e: Engine, m: Mapping, isDown: bool, f: Frame, now: real)
    requires Framed(e, f, now) && m.Swipe? && Tame(m, f) && 0.0 <= f.width && 0.0 <= f.height
    ensures Framed(OnSwipe(e, m, isDown, f, now), f, now)
  {
    hide Within, AllWithin, Press, Lift, Proportional;
    ScaledWithin(m.startPos, f);
    ScaledWithin(m.endPos, f);
    if isDown != (m.id in e.active) {
      var at := if isDown then Scale(m.startPos, f) else Scale(m.endPos, f);
      PressFramed(e, ActiveOf(m.id), at, f, now);
    }
  }

  /** A stick's finger goes down in its middle, along its edge, and up in its middle. */
  lemma FollowFramed(e: Engine, id: Id, center: Spot, edge: Spot, f: Frame, now: real)
    requires Framed(e, f, now) && id in e.joysticks && Within(center, f) && Within(edge, f)
    ensures Framed(Follow(e, id, center, edge), f, now)
  {
    hide Framed, Press, Lift, Drag, Within, Neutral;
    PressFramed(e, StickOf(id), center, f, now);
    DragFramed(e, StickOf(id), edge, f, now);
    DragFramed(Press(e, StickOf(id), center), StickOf(id), edge, f, now);
  }

  lemma SticksMember(ms: seq<Mapping>, m: Mapping, d: Toward, f: Frame)
    requires SticksFit(ms, f) && m in ms && m.Joystick? && Steers(Some(ms), m.id, d)
    ensures EdgeFits(m, d, f)
  {
    hide HasKey, EdgeFits;
  }

  /** The stick after a key of one of its id's mappings. */
  lemma PushedSteered(e: Engine, m: Mapping, d: Toward, isDown: bool)
    requires Steered(e) && m.Joystick? && Steers(e.profile, m.id, d)
    ensures
      var stick := Pushed(if m.id in e.joysticks then e.joysticks[m.id] else NO_STICK, d, isDown);
      && Steered(e.(joysticks := e.joysticks[m.id := stick]))
      && forall d' | Tilted(stick, d') :: Steers(e.profile, m.id, d')
  {
    hide Steers;
    var before := if m.id in e.joysticks then e.joysticks[m.id] else NO_STICK;
    forall d' | Tilted(Pushed(before, d, isDown), d') ensures Steers(e.profile, m.id, d') {
      assert d' == d || Tilted(before, d');
    }
  }

  lemma StickFramed(e: Engine, m: Mapping, d: Toward, isDown: bool, f: Frame, now: real)
    requires Framed(e, f, now) && Steered(e) && m.Joystick? && Within(Scale(m.center, f), f)
    requires e.profile.Some? && m in e.profile.value && SticksFit(e.profile.value, f) && HasKey(m.keys, d)
    ensures Framed(OnStick(e, m, d, isDown, f), f, now) && Steered(OnStick(e, m, d, isDown, f))
  {
    hide Framed, Steered, Follow, Within, EdgeOf, EdgeFits, HasKey, SticksFit, Pushed, Tilted, Scale;
    PushedSteered(e, m, d, isDown);
    var stick := Pushed(if m.id in e.joysticks then e.joysticks[m.id] else NO_STICK, d, isDown);
    forall d' | Tilted(stick, d') ensures EdgeFits(m, d', f) { SticksMember(e.profile.value, m, d', f); }
    EdgeWithin(m, stick, f);
    var e1 := e.(joysticks := e.joysticks[m.id := stick]);
    StillFramed(e, e1, f, now);
    FollowFramed(e1, m.id, Scale(m.center, f), EdgeOf(m, stick, f), f, now);
    FollowSteered(e1, m.id, Scale(m.center, f), EdgeOf(m, stick, f));
  }

  lemma FollowSteered(e: Engine, id: Id, center: Spot, edge: Spot)
    requires Steered(e) && id in e.joysticks
    ensures Steered(Follow(e, id, center, edge))
  {
    hide Steers;
    var r := Follow(e, id, center, edge);
    forall i, d | i in r.joysticks && Tilted(r.joysticks[i], d) ensures Steers(r.profile, i, d) {
      assert Tilted(e.joysticks[i], d);
    }
  }

  lemma SameSteered(e: Engine, r: Engine)
    requires Steered(e) && r.joysticks == e.joysticks && r.profile == e.profile
    ensures Steered(r)
  {
  }

  lemma TapKeepsSticks(e: Engine, id: Id, at: Spot, isDown: bool)
    ensures OnTap(e, id, at, isDown).joysticks == e.joysticks
  {
  }

  lemma SwipeKeepsSticks(e: Engine, m: Mapping, isDown: bool, f: Frame, now: real)
    requires m.Swipe?
    ensures OnSwipe(e, m, isDown, f, now).joysticks == e.joysticks
  {
    hide Scale;
  }

  lemma DirectionHasKey(keys: Keys, key: string)
    requires DirectionOf(keys, key).Some?
    ensures HasKey(keys, DirectionOf(keys, key).value)
  {
    hide Lower;
  }

  lemma KeyFramed(e: Engine, m: Mapping, k: KeyPress)
    requires Framed(e, k.frame, k.now) && Tame(m, k.frame) && 0.0 <= k.frame.width && 0.0 <= k.frame.height
    requires Steered(e) && e.profile.Some? && m in e.profile.value && SticksFit(e.profile.value, k.frame)
    ensures Framed(OnKey(e, m, k), k.frame, k.now) && Steered(OnKey(e, m, k))
  {
    hide Framed, Steered, Press, Lift, OnSwipe, OnTap, OnStick, Within, HasKey, SticksFit, DirectionOf;
    if Answers(m, Lower(k.key)) && !k.repeat {
      match m
      case Tap(id, _, pos) =>
        TapFramed(e, id, pos, k.isDown, k.frame, k.now);
        TapKeepsSticks(e, id, Scale(pos, k.frame), k.isDown);
        SameSteered(e, OnTap(e, id, Scale(pos, k.frame), k.isDown));
      case Command(_, cmd) =>
        StillFramed(e, e.(commands := e.commands + [cmd]), k.frame, k.now);
        SameSteered(e, e.(commands := e.commands + [cmd]));
      case Swipe(_, _, _, _, _) =>
        SwipeFramed(e, m, k.isDown, k.frame, k.now);
        SwipeKeepsSticks(e, m, k.isDown, k.frame, k.now);
        SameSteered(e, OnSwipe(e, m, k.isDown, k.frame, k.now));
      case Joystick(_, keys, _, _) =>
        DirectionHasKey(keys, Lower(k.key));
        StickFramed(e, m, DirectionOf(keys, Lower(k.key)).value, k.isDown, k.frame, k.now);
      case _ =>
    }
  }

  lemma TapFramed(e: Engine, id: Id, pos: Spot, isDown: bool, f: Frame, now: real)
    requires Framed(e, f, now) && Proportional(pos) && 0.0 <= f.width && 0.0 <= f.height
    ensures Framed(OnTap(e, id, Scale(pos, f), isDown), f, now)
  {
    hide Framed, Press, Lift, Within, Scale;
    ScaledWithin(pos, f);
    if isDown != (id in e.active) { PressFramed(e, ActiveOf(id), Scale(pos, f), f, now); }
  }

  lemma {:induction false} KeysFramed(e: Engine, ms: seq<Mapping>, k: KeyPress)
    requires Framed(e, k.frame, k.now) && TameProfile(e.profile, k.frame)
    requires 0.0 <= k.frame.width && 0.0 <= k.frame.height
    requires Steered(e) && e.profile.Some? && forall m | m in ms :: m in e.profile.value
    ensures Framed(OnKeys(e, ms, k), k.frame, k.now) && Steered(OnKeys(e, ms, k))
  {
    hide Framed, Steered, Tame, SticksFit, OnKey;
    if ms != [] {
      KeysFramed(e, ms[..|ms| - 1], k);
      KeyFramed(OnKeys(e, ms[..|ms| - 1], k), ms[|ms| - 1], k);
    }
  }

  lemma ProgressBounds(s: Stroke, f: Frame, now: real)
    requires StrokeFits(s, f, now)
    ensures 0.0 <= Progress(s, now) <= 1.0
  {
    assert (now - s.startTime) / s.duration >= 0.0;
  }

  /** A swipe's finger stays on the line between its two ends. */
  lemma BetweenWithin(s: Stroke, f: Frame, now: real)
    requires StrokeFits(s, f, now)
    ensures Within(Between(s, Progress(s, now)), f)
  {
    hide Progress;
    ProgressBounds(s, f, now);
    BetweenEnds(s.start.x, s.end.x, Progress(s, now), f.width);
    BetweenEnds(s.start.y, s.end.y, Progress(s, now), f.height);
  }

  lemma PaintFramed(e: Engine, i: nat, f: Frame, now: real)
    requires Framed(e, f, now) && i < |e.strokes|
    ensures Framed(Animate(e, i, now), f, now)
  {
    hide Within, AllWithin, Between, Progress, Drag;
    var s := e.strokes[i];
    var e1 := e.(strokes := e.strokes[..i] + e.strokes[i + 1..]);
    BetweenWithin(s, f, now);
    DragFramed(e1, ActiveOf(s.id), Between(s, Progress(s, now)), f, now);
    DragKeepsRest(e1, ActiveOf(s.id), Between(s, Progress(s, now)));
  }

  lemma DragKeepsRest(e: Engine, o: Owner, at: Spot)
    ensures Drag(e, o, at).strokes == e.strokes && Drag(e, o, at).timers == e.timers
  {
  }

  lemma ClampedWithin(at: Spot, delta: real, f: Frame)
    requires 0.0 <= at.x <= f.width && 0.0 <= f.height
    ensures Within(Inside(at, delta, f), f)
  {
  }

  lemma ScrollStartFramed(e: Engine, id: Id, at: Spot, deltaY: real, f: Frame, now: real)
    requires Framed(e, f, now) && Linked(e) && id in e.wheels && Within(at, f)
    ensures Framed(ScrollStart(e, id, at, deltaY, f), f, now)
  {
    hide Framed, Press, Inside, ScrollFrom;
    if StateOf(e, id).pointer1.None? {
      var delta := ScrollFrom(deltaY, f);
      StillFramed(e, SetDelta(e, id, delta), f, now);
      ClampedWithin(at, delta, f);
      PressFramed(SetDelta(e, id, delta), FirstOf(id), Inside(at, delta, f), f, now);
    }
  }

  /** A scroll that goes on is strictly between the frame's edges. */
  lemma ScrollOnFramed(e: Engine, id: Id, at: Spot, deltaY: real, f: Frame, now: real)
    requires Framed(e, f, now) && Linked(e) && id in e.wheels && Within(at, f)
    ensures Framed(ScrollOn(e, id, at, deltaY, f), f, now)
  {
    hide AllWithin, Drag, Lift, Inside, ScrollTo, Abs, StrokeFits;
    var delta := ScrollTo(StateOf(e, id).delta, deltaY, f);
    var e1 := SetDelta(e, id, delta);
    StillFramed(e, e1, f, now);
    var spot := if ScrollEnds(at, delta, f) then Inside(at, delta, f) else Spot(at.x, at.y + delta);
    ClampedWithin(at, delta, f);
    var e2 := Drag(e1, FirstOf(id), spot);
    DragFramed(e1, FirstOf(id), spot, f, now);
    if ScrollEnds(at, delta, f) { PressFramed(e2, FirstOf(id), spot, f, now); }
  }

  /** Both ends of a pinch are in the frame. */
  predicate PinchFits(f: Frame, radius: real) {
    Within(PinchStart(f, radius), f) && Within(PinchEnd(f, radius), f)
  }

  /** A pinch of some radius lies in the frame exactly when its diagonal does. */
  lemma PinchInside(f: Frame, radius: real)
    requires 0.0 <= radius
    ensures PinchFits(f, radius) <==>
      2.0 * radius * HALF_ROOT_TWO <= f.width && 2.0 * radius * HALF_ROOT_TWO <= f.height
  {
  }

  /** A zoom keeps its radius between the two limits. */
  lemma ZoomRadius(wanted: real, f: Frame)
    requires 0.0 <= f.height
    ensures f.height * 0.05 <= ZoomTo(wanted, f) <= f.height * 0.40
  {
  }

  lemma ZoomStartRadius(deltaY: real, f: Frame)
    requires 0.0 <= f.height
    ensures f.height * 0.05 <= ZoomFrom(deltaY, f) <= f.height * 0.40
  {
  }

  lemma RadiusFits(f: Frame, radius: real)
    requires WideEnough(f) && 0.0 <= f.height && f.height * 0.05 <= radius <= f.height * 0.40
    ensures PinchFits(f, radius)
  {
    PinchInside(f, radius);
  }

  lemma ZoomStartFramed(e: Engine, id: Id, deltaY: real, f: Frame, now: real)
    requires Framed(e, f, now) && Linked(e) && id in e.wheels && WideEnough(f) && 0.0 <= f.height
    ensures Framed(ZoomStart(e, id, deltaY, f), f, now)
  {
    hide Framed, Press, PinchStart, PinchEnd, ZoomFrom, WideEnough, Within;
    if StateOf(e, id).pointer1.None? {
      var delta := ZoomFrom(deltaY, f);
      ZoomStartRadius(deltaY, f);
      RadiusFits(f, delta);
      var e1 := SetDelta(e, id, delta);
      StillFramed(e, e1, f, now);
      PressFramed(e1, FirstOf(id), PinchStart(f, delta), f, now);
      PressFramed(Press(e1, FirstOf(id), PinchStart(f, delta)), SecondOf(id), PinchEnd(f, delta), f, now);
    }
  }

  lemma TimerFramed(e: Engine, id: Id, zoom: bool, spot1: Spot, spot2: Spot, f: Frame, now: real)
    requires Framed(e, f, now) && Linked(e) && id in e.wheels && Within(spot1, f) && Within(spot2, f)
    ensures Framed(SetTimer(e, id, zoom, spot1, spot2), f, now)
  {
    hide Within, StrokeFits;
  }

  lemma ZoomOnFramed(e: Engine, id: Id, deltaY: real, f: Frame, now: real)
    requires Framed(e, f, now) && Linked(e) && id in e.wheels && WideEnough(f) && 0.0 <= f.height
    ensures Framed(ZoomOn(e, id, deltaY, f), f, now)
  {
    hide Framed, Drag, Lift, SetTimer, PinchStart, PinchEnd, ZoomWanted, ZoomTo, ZoomEnds, WideEnough, Within;
    var wanted := ZoomWanted(StateOf(e, id).delta, deltaY, f);
    var delta := ZoomTo(wanted, f);
    ZoomRadius(wanted, f);
    RadiusFits(f, delta);
    var spot1, spot2 := PinchStart(f, delta), PinchEnd(f, delta);
    var e1 := SetDelta(e, id, delta);
    StillFramed(e, e1, f, now);
    DragFramed(e1, FirstOf(id), spot1, f, now);
    var e2 := Drag(e1, FirstOf(id), spot1);
    DragFramed(e2, SecondOf(id), spot2, f, now);
    var e3 := Drag(e2, SecondOf(id), spot2);
    if ZoomEnds(wanted, f) {
      PressFramed(e3, FirstOf(id), spot1, f, now);
      PressFramed(Lift(e3, FirstOf(id), spot1), SecondOf(id), spot2, f, now);
    } else {
      TimerFramed(e3, id, true, spot1, spot2, f, now);
    }
  }

  lemma WheelFramed(e: Engine, m: Mapping, deltaY: real, f: Frame, now: real)
    requires Framed(e, f, now) && Linked(e) && m.Wheel? && Tame(m, f) && 0.0 <= f.width && 0.0 <= f.height
    ensures Framed(OnWheel(e, m, deltaY, f), f, now)
  {
    hide Framed, ScrollStart, ScrollOn, ZoomStart, ZoomOn, Within;
    var at := Scale(m.pos, f);
    StillFramed(e, Ready(e, m.id), f, now);
    if m.gesture.Zoom? {
      ZoomStartFramed(Ready(e, m.id), m.id, deltaY, f, now);
      ZoomOnFramed(ZoomStart(Ready(e, m.id), m.id, deltaY, f), m.id, deltaY, f, now);
    } else if m.gesture.Scroll? {
      ScaledWithin(m.pos, f);
      ScrollStartFramed(Ready(e, m.id), m.id, at, deltaY, f, now);
      ScrollOnFramed(ScrollStart(Ready(e, m.id), m.id, at, deltaY, f), m.id, at, deltaY, f, now);
    }
  }

  lemma {:induction false} WheelsFramed(e: Engine, ms: seq<Mapping>, deltaY: real, f: Frame, now: real)
    requires Framed(e, f, now) && Linked(e) && (forall m | m in ms :: Tame(m, f)) && 0.0 <= f.width && 0.0 <= f.height
    ensures Framed(OnWheels(e, ms, deltaY, f), f, now)
  {
    hide Framed, Tame, OnWheel;
    if ms != [] {
      WheelsFramed(e, ms[..|ms| - 1], deltaY, f, now);
      if ms[|ms| - 1].Wheel? { WheelFramed(OnWheels(e, ms[..|ms| - 1], deltaY, f), ms[|ms| - 1], deltaY, f, now); }
    }
  }

  lemma ExpireFramed(e: Engine, t: nat, f: Frame, now: real)
    requires Framed(e, f, now) && t in e.timers && e.timers[t].wheel in e.states
    ensures Framed(Expire(e, t), f, now)
  {
    hide Within, StrokeFits;
  }

  // ---------------------------------------------------------------- releases lift at the origin

  lemma {:induction false} ReleaseActiveFramed(e: Engine, ids: seq<Id>, f: Frame, now: real)
    requires Framed(e, f, now) && Within(ORIGIN, f)
    ensures Framed(ReleaseActive(e, ids), f, now)
    decreases |ids|
  {
    hide Framed, Lift, Within;
    if ids != [] {
      PressFramed(e, ActiveOf(ids[0]), ORIGIN, f, now);
      ReleaseActiveFramed(Lift(e, ActiveOf(ids[0]), ORIGIN), ids[1..], f, now);
    }
  }

  lemma {:induction false} ReleaseSticksFramed(e: Engine, ids: seq<Id>, f: Frame, now: real)
    requires Framed(e, f, now) && Within(ORIGIN, f) && forall i | 0 <= i < |ids| :: ids[i] in e.joysticks
    ensures Framed(ReleaseSticks(e, ids), f, now)
    decreases |ids|
  {
    hide Framed, Within;
    if ids != [] {
      PressFramed(e, StickOf(ids[0]), ORIGIN, f, now);
      var e1 := if e.joysticks[ids[0]].pointer.Some? then Lift(e, StickOf(ids[0]), ORIGIN) else e;
      StillFramed(e1, ReleaseStick(e, ids[0]), f, now);
      assert ReleaseStick(e, ids[0]).joysticks.Keys == e.joysticks.Keys;
      ReleaseSticksFramed(ReleaseStick(e, ids[0]), ids[1..], f, now);
    }
  }

  /** After a release no stick is tilted. */
  lemma ReleaseSteered(e: Engine, w: Walk)
    requires Linked(e) && Walks(w, e)
    ensures Steered(Release(e, w))
  {
    hide Release, Steers;
    ReleaseShape(e, w);
  }

  /** Wheels, timers and callbacks leave sticks alone. */
  lemma {:induction false} TurnKeepsSticks(e: Engine, ms: seq<Mapping>, deltaY: real, f: Frame)
    requires Linked(e)
    ensures OnWheels(e, ms, deltaY, f).joysticks == e.joysticks
  {
    hide OnWheel;
    if ms != [] {
      TurnKeepsSticks(e, ms[..|ms| - 1], deltaY, f);
      if ms[|ms| - 1].Wheel? { WheelKeepsSticks(OnWheels(e, ms[..|ms| - 1], deltaY, f), ms[|ms| - 1], deltaY, f); }
    }
  }

  lemma WheelKeepsSticks(e: Engine, m: Mapping, deltaY: real, f: Frame)
    requires Linked(e) && m.Wheel?
    ensures OnWheel(e, m, deltaY, f).joysticks == e.joysticks
  {
    hide Ready, ScrollStart, ScrollOn, ZoomStart, ZoomOn, Scale;
    var e1, at := Ready(e, m.id), Scale(m.pos, f);
    ReadyKeepsSticks(e, m.id);
    ScrollKeepsSticks(e1, m.id, at, deltaY, f);
    ScrollKeepsSticks(ScrollStart(e1, m.id, at, deltaY, f), m.id, at, deltaY, f);
    ZoomKeepsSticks(e1, m.id, deltaY, f);
    ZoomKeepsSticks(ZoomStart(e1, m.id, deltaY, f), m.id, deltaY, f);
  }

  lemma ReadyKeepsSticks(e: Engine, id: Id)
    requires Linked(e)
    ensures Ready(e, id).joysticks == e.joysticks
  {
  }

  lemma ScrollKeepsSticks(e: Engine, id: Id, at: Spot, deltaY: real, f: Frame)
    requires Linked(e) && id in e.wheels
    ensures ScrollStart(e, id, at, deltaY, f).joysticks == e.joysticks
    ensures ScrollOn(e, id, at, deltaY, f).joysticks == e.joysticks
  {
    hide ScrollFrom, ScrollTo, ScrollEnds, Inside;
  }

  lemma ZoomKeepsSticks(e: Engine, id: Id, deltaY: real, f: Frame)
    requires Linked(e) && id in e.wheels
    ensures ZoomStart(e, id, deltaY, f).joysticks == e.joysticks
    ensures ZoomOn(e, id, deltaY, f).joysticks == e.joysticks
  {
    hide ZoomFrom, ZoomWanted, ZoomTo, ZoomEnds, PinchStart, PinchEnd;
  }

  lemma CallbacksKeepSticks(e: Engine)
    ensures forall i: nat, now | i < |e.strokes| :: Animate(e, i, now).joysticks == e.joysticks
    ensures forall t: nat | t in e.timers && e.timers[t].wheel in e.states :: Expire(e, t).joysticks == e.joysticks
  {
    hide Between, Progress;
  }

  lemma ReleaseWheelFramed(e: Engine, id: Id, f: Frame, now: real)
    requires Framed(e, f, now) && Within(ORIGIN, f) && Linked(e) && id in e.wheels
    ensures Framed(ReleaseWheel(e, id), f, now)
  {
    hide StrokeFits;
  }

  lemma {:induction false} ReleaseWheelsFramed(e: Engine, ids: seq<Id>, f: Frame, now: real)
    requires Framed(e, f, now) && Within(ORIGIN, f) && Linked(e)
    requires (forall i | 0 <= i < |ids| :: ids[i] in e.wheels) && (forall i, j | 0 <= i < j < |ids| :: ids[i] != ids[j])
    ensures Framed(ReleaseWheels(e, ids), f, now)
    decreases |ids|
  {
    hide Framed, Within, ReleaseWheel;
    if ids != [] {
      ReleaseWheelFramed(e, ids[0], f, now);
      ReleaseWheelsFramed(ReleaseWheel(e, ids[0]), ids[1..], f, now);
    }
  }

  lemma ReleaseFramed(e: Engine, w: Walk, f: Frame, now: real)
    requires Framed(e, f, now) && Within(ORIGIN, f) && Linked(e) && Walks(w, e)
    ensures Framed(Release(e, w), f, now)
  {
    hide Framed, Within, ReleaseActive, ReleaseSticks, ReleaseWheels;
    assert forall i | 0 <= i < |w.joysticks| :: w.joysticks[i] in e.joysticks.Keys;
    assert forall i | 0 <= i < |w.wheels| :: w.wheels[i] in e.wheels.Keys;
    var e1 := ReleaseActive(e, w.active);
    ReleaseActiveKeeps(e, w.active);
    ReleaseActiveFramed(e, w.active, f, now);
    ReleaseSticksKeeps(e1, w.joysticks);
    ReleaseSticksFramed(e1, w.joysticks, f, now);
    ReleaseWheelsFramed(ReleaseSticks(e1, w.joysticks), w.wheels, f, now);
  }

  // ---------------------------------------------------------------- runs

  /** An event in a frame of one size, no earlier than a time, that brings no mapping which may leave the frame. */
  predicate Fits(event: Event, f: Frame, now: real) {
    match event
    case Key(k) => k.frame == f && now <= k.now
    case Turn(_, frame) => frame == f
    case Paint(_, at) => now <= at
    case Update(profile, _) => TameProfile(profile, f)
    case _ => true
  }

  function TimeOf(event: Event, now: real): real {
    match event
    case Key(k) => k.now
    case Paint(_, at) => at
    case _ => now
  }

  lemma LaterFramed(e: Engine, f: Frame, now: real, later: real)
    requires Framed(e, f, now) && now <= later
    ensures Framed(e, f, later)
  {
    hide Within, AllWithin;
  }

  lemma StepFramed(e: Engine, event: Event, f: Frame, now: real)
    requires Framed(e, f, now) && Steered(e) && Linked(e) && TameProfile(e.profile, f)
    requires 0.0 <= f.width && 0.0 <= f.height && Fits(event, f, now)
    ensures Framed(Step(e, event), f, TimeOf(event, now)) && TameProfile(Step(e, event).profile, f)
    ensures Steered(Step(e, event))
  {
    hide Framed, Steered, Tame, SticksFit, OnKeys, OnWheels, Animate, Expire, Release;
    ProfileKept(e, event);
    if !event.Key? { OthersSteered(e, event); }
    match event
    case Key(k) =>
      LaterFramed(e, f, now, k.now);
      if e.profile.Some? { KeysFramed(e, e.profile.value, k); }
    case Turn(deltaY, _) => if e.profile.Some? { WheelsFramed(e, e.profile.value, deltaY, f, now); }
    case Paint(i, at) =>
      LaterFramed(e, f, now, at);
      if i < |e.strokes| { PaintFramed(e, i, f, at); }
    case Timeout(t) => if t in e.timers && e.timers[t].wheel in e.states { ExpireFramed(e, t, f, now); }
    case Update(p, w) =>
      if Walks(w, e) {
        StillFramed(e, e.(profile := p), f, now);
        ReleaseFramed(e.(profile := p), w, f, now);
      }
    case ReleaseAll(w) => if Walks(w, e) { ReleaseFramed(e, w, f, now); }
  }

  lemma OthersSteered(e: Engine, event: Event)
    requires Linked(e) && Steered(e) && !event.Key?
    ensures Steered(Step(e, event))
  {
    hide Steered, OnWheels, Animate, Expire, Release;
    CallbacksKeepSticks(e);
    match event
    case Turn(deltaY, f) =>
      if e.profile.Some? {
        TurnKeepsSticks(e, e.profile.value, deltaY, f);
        SameSteered(e, OnWheels(e, e.profile.value, deltaY, f));
      }
    case Paint(i, now) => if i < |e.strokes| { SameSteered(e, Animate(e, i, now)); }
    case Timeout(t) => if t in e.timers && e.timers[t].wheel in e.states { SameSteered(e, Expire(e, t)); }
    case Update(p, w) => if Walks(w, e) { ReleaseSteered(e.(profile := p), w); }
    case ReleaseAll(w) => if Walks(w, e) { ReleaseSteered(e, w); }
  }

  lemma ProfileKept(e: Engine, event: Event)
    requires Linked(e)
    ensures Step(e, event).profile == if event.Update? && Walks(event.walk, e) then event.profile else e.profile
  {
    hide OnKeys, OnWheels, Animate, Expire, Release;
  }

  /**
   * In every run over a frame of fixed size and a clock that does not go back, taps, swipes and scrolls placed in
   * proportions of the frame, sticks whose edges lie in it wherever their keys take them, and zooms in a frame that is
   * wide enough, never touch outside it, not even from pending frames and timers, and not by releases.
   */
  lemma {:induction false} RunsStayInFrame(events: seq<Event>, times: seq<real>, f: Frame)
    requires |times| == |events| + 1 && 0.0 <= f.width && 0.0 <= f.height
    requires forall i | 0 <= i < |events| :: Fits(events[i], f, times[i]) && times[i + 1] == TimeOf(events[i], times[i])
    ensures Framed(Run(Fresh(), events), f, times[|events|]) && TameProfile(Run(Fresh(), events).profile, f)
    ensures AllWithin(Run(Fresh(), events).sent, f) && Steered(Run(Fresh(), events))
  {
    hide Tame, SticksFit, Steers, Step, Fits, TimeOf, StrokeFits, Within;
    if events != [] {
      var n := |events| - 1;
      var front := events[..n];
      forall i | 0 <= i < n
        ensures Fits(front[i], f, times[..n + 1][i]) && times[..n + 1][i + 1] == TimeOf(front[i], times[..n + 1][i])
      {
        assert front[i] == events[i];
      }
      RunsStayInFrame(front, times[..n + 1], f);
      StepFramed(Run(Fresh(), front), events[n], f, times[n]);
    }
  }

  /** A run in a frame of one size that takes no profile but one with a single mapping. */
  predicate PlainRun(events: seq<Event>, times: seq<real>, f: Frame, m: Mapping) {
    |times| == |events| + 1
    && forall i | 0 <= i < |events| ::
      PlainlyFits(events[i], f, times[i], m) && times[i + 1] == TimeOf(events[i], times[i])
  }

  predicate PlainlyFits(event: Event, f: Frame, now: real, m: Mapping) {
    match event
    case Key(k) => k.frame == f && now <= k.now
    case Turn(_, frame) => frame == f
    case Paint(_, at) => now <= at
    case Update(profile, _) => profile == Some([m])
    case _ => true
  }

  /** No run with a single mapping touches outside the frame. */
  ghost predicate AlwaysWithin(f: Frame, m: Mapping) {
    forall events, times | PlainRun(events, times, f, m) :: AllWithin(Run(Fresh(), events).sent, f)
  }

  lemma TameIsWithin(f: Frame, m: Mapping)
    requires TameProfile(Some([m]), f) && 0.0 <= f.width && 0.0 <= f.height
    ensures AlwaysWithin(f, m)
  {
    hide AllWithin, Run, Tame, SticksFit;
    forall events, times | PlainRun(events, times, f, m) ensures AllWithin(Run(Fresh(), events).sent, f) {
      forall i | 0 <= i < |events| ensures Fits(events[i], f, times[i]) {
        assert PlainlyFits(events[i], f, times[i], m);
      }
      RunsStayInFrame(events, times, f);
    }
  }

  const NOWHERE := Walk([], [], [])

  // ---------------------------------------------------------------- zooms in narrow frames

  /** Taking the profile, then one still turn and one that zooms in, which takes the pinch to its limit. */
  function Widest(id: Id, pos: Spot, f: Frame): seq<Event> {
    [Update(Some([Wheel(id, Zoom, pos)]), NOWHERE), Turn(0.0, f), Turn(-1.0, f)]
  }

  /** Over all runs of a zoom in a frame: no touch falls outside if and only if the frame is wide enough. */
  lemma ZoomStaysInFrame(f: Frame, id: Id, pos: Spot)
    requires 0.0 <= f.width && 0.0 < f.height
    ensures AlwaysWithin(f, Wheel(id, Zoom, pos)) <==> WideEnough(f)
  {
    hide AllWithin, Run, WideEnough;
    if WideEnough(f) {
      TameIsWithin(f, Wheel(id, Zoom, pos));
    } else {
      var events, times := Widest(id, pos, f), [0.0, 0.0, 0.0, 0.0];
      assert PlainRun(events, times, f, Wheel(id, Zoom, pos));
      WidestLeaves(id, pos, f);
    }
  }

  /** One turn of a wheel that holds both pointers at some radius. */
  lemma ZoomMoves(e: Engine, id: Id, deltaY: real, f: Frame)
    requires Linked(e) && id in e.wheels
    ensures
      var radius := ZoomTo(ZoomWanted(StateOf(e, id).delta, deltaY, f), f);
      var at := PinchStart(f, radius);
      exists k :: 0 <= k < |ZoomOn(e, id, deltaY, f).sent| && ZoomOn(e, id, deltaY, f).sent[k].x == at.x
        && ZoomOn(e, id, deltaY, f).sent[k].y == at.y
  {
    hide ZoomTo, ZoomWanted, ZoomEnds, PinchStart, PinchEnd;
    var at := PinchStart(f, ZoomTo(ZoomWanted(StateOf(e, id).delta, deltaY, f), f));
    var r := ZoomOn(e, id, deltaY, f);
    assert r.sent[|e.sent|] == Touch(Move, StateOf(e, id).pointer1, at.x, at.y);
  }

  lemma NewWheel(e: Engine, id: Id)
    requires Linked(e) && id !in e.wheels
    ensures StateOf(Ready(e, id), id) == NO_WHEEL
  {
  }

  lemma StillStart(e: Engine, id: Id, f: Frame)
    requires Linked(e) && id in e.wheels && StateOf(e, id) == NO_WHEEL
    ensures
      var r := ZoomStart(e, id, 0.0, f);
      id in r.wheels && StateOf(r, id).delta == f.height * 0.38 && StateOf(r, id).pointer1.Some?
  {
    hide PinchStart, PinchEnd;
  }

  lemma StillGoesOn(e: Engine, id: Id, f: Frame)
    requires Linked(e) && id in e.wheels && 0.0 < f.height
    requires StateOf(e, id).delta == f.height * 0.38 && StateOf(e, id).pointer1.Some?
    ensures
      var r := ZoomOn(e, id, 0.0, f);
      id in r.wheels && StateOf(r, id).delta == f.height * 0.38 && StateOf(r, id).pointer1.Some?
  {
    hide PinchStart, PinchEnd;
  }

  lemma StartingRadius(e: Engine, id: Id, f: Frame)
    requires Linked(e) && id !in e.wheels && 0.0 < f.height
    ensures
      var r := ZoomOn(ZoomStart(Ready(e, id), id, 0.0, f), id, 0.0, f);
      id in r.wheels && StateOf(r, id).delta == f.height * 0.38 && StateOf(r, id).pointer1.Some?
  {
    hide Ready, ZoomStart, ZoomOn;
    NewWheel(e, id);
    StillStart(Ready(e, id), id, f);
    StillGoesOn(ZoomStart(Ready(e, id), id, 0.0, f), id, f);
  }

  lemma WidestRadius(e: Engine, id: Id, f: Frame)
    requires Linked(e) && id in e.wheels && 0.0 < f.height
    requires StateOf(e, id).delta == f.height * 0.38 && StateOf(e, id).pointer1.Some?
    ensures
      var r := ZoomStart(Ready(e, id), id, -1.0, f);
      id in r.wheels && ZoomTo(ZoomWanted(StateOf(r, id).delta, -1.0, f), f) == f.height * 0.40
  {
  }

  lemma WidestLeaves(id: Id, pos: Spot, f: Frame)
    requires 0.0 <= f.width && 0.0 < f.height && !WideEnough(f)
    ensures !AllWithin(Run(Fresh(), Widest(id, pos, f)).sent, f)
  {
    hide ZoomStart, ZoomOn, Ready, PinchStart, PinchEnd, ZoomTo, ZoomWanted;
    var es := Widest(id, pos, f);
    var m, e0 := Wheel(id, Zoom, pos), Fresh().(profile := Some([Wheel(id, Zoom, pos)]));
    assert es[..3] == es && es[..3][..2] == es[..2] && es[..2][..1] == es[..1] && es[..1][..0] == [];
    assert Run(Fresh(), es[..1]) == e0;
    OneWheel(e0, m, 0.0, f);
    var e1 := OnWheel(e0, m, 0.0, f);
    assert Run(Fresh(), es[..2]) == e1;
    StartingRadius(e0, id, f);
    OneWheel(e1, m, -1.0, f);
    var e2 := OnWheel(e1, m, -1.0, f);
    assert Run(Fresh(), es) == e2;
    WidestRadius(e1, id, f);
    ZoomMoves(ZoomStart(Ready(e1, id), id, -1.0, f), id, -1.0, f);
    StartOutside(f);
  }

  lemma OneWheel(e: Engine, m: Mapping, deltaY: real, f: Frame)
    requires Linked(e) && m.Wheel?
    ensures OnWheels(e, [m], deltaY, f) == OnWheel(e, m, deltaY, f) && OnWheel(e, m, deltaY, f).profile == e.profile
  {
    hide OnWheel;
    assert [m][..0] == [];
  }

  /** The widest pinch starts left of a narrow frame. */
  lemma StartOutside(f: Frame)
    requires 0.0 < f.height && !WideEnough(f)
    ensures PinchStart(f, f.height * 0.40).x < 0.0
  {
  }

  // ---------------------------------------------------------------- sticks

  /** A tilted stick puts its finger on its edge, in the direction of the held keys: straight, or on a diagonal. */
  lemma OnTheEdge(m: Mapping, s: Stick, f: Frame)
    requires m.Joystick? && !Neutral(s)
    ensures
      var center, edge, radius := Scale(m.center, f), EdgeOf(m, s, f), RadiusOf(m, f);
      && (Along(s) == 0.0 ==> edge.y == center.y && edge.x == center.x + Across(s) * radius)
      && (Across(s) == 0.0 ==> edge.x == center.x && edge.y == center.y + Along(s) * radius)
      && (Along(s) != 0.0 && Across(s) != 0.0 ==>
            (edge.x - center.x) * ROOT_TWO == Across(s) * radius && (edge.y - center.y) * ROOT_TWO == Along(s) * radius)
  {
    hide RadiusOf, Scale;
  }

  /** Taking the profile and pushing the stick one way. */
  function Push(m: Mapping, d: Toward, f: Frame): seq<Event>
    requires m.Joystick?
  {
    [Update(Some([m]), NOWHERE), Key(KeyPress(KeyOf(m.keys, d), false, true, f, 0.0))]
  }

  /** Over all runs of a stick in a frame: no touch falls outside if and only if its middle and its edge lie inside. */
  lemma StickStaysInFrame(f: Frame, m: Mapping)
    requires m.Joystick? && 0.0 <= f.width && 0.0 <= f.height
    ensures AlwaysWithin(f, m) <==> StickFits(m, f)
  {
    hide AllWithin, Run, HasKey, EdgeFits, Within;
    if StickFits(m, f) {
      TameIsWithin(f, m);
    } else {
      UpwardHasKey(m.keys);
      var d :| HasKey(m.keys, d) && !(Within(Scale(m.center, f), f) && EdgeFits(m, d, f));
      var events, times := Push(m, d, f), [0.0, 0.0, 0.0];
      assert PlainRun(events, times, f, m);
      PushLeaves(m, d, f);
    }
  }

  lemma UpwardHasKey(keys: Keys)
    ensures HasKey(keys, Upward)
  {
  }

  lemma PushLeaves(m: Mapping, d: Toward, f: Frame)
    requires m.Joystick? && HasKey(m.keys, d) && !(Within(Scale(m.center, f), f) && EdgeFits(m, d, f))
    ensures !AllWithin(Run(Fresh(), Push(m, d, f)).sent, f)
  {
    hide Lower, HasKey, Scale, RadiusOf, OnStick;
    var es, e0 := Push(m, d, f), Fresh().(profile := Some([m]));
    assert es[..2] == es && es[..2][..1] == es[..1] && es[..1][..0] == [];
    assert Run(Fresh(), es[..1]) == e0;
    var e1 := OnStick(e0, m, d, true, f);
    PushSends(m, d, f);
    PushIs(m, d, f);
    assert Run(Fresh(), es) == e1;
    Outside(m, d, f, e1.sent);
  }

  /** One of two such touches is outside. */
  lemma Outside(m: Mapping, d: Toward, f: Frame, sent: seq<Touch>)
    requires m.Joystick? && |sent| == 2 && !(Within(Scale(m.center, f), f) && EdgeFits(m, d, f))
    requires
      var c, radius := Scale(m.center, f), RadiusOf(m, f);
      && sent[0].x == c.x && sent[0].y == c.y
      && sent[1].x == (match d case Leftward => c.x - radius case Rightward => c.x + radius case _ => c.x)
      && sent[1].y == (match d case Upward => c.y - radius case Downward => c.y + radius case _ => c.y)
    ensures !AllWithin(sent, f)
  {
    hide Scale, RadiusOf;
    assert !Within(Spot(sent[0].x, sent[0].y), f) || !Within(Spot(sent[1].x, sent[1].y), f);
  }

  lemma PushIs(m: Mapping, d: Toward, f: Frame)
    requires m.Joystick? && HasKey(m.keys, d)
    ensures
      var e0 := Fresh().(profile := Some([m]));
      OnKeys(e0, [m], KeyPress(KeyOf(m.keys, d), false, true, f, 0.0)) == OnStick(e0, m, d, true, f)
  {
    hide OnStick, DirectionOf;
    assert [m][..0] == [];
  }

  /** The first touch is in the middle, the second at the point of the edge. */
  lemma PushSends(m: Mapping, d: Toward, f: Frame)
    requires m.Joystick?
    ensures
      var sent := OnStick(Fresh().(profile := Some([m])), m, d, true, f).sent;
      var c, radius := Scale(m.center, f), RadiusOf(m, f);
      && |sent| == 2 && sent[0].x == c.x && sent[0].y == c.y
      && sent[1].x == (match d case Leftward => c.x - radius case Rightward => c.x + radius case _ => c.x)
      && sent[1].y == (match d case Upward => c.y - radius case Downward => c.y + radius case _ => c.y)
  {
    hide Scale, RadiusOf, EdgeOf;
    OnTheEdge(m, Pushed(NO_STICK, d, true), f);
  }
}

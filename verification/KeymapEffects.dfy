/** What pressing and releasing a mapped key makes the engine send, told from the events alone. */
module KeymapEffects {
  import opened Wrappers
  import opened TouchTrace
  import opened KeymapModel

  // ---------------------------------------------------------------- keys, whatever their case

  predicate SameLetter(a: char, b: char) {
    a == b || ('A' <= a <= 'Z' && b as int == a as int + 32) || ('A' <= b <= 'Z' && a as int == b as int + 32)
  }

  predicate Alike(a: string, b: string) {
    |a| == |b| && forall i | 0 <= i < |a| :: SameLetter(a[i], b[i])
  }

  lemma LoweredLetter(a: char, b: char)
    ensures SameLetter(a, b) <==>
      (if 'A' <= a <= 'Z' then a + ' ' else a) == (if 'A' <= b <= 'Z' then b + ' ' else b)
  {
  }

  /** Two keys are the same in lower case exactly if they differ in nothing but the case of letters. */
  lemma LowerExactly(a: string, b: string)
    ensures Lower(a) == Lower(b) <==> Alike(a, b)
  {
    if |a| == |b| {
      forall i | 0 <= i < |a| ensures SameLetter(a[i], b[i]) <==> Lower(a)[i] == Lower(b)[i] {
        LoweredLetter(a[i], b[i]);
      }
    }
  }

  /** The direction in which a key pushes a stick: the first one it is named for. */
  function PushOf(keys: Keys, key: string): Option<Toward> {
    if Alike(keys.up, key) then Some(Upward)
    else if Alike(keys.down, key) then Some(Downward)
    else if Alike(keys.left, key) then Some(Leftward)
    else if Alike(keys.right, key) then Some(Rightward)
    else None
  }

  predicate Obeys(m: Mapping, key: string) {
    match m
    case Tap(_, k, _) => Alike(k, key)
    case Command(k, _) => Alike(k, key)
    case Joystick(_, keys, _, _) =>
      Alike(keys.up, key) || Alike(keys.down, key) || Alike(keys.left, key) || Alike(keys.right, key)
    case Swipe(_, k, _, _, _) => Alike(k, key)
    case _ => false
  }

  lemma ObeysExactly(m: Mapping, key: string)
    ensures Obeys(m, key) <==> Answers(m, Lower(key))
    ensures m.Joystick? ==> PushOf(m.keys, key) == DirectionOf(m.keys, Lower(key))
  {
    hide Lower, Alike;
    match m
    case Tap(_, k, _) => LowerExactly(k, key);
    case Command(k, _) => LowerExactly(k, key);
    case Joystick(_, keys, _, _) =>
      LowerExactly(keys.up, key);
      LowerExactly(keys.down, key);
      LowerExactly(keys.left, key);
      LowerExactly(keys.right, key);
    case Swipe(_, k, _, _, _) => LowerExactly(k, key);
    case _ =>
  }

  // ---------------------------------------------------------------- what is sent, and what is left alone

  /** More was sent, and every finger that went down was numbered higher than any before. */
  predicate Sends(e: Engine, r: Engine) {
    && e.base <= r.base && e.sent <= r.sent
    && (forall i | |e.sent| <= i < |r.sent| && r.sent[i].action.Down? ::
          r.sent[i].pointer.Some? && e.base <= r.sent[i].pointer.value < r.base)
  }

  lemma SendsOn(e: Engine, r: Engine, s: Engine)
    requires Sends(e, r) && Sends(r, s)
    ensures Sends(e, s)
  {
    assert forall i | |e.sent| <= i < |r.sent| :: s.sent[i] == r.sent[i];
  }

  /** Taps, swipes, sticks and commands are left alone. */
  predicate Leaves(e: Engine, r: Engine) {
    && r.profile == e.profile && r.active == e.active && r.joysticks == e.joysticks && r.strokes == e.strokes
    && r.commands == e.commands && Sends(e, r)
  }

  lemma LeavesOn(e: Engine, r: Engine, s: Engine)
    requires Leaves(e, r) && Leaves(r, s)
    ensures Leaves(e, s)
  {
    SendsOn(e, r, s);
  }

  lemma LeavesSelf(e: Engine)
    ensures Leaves(e, e)
  {
  }

  lemma ReadyLeaves(e: Engine, id: Id)
    requires Linked(e)
    ensures Leaves(e, Ready(e, id))
  {
  }

  lemma FingerLeaves(e: Engine, o: Owner, at: Spot)
    requires Exists(e, o) && (o.FirstOf? || o.SecondOf?)
    ensures Leaves(e, Press(e, o, at)) && Leaves(e, Drag(e, o, at)) && Leaves(e, Lift(e, o, at))
  {
  }

  lemma TimingLeaves(e: Engine, id: Id, delta: real, zoom: bool, spot1: Spot, spot2: Spot)
    requires Linked(e) && id in e.wheels
    ensures Leaves(e, SetDelta(e, id, delta)) && Leaves(e, SetTimer(e, id, zoom, spot1, spot2))
  {
  }

  lemma ScrollLeaves(e: Engine, id: Id, at: Spot, deltaY: real, f: Frame)
    requires Linked(e) && id in e.wheels
    ensures Leaves(e, ScrollStart(e, id, at, deltaY, f)) && Leaves(e, ScrollOn(e, id, at, deltaY, f))
  {
    hide ScrollFrom, ScrollTo, ScrollEnds, Inside, SetDelta, SetTimer, Press, Drag, Lift, Leaves, StateOf, Assign;
    LeavesSelf(e);
    var from, to := ScrollFrom(deltaY, f), ScrollTo(StateOf(e, id).delta, deltaY, f);
    PressLeaves(e, id, from, Inside(at, from, f));
    var edge, spot := Inside(at, to, f), Spot(at.x, at.y + to);
    DragLeaves(e, id, to, edge);
    DragLeaves(e, id, to, spot);
  }

  lemma PressLeaves(e: Engine, id: Id, delta: real, at: Spot)
    requires Linked(e) && id in e.wheels
    ensures Leaves(e, Press(SetDelta(e, id, delta), FirstOf(id), at))
  {
    hide SetDelta, Press, Leaves;
    TimingLeaves(e, id, delta, false, at, at);
    FingerLeaves(SetDelta(e, id, delta), FirstOf(id), at);
    LeavesOn(e, SetDelta(e, id, delta), Press(SetDelta(e, id, delta), FirstOf(id), at));
  }

  lemma DragLeaves(e: Engine, id: Id, delta: real, at: Spot)
    requires Linked(e) && id in e.wheels
    ensures
      var r := Drag(SetDelta(e, id, delta), FirstOf(id), at);
      Leaves(e, Lift(r, FirstOf(id), at)) && Leaves(e, SetTimer(r, id, false, at, at))
  {
    hide SetDelta, Drag, Lift, SetTimer, Leaves;
    TimingLeaves(e, id, delta, false, at, at);
    var e1 := SetDelta(e, id, delta);
    FingerLeaves(e1, FirstOf(id), at);
    var r := Drag(e1, FirstOf(id), at);
    LeavesOn(e, e1, r);
    FingerLeaves(r, FirstOf(id), at);
    TimingLeaves(r, id, delta, false, at, at);
    LeavesOn(e, r, Lift(r, FirstOf(id), at));
    LeavesOn(e, r, SetTimer(r, id, false, at, at));
  }

  lemma PinchLeaves(e: Engine, id: Id, spot1: Spot, spot2: Spot)
    requires Linked(e) && id in e.wheels
    ensures Leaves(e, Pinch(e, id, spot1, spot2)) && Leaves(e, Unpinch(e, id, spot1, spot2))
    ensures Leaves(e, Press(Press(e, FirstOf(id), spot1), SecondOf(id), spot2))
  {
    hide Press, Drag, Lift, Leaves;
    FingerLeaves(e, FirstOf(id), spot1);
    var pressed, dragged := Press(e, FirstOf(id), spot1), Drag(e, FirstOf(id), spot1);
    var lifted := Lift(e, FirstOf(id), spot1);
    FingerLeaves(pressed, SecondOf(id), spot2);
    FingerLeaves(dragged, SecondOf(id), spot2);
    FingerLeaves(lifted, SecondOf(id), spot2);
    LeavesOn(e, pressed, Press(pressed, SecondOf(id), spot2));
    LeavesOn(e, dragged, Drag(dragged, SecondOf(id), spot2));
    LeavesOn(e, lifted, Lift(lifted, SecondOf(id), spot2));
  }

  lemma ZoomLeaves(e: Engine, id: Id, deltaY: real, f: Frame)
    requires Linked(e) && id in e.wheels
    ensures Leaves(e, ZoomStart(e, id, deltaY, f)) && Leaves(e, ZoomOn(e, id, deltaY, f))
  {
    hide ZoomFrom, ZoomWanted, ZoomTo, ZoomEnds, PinchStart, PinchEnd;
    hide SetDelta, SetTimer, Press, Pinch, Unpinch, Leaves;
    LeavesSelf(e);
    var from, wanted := ZoomFrom(deltaY, f), ZoomWanted(StateOf(e, id).delta, deltaY, f);
    var to := ZoomTo(wanted, f);
    TimingLeaves(e, id, from, true, ORIGIN, ORIGIN);
    TimingLeaves(e, id, to, true, ORIGIN, ORIGIN);
    var e1, e2, at1, at2 := SetDelta(e, id, from), SetDelta(e, id, to), PinchStart(f, from), PinchEnd(f, from);
    PinchLeaves(e1, id, at1, at2);
    LeavesOn(e, e1, Press(Press(e1, FirstOf(id), at1), SecondOf(id), at2));
    var spot1, spot2 := PinchStart(f, to), PinchEnd(f, to);
    PinchLeaves(e2, id, spot1, spot2);
    var e3 := Pinch(e2, id, spot1, spot2);
    LeavesOn(e, e2, e3);
    PinchLeaves(e3, id, spot1, spot2);
    TimingLeaves(e3, id, to, true, spot1, spot2);
    var ended, waiting := Unpinch(e3, id, spot1, spot2), SetTimer(e3, id, true, spot1, spot2);
    LeavesOn(e, e3, if ZoomEnds(wanted, f) then ended else waiting);
  }

  lemma WheelLeaves(e: Engine, m: Mapping, deltaY: real, f: Frame)
    requires Linked(e) && m.Wheel?
    ensures Leaves(e, OnWheel(e, m, deltaY, f))
  {
    hide Ready, ScrollStart, ScrollOn, ZoomStart, ZoomOn, Scale, Leaves;
    var e1, at := Ready(e, m.id), Scale(m.pos, f);
    ReadyLeaves(e, m.id);
    ScrollLeaves(e1, m.id, at, deltaY, f);
    ZoomLeaves(e1, m.id, deltaY, f);
    var e2 := if m.gesture.Zoom? then ZoomStart(e1, m.id, deltaY, f) else ScrollStart(e1, m.id, at, deltaY, f);
    ScrollLeaves(e2, m.id, at, deltaY, f);
    ZoomLeaves(e2, m.id, deltaY, f);
    LeavesOn(e, e1, e2);
    LeavesOn(e, e2, ScrollOn(e2, m.id, at, deltaY, f));
    LeavesOn(e, e2, ZoomOn(e2, m.id, deltaY, f));
  }

  /** Turning a wheel leaves keys alone. */
  lemma {:induction false} TurnLeaves(e: Engine, ms: seq<Mapping>, deltaY: real, f: Frame)
    requires Linked(e)
    ensures Leaves(e, OnWheels(e, ms, deltaY, f))
    decreases |ms|
  {
    hide OnWheel;
    if ms != [] {
      var before, m := OnWheels(e, ms[..|ms| - 1], deltaY, f), ms[|ms| - 1];
      TurnLeaves(e, ms[..|ms| - 1], deltaY, f);
      if m.Wheel? {
        WheelLeaves(before, m, deltaY, f);
        LeavesOn(e, before, OnWheel(before, m, deltaY, f));
      }
    }
  }

  lemma TimeoutLeaves(e: Engine, t: nat)
    requires t in e.timers && e.timers[t].wheel in e.states
    ensures Leaves(e, Expire(e, t))
  {
  }

  /** A frame moves no key. */
  lemma FrameLeaves(e: Engine, i: nat, now: real)
    requires i < |e.strokes|
    ensures
      var r := Animate(e, i, now);
      && Sends(e, r) && r.profile == e.profile && r.active == e.active && r.joysticks == e.joysticks
      && r.commands == e.commands
  {
    hide Progress, Between;
  }

  // ---------------------------------------------------------------- releases

  lemma LiftSends(e: Engine, o: Owner, at: Spot)
    requires Exists(e, o)
    ensures Sends(e, Lift(e, o, at)) && Lift(e, o, at).sent == e.sent + [Touch(Up, PointerOf(e, o), at.x, at.y)]
  {
  }

  /** Everything new is a finger that goes up, in the frame's corner. */
  predicate OnlyUps(e: Engine, r: Engine) {
    && r.base == e.base && e.sent <= r.sent
    && (forall i | |e.sent| <= i < |r.sent| :: r.sent[i].action.Up? && r.sent[i].x == 0.0 && r.sent[i].y == 0.0)
  }

  lemma OnlyUpsOn(e: Engine, r: Engine, s: Engine)
    requires OnlyUps(e, r) && OnlyUps(r, s)
    ensures OnlyUps(e, s)
  {
    assert forall i | |e.sent| <= i < |r.sent| :: s.sent[i] == r.sent[i];
  }

  lemma {:induction false} TapsGoUp(e: Engine, ids: seq<Id>)
    ensures OnlyUps(e, ReleaseActive(e, ids))
    decreases |ids|
  {
    if ids != [] {
      var r := Lift(e, ActiveOf(ids[0]), ORIGIN);
      TapsGoUp(r, ids[1..]);
      assert OnlyUps(e, r);
      OnlyUpsOn(e, r, ReleaseActive(r, ids[1..]));
    }
  }

  lemma {:induction false} SticksGoUp(e: Engine, ids: seq<Id>)
    requires forall i | 0 <= i < |ids| :: ids[i] in e.joysticks
    ensures OnlyUps(e, ReleaseSticks(e, ids))
    decreases |ids|
  {
    if ids != [] {
      var r := ReleaseStick(e, ids[0]);
      assert r.joysticks.Keys == e.joysticks.Keys;
      SticksGoUp(r, ids[1..]);
      assert OnlyUps(e, r);
      OnlyUpsOn(e, r, ReleaseSticks(r, ids[1..]));
    }
  }

  lemma {:induction false} WheelsGoUp(e: Engine, ids: seq<Id>)
    requires Linked(e)
    requires (forall i | 0 <= i < |ids| :: ids[i] in e.wheels) && (forall i, j | 0 <= i < j < |ids| :: ids[i] != ids[j])
    ensures OnlyUps(e, ReleaseWheels(e, ids))
    decreases |ids|
  {
    if ids != [] {
      var r := ReleaseWheel(e, ids[0]);
      WheelGoesUp(e, ids[0]);
      WheelsGoUp(r, ids[1..]);
      OnlyUpsOn(e, r, ReleaseWheels(r, ids[1..]));
    }
  }

  lemma WheelGoesUp(e: Engine, id: Id)
    requires Linked(e) && id in e.wheels
    ensures OnlyUps(e, ReleaseWheel(e, id))
  {
    var s, r := StateOf(e, id), ReleaseWheel(e, id);
    var ups := (if s.pointer1.Some? then [Touch(Up, s.pointer1, 0.0, 0.0)] else [])
      + (if s.pointer2.Some? then [Touch(Up, s.pointer2, 0.0, 0.0)] else []);
    assert r.sent == e.sent + ups && r.base == e.base;
    hide ReleaseWheel, StateOf;
  }

  /** A release sends nothing but fingers going up in the corner, and leaves nothing pressed, pushed or turned. */
  lemma ReleaseTells(e: Engine, w: Walk)
    requires Linked(e) && Walks(w, e)
    ensures
      var r := Release(e, w);
      && OnlyUps(e, r) && r.profile == e.profile && r.active == map[] && r.wheels == map[]
      && forall id | id in r.joysticks :: r.joysticks[id] == NO_STICK
  {
    hide ReleaseActive, ReleaseSticks, ReleaseWheels, OnlyUps;
    ReleaseShape(e, w);
    Visited(w.joysticks, e.joysticks.Keys);
    Visited(w.wheels, e.wheels.Keys);
    var e1 := ReleaseActive(e, w.active);
    ReleaseActiveKeeps(e, w.active);
    var e2 := ReleaseSticks(e1, w.joysticks);
    ReleaseSticksKeeps(e1, w.joysticks);
    TapsGoUp(e, w.active);
    SticksGoUp(e1, w.joysticks);
    WheelsGoUp(e2, w.wheels);
    OnlyUpsOn(e, e1, e2);
    OnlyUpsOn(e, e2, ReleaseWheels(e2, w.wheels));
  }

  // ---------------------------------------------------------------- one key and one mapping

  lemma TapSends(e: Engine, id: Id, at: Spot, isDown: bool)
    ensures Sends(e, OnTap(e, id, at, isDown))
  {
  }

  lemma StickFingerSends(e: Engine, o: Owner, at: Spot)
    requires Exists(e, o) && o.StickOf?
    ensures Sends(e, Press(e, o, at)) && Sends(e, Drag(e, o, at)) && Sends(e, Lift(e, o, at))
  {
  }

  lemma FollowSends(e: Engine, id: Id, center: Spot, edge: Spot)
    requires id in e.joysticks
    ensures Sends(e, Follow(e, id, center, edge))
  {
    hide Neutral, Press, Drag, Lift, Sends;
    SendsNothing(e);
    var pressed := Press(e, StickOf(id), center);
    StickFingerSends(e, StickOf(id), center);
    StickFingerSends(e, StickOf(id), edge);
    DragSends(pressed, StickOf(id), edge);
    SendsOn(e, pressed, Drag(pressed, StickOf(id), edge));
  }

  lemma DragSends(e: Engine, o: Owner, at: Spot)
    ensures Sends(e, Drag(e, o, at))
  {
  }

  lemma StickSends(e: Engine, m: Mapping, d: Toward, isDown: bool, f: Frame)
    requires m.Joystick?
    ensures Sends(e, OnStick(e, m, d, isDown, f))
  {
    hide EdgeOf, Neutral, Scale, Pushed, Follow;
    var stick := Pushed(if m.id in e.joysticks then e.joysticks[m.id] else NO_STICK, d, isDown);
    FollowSends(e.(joysticks := e.joysticks[m.id := stick]), m.id, Scale(m.center, f), EdgeOf(m, stick, f));
  }

  lemma SwipeSends(e: Engine, m: Mapping, isDown: bool, f: Frame, now: real)
    requires m.Swipe?
    ensures Sends(e, OnSwipe(e, m, isDown, f, now))
  {
    hide Scale, DurationOf;
  }

  lemma KeySends(e: Engine, m: Mapping, k: KeyPress)
    ensures Sends(e, OnKey(e, m, k))
  {
    hide OnTap, OnStick, OnSwipe, Scale, Lower;
    match m
    case Tap(id, _, pos) => TapSends(e, id, Scale(pos, k.frame), k.isDown);
    case Joystick(_, keys, _, _) =>
      if DirectionOf(keys, Lower(k.key)).Some? {
        StickSends(e, m, DirectionOf(keys, Lower(k.key)).value, k.isDown, k.frame);
      }
    case Swipe(_, _, _, _, _) => SwipeSends(e, m, k.isDown, k.frame, k.now);
    case _ =>
  }

  lemma {:induction false} KeysSend(e: Engine, ms: seq<Mapping>, k: KeyPress)
    ensures Sends(e, OnKeys(e, ms, k)) && OnKeys(e, ms, k).profile == e.profile
  {
    hide OnKey, Sends;
    if ms == [] {
      SendsNothing(e);
    } else {
      var before := OnKeys(e, ms[..|ms| - 1], k);
      KeysSend(e, ms[..|ms| - 1], k);
      KeySends(before, ms[|ms| - 1], k);
      SendsOn(e, before, OnKey(before, ms[|ms| - 1], k));
    }
  }

  lemma SendsNothing(e: Engine)
    ensures Sends(e, e)
  {
  }

  /** Every event only adds to what was sent, and numbers its fingers on from there. */
  lemma StepSends(e: Engine, event: Event)
    requires Linked(e)
    ensures Sends(e, Step(e, event))
  {
    hide OnKeys, OnWheels, Animate, Expire, Release, Walks;
    match event
    case Key(k) => if e.profile.Some? { KeysSend(e, e.profile.value, k); }
    case Turn(deltaY, f) => if e.profile.Some? { TurnLeaves(e, e.profile.value, deltaY, f); }
    case Paint(i, now) => if i < |e.strokes| { FrameLeaves(e, i, now); }
    case Timeout(t) => if t in e.timers && e.timers[t].wheel in e.states { TimeoutLeaves(e, t); }
    case Update(p, w) => if Walks(w, e) { SameWalks(e, p, w); ReleaseTells(e.(profile := p), w); }
    case ReleaseAll(w) => if Walks(w, e) { ReleaseTells(e, w); }
  }

  lemma SameWalks(e: Engine, p: Option<seq<Mapping>>, w: Walk)
    requires Walks(w, e)
    ensures Walks(w, e.(profile := p))
  {
  }

  /** Only one mapping obeys a key, so that it alone does something. */
  lemma {:induction false} OnlyOne(e: Engine, ms: seq<Mapping>, k: KeyPress, j: nat)
    requires forall i | 0 <= i < |ms| && i != j :: !Obeys(ms[i], k.key)
    ensures OnKeys(e, ms, k) == if j < |ms| then OnKey(e, ms[j], k) else e
    decreases |ms|
  {
    hide OnKey, Obeys, Answers, Lower;
    if ms != [] {
      var front, last := ms[..|ms| - 1], ms[|ms| - 1];
      assert forall i | 0 <= i < |front| :: front[i] == ms[i];
      OnlyOne(e, front, k, j);
      if j != |ms| - 1 { Disobeyed(OnKeys(e, front, k), last, k); }
    }
  }

  lemma Disobeyed(e: Engine, m: Mapping, k: KeyPress)
    requires !Obeys(m, k.key)
    ensures OnKey(e, m, k) == e
  {
    hide Obeys, Lower, Answers;
    ObeysExactly(m, k.key);
  }
}

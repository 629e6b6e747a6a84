/** The keymap engine: a profile's keys and wheels turned into touches, with the state kept in fields as it goes. */
module KeymapEngine {
  import opened Wrappers
  import opened TouchTrace
  import opened KeymapModel

  class Engine {
    var activeProfile: Option<seq<Mapping>>
    var pointerIdBase: nat
    var activePointers: map<Id, nat>
    var joysticks: map<Id, Stick>
    var wheels: map<Id, nat>

    // The objects and closures the engine has handed out, and what its two callbacks have received.
    var states: map<nat, WheelState>
    var nextState: nat
    var timers: map<nat, Timer>
    var nextTimer: nat
    var strokes: seq<Stroke>
    var sent: seq<Touch>
    var commands: seq<string>

    ghost function State(): KeymapModel.Engine
      reads this
    {
      KeymapModel.Engine(activeProfile, pointerIdBase, activePointers, joysticks, wheels, states, nextState,
        timers, nextTimer, strokes, sent, commands)
    }

    constructor ()
      ensures State() == Fresh()
    {
      activeProfile, pointerIdBase, activePointers, joysticks, wheels := None, FIRST_TOUCH_ID, map[], map[], map[];
      states, nextState, timers, nextTimer, strokes, sent, commands := map[], 0, map[], 0, [], [], [];
    }

    method SendTouch(action: Action, pointer: Option<nat>, at: Spot)
      modifies this`sent
      ensures State() == Send(old(State()), action, pointer, at)
    {
      sent := sent + [Touch(action, pointer, at.x, at.y)];
    }

    method HandleTap(id: Id, pos: Spot, isDown: bool, f: Frame)
      modifies this
      ensures State() == OnTap(old(State()), id, Scale(pos, f), isDown)
    {
      var coord := Scale(pos, f);
      if isDown {
        if id !in activePointers {
          var ptrId := pointerIdBase;
          pointerIdBase := pointerIdBase + 1;
          activePointers := activePointers[id := ptrId];
          SendTouch(Down, Some(ptrId), coord);
        }
      } else if id in activePointers {
        SendTouch(Up, Some(activePointers[id]), coord);
        activePointers := activePointers - {id};
      }
    }

    method HandleJoystick(m: Mapping, direction: Toward, isDown: bool, f: Frame)
      requires m.Joystick?
      modifies this
      ensures State() == OnStick(old(State()), m, direction, isDown, f)
    {
      hide Across, Along;
      if m.id !in joysticks {
        joysticks := joysticks[m.id := NO_STICK];
      }
      var stick := Pushed(joysticks[m.id], direction, isDown);
      joysticks := joysticks[m.id := stick];
      assert State() == old(State()).(joysticks := old(joysticks)[m.id := stick]);
      MoveStick(m.id, Scale(m.center, f), EdgeOf(m, stick, f));
    }

    method MoveStick(id: Id, center: Spot, edge: Spot)
      requires id in joysticks
      modifies this
      ensures State() == Follow(old(State()), id, center, edge)
    {
      hide Neutral;
      var joy := joysticks[id];
      if Neutral(joy) {
        if joy.pointer.Some? {
          SendTouch(Up, joy.pointer, center);
          joysticks := joysticks[id := joy.(pointer := None)];
        }
      } else if joy.pointer.None? {
        joysticks := joysticks[id := joy.(pointer := Some(pointerIdBase))];
        pointerIdBase := pointerIdBase + 1;
        SendTouch(Down, joysticks[id].pointer, center);
        SendTouch(Move, joysticks[id].pointer, edge);
      } else {
        SendTouch(Move, joy.pointer, edge);
      }
    }

    method HandleSwipe(m: Mapping, isDown: bool, f: Frame, now: real)
      requires m.Swipe?
      modifies this
      ensures State() == OnSwipe(old(State()), m, isDown, f, now)
    {
      var start, end := Scale(m.startPos, f), Scale(m.endPos, f);
      if isDown {
        if m.id in activePointers { return; }
        var ptrId := pointerIdBase;
        pointerIdBase := pointerIdBase + 1;
        activePointers := activePointers[m.id := ptrId];
        SendTouch(Down, Some(ptrId), start);
        strokes := strokes + [Stroke(m.id, ptrId, start, end, now, DurationOf(m))];
      } else if m.id in activePointers {
        SendTouch(Up, Some(activePointers[m.id]), end);
        activePointers := activePointers - {m.id};
      }
    }

    /** The animation callback at a place of the queue of pending ones. */
    method RunFrame(i: nat, now: real)
      requires i < |strokes|
      modifies this
      ensures State() == Animate(old(State()), i, now)
    {
      hide Progress, Between;
      var s := strokes[i];
      strokes := strokes[..i] + strokes[i + 1..];
      if s.id !in activePointers || activePointers[s.id] != s.pointer { return; }
      var progress := Progress(s, now);
      SendTouch(Move, Some(s.pointer), Between(s, progress));
      if progress < 1.0 {
        strokes := strokes + [s];
      }
    }

    method HandleKey(m: Mapping, k: KeyPress, key: string) returns (answered: bool)
      requires key == Lower(k.key)
      modifies this
      ensures State() == OnKey(old(State()), m, k)
      ensures answered == Answers(m, key)
    {
      hide Lower, OnTap, OnStick, OnSwipe;
      answered := false;
      match m {
        case Tap(id, key', pos) =>
          if Lower(key') == key {
            if !k.repeat { HandleTap(id, pos, k.isDown, k.frame); }
            answered := true;
          }
        case Command(key', cmd) =>
          if Lower(key') == key {
            if k.isDown && !k.repeat { commands := commands + [cmd]; }
            answered := true;
          }
        case Joystick(_, keys, _, _) =>
          var direction := DirectionOf(keys, key);
          if direction.Some? {
            if !k.repeat { HandleJoystick(m, direction.value, k.isDown, k.frame); }
            answered := true;
          }
        case Swipe(_, key', _, _, _) =>
          if Lower(key') == key {
            if !k.repeat { HandleSwipe(m, k.isDown, k.frame, k.now); }
            answered := true;
          }
        case _ =>
      }
    }

    /** The wheels in use have state objects. */
    ghost predicate Valid()
      reads this
    {
      Linked(State())
    }

    method HandleKeyEvent(k: KeyPress) returns (consumed: bool)
      requires Valid()
      modifies this
      ensures Valid() && State() == Step(old(State()), Key(k))
      ensures consumed <==>
        old(activeProfile).Some? && exists m :: m in old(activeProfile).value && Answers(m, Lower(k.key))
    {
      hide OnKey, Lower, Answers;
      if activeProfile.None? { return false; }
      var key, mappings := Lower(k.key), activeProfile.value;
      consumed := false;
      for i := 0 to |mappings|
        invariant State() == OnKeys(old(State()), mappings[..i], k)
        invariant consumed <==> exists m :: m in mappings[..i] && Answers(m, key)
      {
        Snoc(mappings, i);
        var answered := HandleKey(mappings[i], k, key);
        consumed := consumed || answered;
      }
      assert mappings[..|mappings|] == mappings;
    }

    // ---------------------------------------------------------------- wheels

    /** The state object of a wheel, made when missing, its timer cleared. */
    method PrepareWheel(id: Id)
      requires Valid()
      modifies this
      ensures State() == Ready(old(State()), id) && Valid() && id in wheels
    {
      if id !in wheels {
        states := states[nextState := NO_WHEEL];
        wheels := wheels[id := nextState];
        nextState := nextState + 1;
      }
      assert State() == Created(old(State()), id);
      var state := states[wheels[id]];
      if state.timeout.Some? {
        timers := timers - {state.timeout.value};
        states := states[wheels[id] := state.(timeout := None)];
      }
    }

    method SetTimeout(id: Id, zoom: bool, spot1: Spot, spot2: Spot)
      requires Valid() && id in wheels
      modifies this
      ensures State() == SetTimer(old(State()), id, zoom, spot1, spot2)
    {
      timers := timers[nextTimer := Timer(id, wheels[id], zoom, spot1, spot2)];
      states := states[wheels[id] := states[wheels[id]].(timeout := Some(nextTimer))];
      nextTimer := nextTimer + 1;
    }

    method BeginScroll(id: Id, at: Spot, deltaY: real, f: Frame)
      requires Valid() && id in wheels
      modifies this
      ensures State() == ScrollStart(old(State()), id, at, deltaY, f)
    {
      hide ScrollFrom, Inside;
      var state, r := states[wheels[id]], wheels[id];
      if state.pointer1.None? {
        state := state.(pointer1 := Some(pointerIdBase));
        pointerIdBase := pointerIdBase + 1;
        state := state.(delta := ScrollFrom(deltaY, f));
        states := states[r := state];
        SendTouch(Down, state.pointer1, Inside(at, state.delta, f));
        assert states == ScrollStart(old(State()), id, at, deltaY, f).states;
      }
    }

    method ContinueScroll(id: Id, at: Spot, deltaY: real, f: Frame)
      requires Valid() && id in wheels
      modifies this
      ensures State() == ScrollOn(old(State()), id, at, deltaY, f)
    {
      hide ScrollTo, Inside, ScrollEnds, SetTimer;
      var r := wheels[id];
      var delta := ScrollTo(states[r].delta, deltaY, f);
      states := states[r := states[r].(delta := delta)];
      if ScrollEnds(at, delta, f) {
        var edge := Inside(at, delta, f);
        SendTouch(Move, states[r].pointer1, edge);
        SendTouch(Up, states[r].pointer1, edge);
        states := states[r := states[r].(pointer1 := None)];
      } else {
        var spot := Spot(at.x, at.y + delta);
        SendTouch(Move, states[r].pointer1, spot);
        SetTimeout(id, false, spot, spot);
      }
    }

    method BeginZoom(id: Id, deltaY: real, f: Frame)
      requires Valid() && id in wheels
      modifies this
      ensures State() == ZoomStart(old(State()), id, deltaY, f)
    {
      hide ZoomFrom, PinchStart, PinchEnd;
      var state, r := states[wheels[id]], wheels[id];
      if state.pointer1.None? {
        state := state.(pointer1 := Some(pointerIdBase));
        pointerIdBase := pointerIdBase + 1;
        state := state.(pointer2 := Some(pointerIdBase));
        pointerIdBase := pointerIdBase + 1;
        state := state.(delta := ZoomFrom(deltaY, f));
        states := states[r := state];
        SendTouch(Down, state.pointer1, PinchStart(f, state.delta));
        SendTouch(Down, state.pointer2, PinchEnd(f, state.delta));
        assert states == ZoomStart(old(State()), id, deltaY, f).states;
      }
    }

    method ContinueZoom(id: Id, deltaY: real, f: Frame)
      requires Valid() && id in wheels
      modifies this
      ensures State() == ZoomOn(old(State()), id, deltaY, f)
    {
      hide ZoomWanted, ZoomTo, ZoomEnds, PinchStart, PinchEnd, SetTimer;
      var r := wheels[id];
      var wanted := ZoomWanted(states[r].delta, deltaY, f);
      var delta := ZoomTo(wanted, f);
      states := states[r := states[r].(delta := delta)];
      var spot1, spot2 := PinchStart(f, delta), PinchEnd(f, delta);
      SendTouch(Move, states[r].pointer1, spot1);
      SendTouch(Move, states[r].pointer2, spot2);
      if ZoomEnds(wanted, f) {
        SendTouch(Up, states[r].pointer1, spot1);
        SendTouch(Up, states[r].pointer2, spot2);
        states := states[r := states[r].(pointer1 := None, pointer2 := None)];
        assert states == ZoomOn(old(State()), id, deltaY, f).states;
      } else {
        SetTimeout(id, true, spot1, spot2);
      }
    }

    method HandleWheel(m: Mapping, deltaY: real, f: Frame)
      requires Valid() && m.Wheel?
      modifies this
      ensures Valid() && State() == OnWheel(old(State()), m, deltaY, f)
    {
      hide Ready, ScrollStart, ScrollOn, ZoomStart, ZoomOn;
      var at := Scale(m.pos, f);
      PrepareWheel(m.id);
      if m.gesture.Scroll? {
        BeginScroll(m.id, at, deltaY, f);
        ContinueScroll(m.id, at, deltaY, f);
      } else if m.gesture.Zoom? {
        BeginZoom(m.id, deltaY, f);
        ContinueZoom(m.id, deltaY, f);
      }
    }

    method HandleWheelEvent(deltaY: real, f: Frame) returns (consumed: bool)
      requires Valid()
      modifies this
      ensures Valid() && State() == Step(old(State()), Turn(deltaY, f))
      ensures consumed <==> old(activeProfile).Some? && exists m :: m in old(activeProfile).value && m.Wheel?
    {
      hide OnWheel;
      if activeProfile.None? { return false; }
      var mappings := activeProfile.value;
      consumed := false;
      for i := 0 to |mappings|
        invariant Valid() && State() == OnWheels(old(State()), mappings[..i], deltaY, f)
        invariant consumed <==> exists m :: m in mappings[..i] && m.Wheel?
      {
        Snoc(mappings, i);
        if mappings[i].Wheel? {
          HandleWheel(mappings[i], deltaY, f);
          consumed := true;
        }
      }
      assert mappings[..|mappings|] == mappings;
    }

    /** The closure of a timer that runs out. */
    method RunTimeout(t: nat)
      requires t in timers && timers[t].wheel in states
      modifies this
      ensures State() == Expire(old(State()), t)
    {
      var timer := timers[t];
      timers := timers - {t};
      var state := states[timer.wheel];
      if state.pointer1.Some? {
        SendTouch(Up, state.pointer1, timer.spot1);
        if timer.zoom {
          SendTouch(Up, state.pointer2, timer.spot2);
          states := states[timer.wheel := state.(pointer1 := None, pointer2 := None)];
        } else {
          states := states[timer.wheel := state.(pointer1 := None)];
        }
      }
    }

    // ---------------------------------------------------------------- release

    method ReleaseTaps(ids: seq<Id>)
      requires Visits(ids, activePointers.Keys)
      modifies this
      ensures State() == ReleaseActive(old(State()), ids)
    {
      hide ReleaseActive, Visits, Seen;
      ghost var all := activePointers;
      SeenAll(ids, all.Keys);
      assert activePointers - Seen(ids[..0]) == activePointers;
      assert ids[0..] == ids;
      for i := 0 to |ids|
        invariant activePointers == all
        invariant ReleaseActive(State().(active := all - Seen(ids[..i])), ids[i..]) == ReleaseActive(old(State()), ids)
      {
        VisitsAt(ids, i, all.Keys);
        ghost var e := State().(active := all - Seen(ids[..i]));
        ReleaseActiveFrom(e, ids, i);
        assert e.active - {ids[i]} == all - Seen(ids[..i + 1]);
        SendTouch(Up, Some(activePointers[ids[i]]), ORIGIN);
      }
      activePointers := map[];
      assert all - Seen(ids[..|ids|]) == map[];
      ReleaseActiveFrom(State(), ids, |ids|);
    }

    method ReleaseJoysticks(ids: seq<Id>)
      requires Visits(ids, joysticks.Keys)
      modifies this
      ensures (forall i | 0 <= i < |ids| :: ids[i] in old(joysticks)) && State() == ReleaseSticks(old(State()), ids)
    {
      hide ReleaseSticks, ReleaseStick;
      assert forall i | 0 <= i < |ids| :: ids[i] in joysticks.Keys;
      assert ids[0..] == ids;
      for i := 0 to |ids|
        invariant joysticks.Keys == old(joysticks.Keys)
        invariant ReleaseSticks(State(), ids[i..]) == ReleaseSticks(old(State()), ids)
      {
        ReleaseSticksFrom(State(), ids, i);
        ReleaseJoystick(ids[i]);
      }
      ReleaseSticksFrom(State(), ids, |ids|);
    }

    method ReleaseJoystick(id: Id)
      requires id in joysticks
      modifies this
      ensures State() == ReleaseStick(old(State()), id) && joysticks.Keys == old(joysticks.Keys)
    {
      if joysticks[id].pointer.Some? {
        SendTouch(Up, joysticks[id].pointer, ORIGIN);
        joysticks := joysticks[id := joysticks[id].(pointer := None)];
      }
      joysticks := joysticks[id := Stick(false, false, false, false, joysticks[id].pointer)];
      assert joysticks == old(joysticks)[id := NO_STICK];
    }

    method ReleaseWheelPointers(ids: seq<Id>)
      requires Valid() && Visits(ids, wheels.Keys)
      modifies this
      ensures CanRelease(old(wheels), ids) && State() == ReleaseWheels(old(State()), ids)
    {
      hide ReleaseWheels, ReleaseWheel, Visits, Seen;
      ghost var all := wheels;
      SeenAll(ids, all.Keys);
      assert wheels - Seen(ids[..0]) == wheels;
      assert ids[0..] == ids;
      for i := 0 to |ids|
        invariant wheels == all && Valid()
        invariant CanRelease(all - Seen(ids[..i]), ids[i..])
        invariant ReleaseWheels(State().(wheels := all - Seen(ids[..i])), ids[i..]) == ReleaseWheels(old(State()), ids)
      {
        VisitsAt(ids, i, all.Keys);
        ghost var e := State().(wheels := all - Seen(ids[..i]));
        ReleaseWheelsFrom(e, ids, i);
        assert e.wheels - {ids[i]} == all - Seen(ids[..i + 1]);
        ReleaseOneWheel(ids[i], Seen(ids[..i]));
      }
      wheels := map[];
      assert all - Seen(ids[..|ids|]) == map[];
      ReleaseWheelsFrom(State(), ids, |ids|);
    }

    /** One turn of the loop over the wheels, which are cleared only after the last. */
    method ReleaseOneWheel(id: Id, ghost done: set<Id>)
      requires Valid() && id in wheels && id !in done
      modifies this
      ensures Valid() && wheels == old(wheels)
      ensures
        var e := old(State()).(wheels := old(wheels) - done);
        State().(wheels := e.wheels - {id}) == ReleaseWheel(e, id)
    {
      var state := states[wheels[id]];
      if state.timeout.Some? {
        timers := timers - {state.timeout.value};
      }
      if state.pointer1.Some? { SendTouch(Up, state.pointer1, ORIGIN); }
      if state.pointer2.Some? { SendTouch(Up, state.pointer2, ORIGIN); }
    }

    /** The maps are walked in any order. */
    method ReleaseAll(walk: Walk)
      requires Valid() && Walks(walk, State())
      modifies this
      ensures Valid() && State() == Release(old(State()), walk)
    {
      hide ReleaseActive, ReleaseSticks, ReleaseWheels;
      ReleaseActiveKeeps(State(), walk.active);
      ReleaseTaps(walk.active);
      assert forall i | 0 <= i < |walk.joysticks| :: walk.joysticks[i] in joysticks.Keys;
      ReleaseSticksKeeps(State(), walk.joysticks);
      ReleaseJoysticks(walk.joysticks);
      ReleaseWheelPointers(walk.wheels);
    }

    method UpdateProfile(profile: Option<seq<Mapping>>, walk: Walk)
      requires Valid() && Walks(walk, State())
      modifies this
      ensures Valid() && State() == Step(old(State()), Update(profile, walk))
    {
      hide Release;
      activeProfile := profile;
      ReleaseAll(walk);
    }
  }

  function Seen(ids: seq<Id>): set<Id> {
    set id | id in ids
  }

  /** The condition under which wheels can be released one after the other. */
  predicate CanRelease(wheels: map<Id, nat>, ids: seq<Id>) {
    (forall i | 0 <= i < |ids| :: ids[i] in wheels) && (forall i, j | 0 <= i < j < |ids| :: ids[i] != ids[j])
  }

  lemma SeenAll(ids: seq<Id>, keys: set<Id>)
    requires Visits(ids, keys)
    ensures Seen(ids[..0]) == {} && Seen(ids[..|ids|]) == keys
    ensures forall wheels: map<Id, nat> | wheels.Keys == keys :: CanRelease(wheels, ids)
  {
    assert ids[..|ids|] == ids;
    assert forall i | 0 <= i < |ids| :: ids[i] in keys;
  }

  lemma ReleaseActiveFrom(e: KeymapModel.Engine, ids: seq<Id>, i: nat)
    requires i <= |ids|
    ensures ReleaseActive(e, ids[i..]) ==
      if i == |ids| then e else ReleaseActive(Lift(e, ActiveOf(ids[i]), ORIGIN), ids[i + 1..])
  {
    hide Lift;
    if i < |ids| { assert ids[i..][0] == ids[i] && ids[i..][1..] == ids[i + 1..]; }
  }

  lemma ReleaseSticksFrom(e: KeymapModel.Engine, ids: seq<Id>, i: nat)
    requires i <= |ids| && forall j | 0 <= j < |ids| :: ids[j] in e.joysticks
    ensures ReleaseSticks(e, ids[i..]) ==
      if i == |ids| then e
      else
        assert ReleaseStick(e, ids[i]).joysticks.Keys == e.joysticks.Keys;
        ReleaseSticks(ReleaseStick(e, ids[i]), ids[i + 1..])
  {
    if i < |ids| { assert ids[i..][0] == ids[i] && ids[i..][1..] == ids[i + 1..]; }
  }

  lemma ReleaseWheelsFrom(e: KeymapModel.Engine, ids: seq<Id>, i: nat)
    requires i <= |ids| && Linked(e) && CanRelease(e.wheels, ids[i..])
    ensures i == |ids| ==> ReleaseWheels(e, ids[i..]) == e
    ensures i < |ids| ==> ids[i] in e.wheels && CanRelease(e.wheels - {ids[i]}, ids[i + 1..])
    ensures i < |ids| ==> ReleaseWheels(e, ids[i..]) == ReleaseWheels(ReleaseWheel(e, ids[i]), ids[i + 1..])
  {
    hide ReleaseWheel;
    if i < |ids| { assert ids[i..][0] == ids[i] && ids[i..][1..] == ids[i + 1..]; }
  }

  lemma VisitsAt(ids: seq<Id>, i: nat, keys: set<Id>)
    requires Visits(ids, keys) && i < |ids|
    ensures ids[i] in keys - Seen(ids[..i]) && Seen(ids[..i + 1]) == Seen(ids[..i]) + {ids[i]}
    ensures ids[i..][0] == ids[i] && ids[i..][1..] == ids[i + 1..]
  {
    assert ids[i] in ids;
    assert ids[..i + 1] == ids[..i] + [ids[i]];
  }

  lemma Snoc<T>(s: seq<T>, i: nat)
    requires i < |s|
    ensures s[..i + 1][..i] == s[..i] && s[..i + 1] == s[..i] + [s[i]]
  {
  }
}

/** Every key a profile maps makes just the touches it should, told from the keys pressed since the last release. */
module KeymapHistory {
  import opened Wrappers
  import opened TouchTrace
  import opened KeymapModel
  import opened KeymapEffects

  lemma RunNext(e: Engine, more: seq<Event>, n: nat)
    requires Linked(e) && n < |more|
    ensures Run(e, more[..n + 1]) == Step(Run(e, more[..n]), more[n])
  {
    hide Step;
    assert more[..n + 1][..n] == more[..n];
  }

  // ---------------------------------------------------------------- what a key leaves alone

  /** Mappings that hold a finger from a key's press to its release. */
  predicate HoldsFinger(m: Mapping) {
    m.Tap? || m.Swipe?
  }

  predicate SameFinger(e: Engine, r: Engine, id: Id) {
    (id in r.active <==> id in e.active) && (id in e.active ==> r.active[id] == e.active[id])
  }

  predicate SameStick(e: Engine, r: Engine, id: Id) {
    (id in r.joysticks <==> id in e.joysticks) && (id in e.joysticks ==> r.joysticks[id] == e.joysticks[id])
  }

  lemma TapKeepsOthers(e: Engine, own: Id, at: Spot, isDown: bool, id: Id)
    ensures own != id ==> SameFinger(e, OnTap(e, own, at, isDown), id)
    ensures SameStick(e, OnTap(e, own, at, isDown), id)
  {
  }

  lemma SwipeKeepsOthers(e: Engine, m: Mapping, isDown: bool, f: Frame, now: real, id: Id)
    requires m.Swipe?
    ensures m.id != id ==> SameFinger(e, OnSwipe(e, m, isDown, f, now), id)
    ensures SameStick(e, OnSwipe(e, m, isDown, f, now), id)
  {
    hide Scale, DurationOf;
  }

  lemma FollowKeepsOthers(e: Engine, own: Id, middle: Spot, rim: Spot, id: Id)
    requires own in e.joysticks
    ensures own != id ==> SameStick(e, Follow(e, own, middle, rim), id)
    ensures Follow(e, own, middle, rim).active == e.active
  {
    hide Neutral;
  }

  lemma StickKeepsOthers(e: Engine, m: Mapping, d: Toward, isDown: bool, f: Frame, id: Id)
    requires m.Joystick?
    ensures m.id != id ==> SameStick(e, OnStick(e, m, d, isDown, f), id)
    ensures SameFinger(e, OnStick(e, m, d, isDown, f), id)
  {
    hide Scale, EdgeOf, Pushed, Follow;
    var stick := Pushed(if m.id in e.joysticks then e.joysticks[m.id] else NO_STICK, d, isDown);
    var e1 := e.(joysticks := e.joysticks[m.id := stick]);
    FollowKeepsOthers(e1, m.id, Scale(m.center, f), EdgeOf(m, stick, f), id);
  }

  lemma OneKeyKeeps(e: Engine, m: Mapping, k: KeyPress, id: Id)
    ensures !(Obeys(m, k.key) && HoldsFinger(m) && m.id == id) ==> SameFinger(e, OnKey(e, m, k), id)
    ensures !(Obeys(m, k.key) && m.Joystick? && m.id == id) ==> SameStick(e, OnKey(e, m, k), id)
  {
    hide Obeys, Answers, Lower, Scale, OnTap, OnSwipe, OnStick, SameFinger, SameStick, DirectionOf;
    ObeysExactly(m, k.key);
    KeptWhole(e, id);
    var f := k.frame;
    if Answers(m, Lower(k.key)) {
      match m
      case Tap(own, _, pos) => TapKeepsOthers(e, own, Scale(pos, f), k.isDown, id);
      case Command(_, cmd) => CommandsKeep(e, e.commands + [cmd], id);
      case Swipe(_, _, _, _, _) => SwipeKeepsOthers(e, m, k.isDown, f, k.now, id);
      case Joystick(_, keys, _, _) =>
        DirectionIsKnown(m, Lower(k.key));
        StickKeepsOthers(e, m, DirectionOf(keys, Lower(k.key)).value, k.isDown, f, id);
      case _ =>
    }
  }

  lemma CommandsKeep(e: Engine, commands: seq<string>, id: Id)
    ensures SameFinger(e, e.(commands := commands), id) && SameStick(e, e.(commands := commands), id)
  {
  }

  lemma DirectionIsKnown(m: Mapping, key: string)
    requires m.Joystick? && Answers(m, key)
    ensures DirectionOf(m.keys, key).Some?
  {
  }

  lemma {:induction false} OtherKeysKeep(e: Engine, ms: seq<Mapping>, k: KeyPress, id: Id)
    ensures (forall i | 0 <= i < |ms| :: !(Obeys(ms[i], k.key) && HoldsFinger(ms[i]) && ms[i].id == id))
      ==> SameFinger(e, OnKeys(e, ms, k), id)
    ensures (forall i | 0 <= i < |ms| :: !(Obeys(ms[i], k.key) && ms[i].Joystick? && ms[i].id == id))
      ==> SameStick(e, OnKeys(e, ms, k), id)
    decreases |ms|
  {
    hide OnKey, Obeys, SameFinger, SameStick;
    if ms == [] {
      KeptWhole(e, id);
    } else {
      var front, last := ms[..|ms| - 1], ms[|ms| - 1];
      var before := OnKeys(e, front, k);
      OtherKeysKeep(e, front, k, id);
      OneKeyKeeps(before, last, k, id);
      assert forall i | 0 <= i < |front| :: front[i] == ms[i];
      KeptOn(e, before, OnKey(before, last, k), id);
    }
  }

  lemma KeptWhole(e: Engine, id: Id)
    ensures SameFinger(e, e, id) && SameStick(e, e, id)
  {
  }

  lemma KeptOn(e: Engine, r: Engine, s: Engine, id: Id)
    ensures SameFinger(e, r, id) && SameFinger(r, s, id) ==> SameFinger(e, s, id)
    ensures SameStick(e, r, id) && SameStick(r, s, id) ==> SameStick(e, s, id)
  {
  }

  /** No release in between, and no change of profile. */
  predicate NoReleases(more: seq<Event>) {
    forall i | 0 <= i < |more| :: !more[i].Update? && !more[i].ReleaseAll?
  }

  /** What is not a key moves no key. */
  lemma OthersKeep(e: Engine, event: Event)
    requires Linked(e) && !event.Key? && !event.Update? && !event.ReleaseAll?
    ensures
      var r := Step(e, event);
      r.profile == e.profile && r.active == e.active && r.joysticks == e.joysticks && r.commands == e.commands
  {
    hide OnWheels, Animate, Expire;
    match event
    case Turn(deltaY, f) => if e.profile.Some? { TurnLeaves(e, e.profile.value, deltaY, f); }
    case Paint(i, now) => if i < |e.strokes| { FrameLeaves(e, i, now); }
    case Timeout(t) => if t in e.timers && e.timers[t].wheel in e.states { TimeoutLeaves(e, t); }
    case _ =>
  }

  // ---------------------------------------------------------------- taps and swipes

  /** Where a mapping's finger goes down in a frame, and where it goes up: its places are parts of the frame. */
  function DownAt(m: Mapping, f: Frame): Spot
    requires HoldsFinger(m)
  {
    if m.Tap? then Spot(m.pos.x * f.width, m.pos.y * f.height)
    else Spot(m.startPos.x * f.width, m.startPos.y * f.height)
  }

  function UpAt(m: Mapping, f: Frame): Spot
    requires HoldsFinger(m)
  {
    if m.Tap? then Spot(m.pos.x * f.width, m.pos.y * f.height)
    else Spot(m.endPos.x * f.width, m.endPos.y * f.height)
  }

  /** Only one mapping obeys its key, and no other shares its identity. */
  predicate Sole(ms: seq<Mapping>, j: nat)
    requires j < |ms| && HoldsFinger(ms[j])
  {
    forall i | 0 <= i < |ms| && i != j ::
      !Obeys(ms[i], ms[j].key) && !(HoldsFinger(ms[i]) && ms[i].id == ms[j].id)
  }

  lemma ObeysAlike(m: Mapping, a: string, b: string)
    requires Alike(a, b)
    ensures Obeys(m, a) <==> Obeys(m, b)
  {
    hide Obeys, Alike;
    LowerExactly(a, b);
    ObeysExactly(m, a);
    ObeysExactly(m, b);
  }

  /** The press that holds a key's finger before an event, if any; repeats do not count. */
  function HeldBy(more: seq<Event>, key: string, n: nat): (d: Option<nat>)
    requires n <= |more|
    ensures d.Some? ==> d.value < n
  {
    if n == 0 then None
    else
      var before := HeldBy(more, key, n - 1);
      if !more[n - 1].Key? || more[n - 1].press.repeat || !Alike(key, more[n - 1].press.key) then before
      else if !more[n - 1].press.isDown then None
      else if before.Some? then before
      else Some(n - 1)
  }

  /** What a key event does to its mapping's finger. */
  predicate Fingers(e: Engine, r: Engine, m: Mapping, k: KeyPress)
    requires HoldsFinger(m)
  {
    var down, up := DownAt(m, k.frame), UpAt(m, k.frame);
    if k.repeat || k.isDown == (m.id in e.active) then r == e
    else if k.isDown then
      && r.sent == e.sent + [Touch(Down, Some(e.base), down.x, down.y)]
      && m.id in r.active && r.active[m.id] == e.base && r.base == e.base + 1
    else
      && r.sent == e.sent + [Touch(Up, Some(e.active[m.id]), up.x, up.y)]
      && m.id !in r.active
  }

  lemma OneTap(e: Engine, m: Mapping, k: KeyPress)
    requires m.Tap? && !k.repeat
    ensures Fingers(e, OnTap(e, m.id, Scale(m.pos, k.frame), k.isDown), m, k)
  {
    assert Scale(m.pos, k.frame) == DownAt(m, k.frame) == UpAt(m, k.frame);
  }

  lemma OneSwipe(e: Engine, m: Mapping, k: KeyPress)
    requires m.Swipe? && !k.repeat
    ensures Fingers(e, OnSwipe(e, m, k.isDown, k.frame, k.now), m, k)
  {
    hide DurationOf;
    assert Scale(m.startPos, k.frame) == DownAt(m, k.frame) && Scale(m.endPos, k.frame) == UpAt(m, k.frame);
  }

  lemma OneFinger(e: Engine, m: Mapping, k: KeyPress)
    requires HoldsFinger(m) && Obeys(m, k.key)
    ensures Fingers(e, OnKey(e, m, k), m, k)
  {
    ObeysExactly(m, k.key);
    hide Obeys, Answers, Lower, OnTap, OnSwipe;
    if !k.repeat {
      if m.Tap? { OneTap(e, m, k); } else { OneSwipe(e, m, k); }
    }
  }

  lemma FingerStep(e: Engine, ms: seq<Mapping>, j: nat, event: Event)
    requires Linked(e) && e.profile == Some(ms) && j < |ms| && HoldsFinger(ms[j]) && Sole(ms, j)
    requires !event.Update? && !event.ReleaseAll?
    ensures Step(e, event).profile == Some(ms)
    ensures
      if event.Key? && Alike(ms[j].key, event.press.key) then Fingers(e, Step(e, event), ms[j], event.press)
      else SameFinger(e, Step(e, event), ms[j].id)
  {
    hide Obeys, Fingers, OnKey, Alike;
    if event.Key? {
      hide OnKeys;
      KeysSend(e, ms, event.press);
      var m, k := ms[j], event.press;
      if Alike(m.key, k.key) {
        forall i | 0 <= i < |ms| && i != j ensures !Obeys(ms[i], k.key) { ObeysAlike(ms[i], m.key, k.key); }
        OnlyOne(e, ms, k, j);
        ObeysItself(m, k.key);
        OneFinger(e, m, k);
      } else {
        ObeysItself(m, k.key);
        OtherKeysKeep(e, ms, k, m.id);
      }
    } else {
      OthersKeep(e, event);
    }
  }

  lemma ObeysItself(m: Mapping, key: string)
    requires HoldsFinger(m)
    ensures Obeys(m, key) <==> Alike(m.key, key)
  {
  }

  // ---------------------------------------------------------------- runs since a release

  /** A profile was just taken over: nothing is pressed, and every finger so far is numbered from ten up to the next. */
  predicate Started(e: Engine, ms: seq<Mapping>) {
    && Linked(e) && e.profile == Some(ms) && e.active == map[]
    && (forall id | id in e.joysticks :: e.joysticks[id] == NO_STICK)
    && Counted(e)
  }

  predicate Counted(e: Engine) {
    FIRST_TOUCH_ID <= e.base
    && forall i | 0 <= i < |e.sent| && e.sent[i].action.Down? ::
         e.sent[i].pointer.Some? && FIRST_TOUCH_ID <= e.sent[i].pointer.value < e.base
  }

  lemma SendsCount(e: Engine, r: Engine)
    requires Counted(e) && Sends(e, r)
    ensures Counted(r)
  {
    assert forall i | 0 <= i < |e.sent| :: r.sent[i] == e.sent[i];
  }

  lemma {:induction false} RunsCount(e: Engine, more: seq<Event>)
    requires Linked(e) && Counted(e)
    ensures Counted(Run(e, more))
  {
    hide Step, Counted, Sends;
    if more != [] {
      var front := more[..|more| - 1];
      RunsCount(e, front);
      StepSends(Run(e, front), more[|more| - 1]);
      SendsCount(Run(e, front), Run(e, more));
    }
  }

  lemma FreshCounts()
    ensures Linked(Fresh()) && Counted(Fresh())
  {
  }

  /** Taking over a profile, after any run at all, is such a start. */
  lemma UpdateStarts(events: seq<Event>, ms: seq<Mapping>, walk: Walk)
    requires Walks(walk, Run(Fresh(), events))
    ensures Started(Run(Fresh(), events + [Update(Some(ms), walk)]), ms)
  {
    hide Run, Release, Counted, Walks, Sends;
    var e, all := Run(Fresh(), events), events + [Update(Some(ms), walk)];
    assert all[..|events|] == events && all[..|events| + 1] == all;
    FreshCounts();
    RunNext(Fresh(), all, |events|);
    RunsCount(Fresh(), events);
    SameWalks(e, Some(ms), walk);
    ReleaseTells(e.(profile := Some(ms)), walk);
    StepSends(e, Update(Some(ms), walk));
    SendsCount(e, Run(Fresh(), all));
  }

  /** The number of the finger that an event put down last. */
  function FingerOf(e: Engine, more: seq<Event>, d: nat): Option<nat>
    requires Linked(e) && d < |more|
  {
    var sent := Run(e, more[..d + 1]).sent;
    if sent == [] then None else Last(sent).pointer
  }

  /** A mapping holds a finger exactly while its key is held, the one it put down when the key was pressed. */
  lemma {:induction false} FingersHeld(e: Engine, ms: seq<Mapping>, j: nat, more: seq<Event>, n: nat)
    requires Started(e, ms) && j < |ms| && HoldsFinger(ms[j]) && Sole(ms, j) && NoReleases(more) && n <= |more|
    ensures
      var r, held := Run(e, more[..n]), HeldBy(more, ms[j].key, n);
      && r.profile == Some(ms) && (ms[j].id in r.active <==> held.Some?)
      && (held.Some? ==> FingerOf(e, more, held.value) == Some(r.active[ms[j].id]))
    decreases n
  {
    hide Step, Sole, Alike;
    if n > 0 {
      FingersHeld(e, ms, j, more, n - 1);
      RunNext(e, more, n - 1);
      FingerStep(Run(e, more[..n - 1]), ms, j, more[n - 1]);
    }
  }

  /** No finger so far has a number. */
  predicate Unused(sent: seq<Touch>, p: Option<nat>) {
    p.Some? && FIRST_TOUCH_ID <= p.value && forall i | 0 <= i < |sent| && sent[i].action.Down? :: sent[i].pointer != p
  }

  /**
   * Since a profile was taken over, whatever came before: a key that one tap or swipe alone obeys puts down a finger
   * that was never used before, at that mapping's start, when it is pressed and not held. When it is let go it lifts
   * just that finger, at the mapping's end. Repeats, and presses and releases that change nothing, send nothing.
   */
  lemma FingersExactly(events: seq<Event>, ms: seq<Mapping>, walk: Walk, j: nat, more: seq<Event>, n: nat)
    requires Walks(walk, Run(Fresh(), events)) && j < |ms| && HoldsFinger(ms[j]) && Sole(ms, j)
    requires NoReleases(more) && n < |more| && more[n].Key? && Alike(ms[j].key, more[n].press.key)
    ensures
      var e, k, held := Run(Fresh(), events + [Update(Some(ms), walk)]), more[n].press, HeldBy(more, ms[j].key, n);
      var before, after := Run(e, more[..n]).sent, Run(e, more[..n + 1]).sent;
      if !k.repeat && k.isDown && held.None? then
        var p, at := FingerOf(e, more, n), DownAt(ms[j], k.frame);
        Unused(before, p) && after == before + [Touch(Down, p, at.x, at.y)] && p.value in TouchTrace.Held(after)
      else if !k.repeat && !k.isDown && held.Some? then
        var p, at := FingerOf(e, more, held.value), UpAt(ms[j], k.frame);
        p.Some? && after == before + [Touch(Up, p, at.x, at.y)] && p.value !in TouchTrace.Held(after)
      else after == before
  {
    hide Step, Sole, Alike, Walks, Counted, TouchTrace.Held;
    UpdateStarts(events, ms, walk);
    var e := Run(Fresh(), events + [Update(Some(ms), walk)]);
    FingersHeld(e, ms, j, more, n);
    RunNext(e, more, n);
    var r := Run(e, more[..n]);
    RunsCount(e, more[..n]);
    FingerStep(r, ms, j, more[n]);
    var after := Run(e, more[..n + 1]).sent;
    if after != r.sent {
      SafeAppend(r.sent, Last(after));
      CountedUnused(r);
    }
  }

  lemma CountedUnused(e: Engine)
    requires Counted(e)
    ensures Unused(e.sent, Some(e.base))
  {
  }

  // ---------------------------------------------------------------- swipes, frame by frame

  /** A swipe that is pressed waits for its first frame. */
  lemma SwipeQueues(e: Engine, m: Mapping, k: KeyPress)
    requires m.Swipe? && Obeys(m, k.key) && !k.repeat && k.isDown && m.id !in e.active
    ensures
      var length := if m.duration == 0.0 then 150.0 else m.duration;
      OnKey(e, m, k).strokes ==
        e.strokes + [Stroke(m.id, e.base, DownAt(m, k.frame), UpAt(m, k.frame), k.now, length)]
  {
    ObeysExactly(m, k.key);
    hide Obeys, Answers, Lower;
    assert Scale(m.startPos, k.frame) == DownAt(m, k.frame) && Scale(m.endPos, k.frame) == UpAt(m, k.frame);
  }

  /** How far a stroke is at a time: the part of its duration that has passed, and no more than all of it. */
  function PartOf(s: Stroke, now: real): real
    requires s.duration != 0.0
  {
    if (now - s.startTime) / s.duration >= 1.0 then 1.0 else (now - s.startTime) / s.duration
  }

  /** Where a stroke is when a part of it is done. */
  function PlaceOf(s: Stroke, part: real): Spot {
    Spot(s.start.x + (s.end.x - s.start.x) * part, s.start.y + (s.end.y - s.start.y) * part)
  }

  /** A frame moves a stroke's finger on, and waits for the next, until it is there; it moves no lifted finger. */
  lemma FrameTells(e: Engine, i: nat, now: real)
    requires Linked(e) && i < |e.strokes| && e.strokes[i].duration != 0.0
    ensures
      var s, r := e.strokes[i], Step(e, Paint(i, now));
      var rest, part := e.strokes[..i] + e.strokes[i + 1..], PartOf(s, now);
      var at := PlaceOf(s, part);
      if s.id in e.active && e.active[s.id] == s.pointer then
        r.sent == e.sent + [Touch(Move, Some(s.pointer), at.x, at.y)]
        && r.strokes == if part < 1.0 then rest + [s] else rest
      else r.sent == e.sent && r.strokes == rest
  {
    var s := e.strokes[i];
    PartIsProgress(s, now);
    hide PartOf, PlaceOf, Progress, Between;
  }

  lemma PartIsProgress(s: Stroke, now: real)
    requires s.duration != 0.0
    ensures PartOf(s, now) == Progress(s, now) && PlaceOf(s, PartOf(s, now)) == Between(s, PartOf(s, now))
  {
  }

  // ---------------------------------------------------------------- commands, and keys that do nothing

  /** Repeats, keys that nothing obeys, and keys and turns without a profile change nothing. */
  lemma NothingHappens(e: Engine, event: Event)
    requires Linked(e) && (event.Key? || (event.Turn? && e.profile.None?))
    requires event.Key? && e.profile.Some? ==>
      event.press.repeat || forall m | m in e.profile.value :: !Obeys(m, event.press.key)
    ensures Step(e, event) == e
  {
    if event.Key? && e.profile.Some? { AllDisobey(e, e.profile.value, event.press); }
  }

  lemma {:induction false} AllDisobey(e: Engine, ms: seq<Mapping>, k: KeyPress)
    requires k.repeat || forall m | m in ms :: !Obeys(m, k.key)
    ensures OnKeys(e, ms, k) == e
    decreases |ms|
  {
    hide Obeys, Answers, Lower;
    if ms != [] {
      AllDisobey(e, ms[..|ms| - 1], k);
      if !k.repeat { Disobeyed(e, ms[|ms| - 1], k); }
    }
  }

  /** The commands a key gives, in the profile's order. */
  function CommandsFor(ms: seq<Mapping>, key: string): seq<string> {
    if ms == [] then []
    else
      var last := ms[|ms| - 1];
      CommandsFor(ms[..|ms| - 1], key) + if last.Command? && Alike(last.key, key) then [last.cmd] else []
  }

  /** A key that is pressed gives the profile's commands for it; let go, or repeated, or without a profile, none. */
  lemma CommandsExactly(e: Engine, k: KeyPress)
    requires Linked(e)
    ensures
      var given := if e.profile.Some? && k.isDown && !k.repeat then CommandsFor(e.profile.value, k.key) else [];
      Step(e, Key(k)).commands == e.commands + given
  {
    if e.profile.Some? { AllCommands(e, e.profile.value, k); }
  }

  lemma {:induction false} AllCommands(e: Engine, ms: seq<Mapping>, k: KeyPress)
    ensures OnKeys(e, ms, k).commands == e.commands + if k.isDown && !k.repeat then CommandsFor(ms, k.key) else []
    decreases |ms|
  {
    hide OnKey, Alike;
    if ms != [] {
      AllCommands(e, ms[..|ms| - 1], k);
      OneCommands(OnKeys(e, ms[..|ms| - 1], k), ms[|ms| - 1], k);
    }
  }

  lemma OneCommands(e: Engine, m: Mapping, k: KeyPress)
    ensures OnKey(e, m, k).commands ==
      if m.Command? && Alike(m.key, k.key) && k.isDown && !k.repeat then e.commands + [m.cmd] else e.commands
  {
    ObeysExactly(m, k.key);
    hide Alike, Answers, Lower, Scale, EdgeOf, Pushed, Neutral, DirectionOf, DurationOf;
  }

  // ---------------------------------------------------------------- sticks

  /** An event pushes a stick, or lets go of it: one of its keys, and no repeat of it. */
  predicate Pushes(event: Event, keys: Keys) {
    event.Key? && !event.press.repeat && PushOf(keys, event.press.key).Some?
  }

  /** A stick is pushed in a direction: the last key for it was pressed and not let go. */
  predicate PushedTo(more: seq<Event>, keys: Keys, d: Toward, n: nat)
    requires n <= |more|
  {
    n > 0 &&
    var event := more[n - 1];
    if Pushes(event, keys) && PushOf(keys, event.press.key) == Some(d) then event.press.isDown
    else PushedTo(more, keys, d, n - 1)
  }

  /** The pushes to the right and to the left, and those down and up, weighed against each other. */
  function Sideways(more: seq<Event>, keys: Keys, n: nat): real
    requires n <= |more|
  {
    (if PushedTo(more, keys, Rightward, n) then 1.0 else 0.0) - (if PushedTo(more, keys, Leftward, n) then 1.0 else 0.0)
  }

  function Lengthways(more: seq<Event>, keys: Keys, n: nat): real
    requires n <= |more|
  {
    (if PushedTo(more, keys, Downward, n) then 1.0 else 0.0) - (if PushedTo(more, keys, Upward, n) then 1.0 else 0.0)
  }

  predicate Tilted(more: seq<Event>, keys: Keys, n: nat)
    requires n <= |more|
  {
    Sideways(more, keys, n) != 0.0 || Lengthways(more, keys, n) != 0.0
  }

  /** The event that began a stick's tilt before an event, if it is tilted. */
  function TiltedBy(more: seq<Event>, keys: Keys, n: nat): (d: Option<nat>)
    requires n <= |more|
    ensures d.Some? <==> Tilted(more, keys, n)
    ensures d.Some? ==> d.value < n
  {
    if !Tilted(more, keys, n) then None
    else if TiltedBy(more, keys, n - 1).Some? then TiltedBy(more, keys, n - 1)
    else Some(n - 1)
  }

  function MiddleOf(m: Mapping, f: Frame): Spot
    requires m.Joystick?
  {
    Spot(m.center.x * f.width, m.center.y * f.height)
  }

  /** A radius away from the middle, the same straight and slanting; the radius is a part of the width. */
  function RimOf(m: Mapping, x: real, y: real, f: Frame): Spot
    requires m.Joystick?
  {
    var length := if x != 0.0 && y != 0.0 then 1.4142135623730951 else 1.0;
    Spot(m.center.x * f.width + x / length * (m.radius * f.width),
         m.center.y * f.height + y / length * (m.radius * f.width))
  }

  lemma RimIsEdge(m: Mapping, s: Stick, f: Frame)
    requires m.Joystick?
    ensures EdgeOf(m, s, f) == RimOf(m, Across(s), Along(s), f) && Scale(m.center, f) == MiddleOf(m, f)
  {
  }

  /** One mapping alone has a stick's identity, and alone obeys its keys. */
  predicate SoleStick(ms: seq<Mapping>, j: nat)
    requires j < |ms| && ms[j].Joystick?
  {
    var keys := ms[j].keys;
    forall i | 0 <= i < |ms| && i != j ::
      !(ms[i].Joystick? && ms[i].id == ms[j].id)
      && !Obeys(ms[i], keys.up) && !Obeys(ms[i], keys.down) && !Obeys(ms[i], keys.left) && !Obeys(ms[i], keys.right)
  }

  function StickAt(e: Engine, id: Id): Stick {
    if id in e.joysticks then e.joysticks[id] else NO_STICK
  }

  /** A stick after a key: pushed anew in one direction, with a finger exactly while it is tilted. */
  predicate Sticks(e: Engine, r: Engine, m: Mapping, d: Toward, isDown: bool, f: Frame)
    requires m.Joystick?
  {
    var s, t := StickAt(e, m.id), StickAt(r, m.id);
    var middle, rim := MiddleOf(m, f), RimOf(m, Across(t), Along(t), f);
    && t.up == (if d.Upward? then isDown else s.up) && t.down == (if d.Downward? then isDown else s.down)
    && t.left == (if d.Leftward? then isDown else s.left) && t.right == (if d.Rightward? then isDown else s.right)
    && if Across(t) == 0.0 && Along(t) == 0.0 then
         t.pointer.None?
         && r.sent == if s.pointer.None? then e.sent else e.sent + [Touch(Up, s.pointer, middle.x, middle.y)]
       else if s.pointer.None? then
         t.pointer == Some(e.base)
         && r.sent == e.sent + [Touch(Down, t.pointer, middle.x, middle.y)] + [Touch(Move, t.pointer, rim.x, rim.y)]
       else t.pointer == s.pointer && r.sent == e.sent + [Touch(Move, t.pointer, rim.x, rim.y)]
  }

  lemma PushedTells(s: Stick, d: Toward, isDown: bool)
    ensures
      var t := Pushed(s, d, isDown);
      && t.pointer == s.pointer
      && t.up == (if d.Upward? then isDown else s.up) && t.down == (if d.Downward? then isDown else s.down)
      && t.left == (if d.Leftward? then isDown else s.left) && t.right == (if d.Rightward? then isDown else s.right)
  {
  }

  lemma FollowTells(e: Engine, id: Id, middle: Spot, rim: Spot)
    requires id in e.joysticks
    ensures
      var s, r := e.joysticks[id], Follow(e, id, middle, rim);
      && id in r.joysticks && r.joysticks[id] == s.(pointer := r.joysticks[id].pointer) &&
      var p := r.joysticks[id].pointer;
      if Across(s) == 0.0 && Along(s) == 0.0 then
        p.None? && r.sent == if s.pointer.None? then e.sent else e.sent + [Touch(Up, s.pointer, middle.x, middle.y)]
      else if s.pointer.None? then
        p == Some(e.base)
        && r.sent == e.sent + [Touch(Down, p, middle.x, middle.y)] + [Touch(Move, p, rim.x, rim.y)]
      else p == s.pointer && r.sent == e.sent + [Touch(Move, p, rim.x, rim.y)]
  {
    assert Neutral(e.joysticks[id]) <==> Across(e.joysticks[id]) == 0.0 && Along(e.joysticks[id]) == 0.0;
    hide Across, Along, Neutral;
  }

  lemma SameTilt(s: Stick, t: Stick)
    requires t == s.(pointer := t.pointer)
    ensures Across(t) == Across(s) && Along(t) == Along(s)
  {
  }

  lemma OneStick(e: Engine, m: Mapping, d: Toward, isDown: bool, f: Frame)
    requires m.Joystick?
    ensures Sticks(e, OnStick(e, m, d, isDown, f), m, d, isDown, f)
  {
    hide EdgeOf, RimOf, MiddleOf, Scale, Across, Along, Pushed, Follow;
    var stick := Pushed(StickAt(e, m.id), d, isDown);
    RimIsEdge(m, stick, f);
    PushedTells(StickAt(e, m.id), d, isDown);
    FollowTells(e.(joysticks := e.joysticks[m.id := stick]), m.id, MiddleOf(m, f),
                RimOf(m, Across(stick), Along(stick), f));
    SameTilt(stick, StickAt(OnStick(e, m, d, isDown, f), m.id));
  }

  lemma StickStep(e: Engine, ms: seq<Mapping>, j: nat, event: Event)
    requires Linked(e) && e.profile == Some(ms) && j < |ms| && ms[j].Joystick? && SoleStick(ms, j)
    requires !event.Update? && !event.ReleaseAll?
    ensures Step(e, event).profile == Some(ms)
    ensures
      if Pushes(event, ms[j].keys) then
        var k := event.press;
        Sticks(e, Step(e, event), ms[j], PushOf(ms[j].keys, k.key).value, k.isDown, k.frame)
      else StickAt(Step(e, event), ms[j].id) == StickAt(e, ms[j].id)
  {
    hide Obeys, Sticks, OnKey, Alike, PushOf;
    if event.Key? {
      hide OnKeys;
      KeysSend(e, ms, event.press);
      var m, k := ms[j], event.press;
      PushObeys(m, k.key);
      if PushOf(m.keys, k.key).Some? {
        OnlyThis(ms, j, k.key);
        OnlyOne(e, ms, k, j);
        OneStickKey(e, m, k);
      } else {
        OtherKeysKeep(e, ms, k, m.id);
      }
    } else {
      OthersKeep(e, event);
    }
  }

  lemma PushObeys(m: Mapping, key: string)
    requires m.Joystick?
    ensures Obeys(m, key) <==> PushOf(m.keys, key).Some?
  {
  }

  lemma OnlyThis(ms: seq<Mapping>, j: nat, key: string)
    requires j < |ms| && ms[j].Joystick? && SoleStick(ms, j) && PushOf(ms[j].keys, key).Some?
    ensures forall i | 0 <= i < |ms| && i != j :: !Obeys(ms[i], key)
  {
    hide Obeys, Alike;
    var keys := ms[j].keys;
    var named :| named in [keys.up, keys.down, keys.left, keys.right] && Alike(named, key);
    forall i | 0 <= i < |ms| && i != j ensures !Obeys(ms[i], key) { ObeysAlike(ms[i], named, key); }
  }

  lemma OneStickKey(e: Engine, m: Mapping, k: KeyPress)
    requires m.Joystick? && PushOf(m.keys, k.key).Some?
    ensures
      if k.repeat then OnKey(e, m, k) == e
      else Sticks(e, OnKey(e, m, k), m, PushOf(m.keys, k.key).value, k.isDown, k.frame)
  {
    hide Obeys, PushOf, Sticks, Lower, OnStick;
    ObeysExactly(m, k.key);
    if !k.repeat { OneStick(e, m, PushOf(m.keys, k.key).value, k.isDown, k.frame); }
  }

  /** What a stick holds before an event: the keys pushed, and the finger that the tilt began with. */
  predicate StickFits(e: Engine, r: Engine, m: Mapping, more: seq<Event>, n: nat)
    requires Linked(e) && m.Joystick? && n <= |more|
  {
    var s, start := StickAt(r, m.id), TiltedBy(more, m.keys, n);
    && (s.up <==> PushedTo(more, m.keys, Upward, n)) && (s.down <==> PushedTo(more, m.keys, Downward, n))
    && (s.left <==> PushedTo(more, m.keys, Leftward, n)) && (s.right <==> PushedTo(more, m.keys, Rightward, n))
    && s.pointer.Some? == start.Some? && (start.Some? ==> FingerOf(e, more, start.value) == s.pointer)
  }

  lemma {:induction false} SticksHeld(e: Engine, ms: seq<Mapping>, j: nat, more: seq<Event>, n: nat)
    requires Started(e, ms) && j < |ms| && ms[j].Joystick? && SoleStick(ms, j) && NoReleases(more) && n <= |more|
    ensures Run(e, more[..n]).profile == Some(ms) && StickFits(e, Run(e, more[..n]), ms[j], more, n)
    decreases n
  {
    hide Step, SoleStick, Pushes, StickFits, Run;
    if n == 0 {
      NothingPushed(e, ms, j, more);
    } else {
      SticksHeld(e, ms, j, more, n - 1);
      RunNext(e, more, n - 1);
      var before := Run(e, more[..n - 1]);
      StickStep(before, ms, j, more[n - 1]);
      if Pushes(more[n - 1], ms[j].keys) {
        StickMoved(e, before, Run(e, more[..n]), ms[j], more, n);
      } else {
        StickRests(e, before, Run(e, more[..n]), ms[j], more, n);
      }
    }
  }

  lemma NothingPushed(e: Engine, ms: seq<Mapping>, j: nat, more: seq<Event>)
    requires Started(e, ms) && j < |ms| && ms[j].Joystick?
    ensures Run(e, more[..0]) == e && StickFits(e, e, ms[j], more, 0)
  {
  }

  lemma PushedNext(more: seq<Event>, keys: Keys, n: nat)
    requires 0 < n <= |more|
    ensures !Pushes(more[n - 1], keys) ==>
      && (forall d :: PushedTo(more, keys, d, n) == PushedTo(more, keys, d, n - 1))
      && TiltedBy(more, keys, n) == TiltedBy(more, keys, n - 1)
  {
    hide Pushes, PushOf;
    if !Pushes(more[n - 1], keys) {
      forall d ensures PushedTo(more, keys, d, n) == PushedTo(more, keys, d, n - 1) {}
    }
  }

  lemma StickRests(e: Engine, before: Engine, r: Engine, m: Mapping, more: seq<Event>, n: nat)
    requires Linked(e) && m.Joystick? && 0 < n <= |more| && StickFits(e, before, m, more, n - 1)
    requires !Pushes(more[n - 1], m.keys) && StickAt(r, m.id) == StickAt(before, m.id)
    ensures StickFits(e, r, m, more, n)
  {
    hide Pushes, PushedTo, StickAt, TiltedBy, FingerOf;
    PushedNext(more, m.keys, n);
  }

  lemma StickMoved(e: Engine, before: Engine, r: Engine, m: Mapping, more: seq<Event>, n: nat)
    requires Linked(e) && m.Joystick? && 0 < n <= |more| && StickFits(e, before, m, more, n - 1)
    requires Pushes(more[n - 1], m.keys) && r == Run(e, more[..n])
    requires
      var k := more[n - 1].press;
      Sticks(before, r, m, PushOf(m.keys, k.key).value, k.isDown, k.frame)
    ensures StickFits(e, r, m, more, n)
  {
    hide PushOf, StickAt, RimOf, MiddleOf, Run;
    var k := more[n - 1].press;
    forall d ensures PushedTo(more, m.keys, d, n) ==
        if PushOf(m.keys, k.key) == Some(d) then k.isDown else PushedTo(more, m.keys, d, n - 1)
    {
    }
    hide PushedTo;
    assert Across(StickAt(r, m.id)) == Sideways(more, m.keys, n);
    assert Along(StickAt(r, m.id)) == Lengthways(more, m.keys, n);
  }

  /**
   * Since a profile was taken over: the keys of a stick that one mapping alone obeys move one finger. The first push
   * that tilts the stick puts down a finger never used before in the middle and moves it to the rim; every further key
   * that leaves the stick tilted moves that finger to the rim where the keys now push; the key that brings it back to
   * the middle lifts that finger there. Keys that leave it in the middle send nothing.
   */
  lemma SticksExactly(events: seq<Event>, ms: seq<Mapping>, walk: Walk, j: nat, more: seq<Event>, n: nat)
    requires Walks(walk, Run(Fresh(), events)) && j < |ms| && ms[j].Joystick? && SoleStick(ms, j)
    requires NoReleases(more) && n < |more| && Pushes(more[n], ms[j].keys)
    ensures
      var e, m, f := Run(Fresh(), events + [Update(Some(ms), walk)]), ms[j], more[n].press.frame;
      var before, after := Run(e, more[..n]).sent, Run(e, more[..n + 1]).sent;
      var began, tilted, middle := TiltedBy(more, m.keys, n), Tilted(more, m.keys, n + 1), MiddleOf(m, f);
      var rim := RimOf(m, Sideways(more, m.keys, n + 1), Lengthways(more, m.keys, n + 1), f);
      if began.None? && tilted then
        var p := FingerOf(e, more, n);
        Unused(before, p)
        && after == before + [Touch(Down, p, middle.x, middle.y)] + [Touch(Move, p, rim.x, rim.y)]
      else if began.None? then after == before
      else
        var p := FingerOf(e, more, began.value);
        p.Some? && after == before + [if tilted then Touch(Move, p, rim.x, rim.y) else Touch(Up, p, middle.x, middle.y)]
  {
    hide Step, SoleStick, Pushes, PushOf, Walks, Counted, Run, StickAt, RimOf, MiddleOf, PushedTo;
    UpdateStarts(events, ms, walk);
    var e := Run(Fresh(), events + [Update(Some(ms), walk)]);
    SticksHeld(e, ms, j, more, n);
    SticksHeld(e, ms, j, more, n + 1);
    RunNext(e, more, n);
    RunsCount(e, more[..n]);
    CountedUnused(Run(e, more[..n]));
    StickStep(Run(e, more[..n]), ms, j, more[n]);
    var t := StickAt(Run(e, more[..n + 1]), ms[j].id);
    assert Across(t) == Sideways(more, ms[j].keys, n + 1) && Along(t) == Lengthways(more, ms[j].keys, n + 1);
  }
}

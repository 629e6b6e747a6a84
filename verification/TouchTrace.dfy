/** The touch stream an engine emits, and what makes it acceptable to a device. */
module TouchTrace {
  import opened Wrappers

  datatype Action = Down | Up | Move

  /** A pointer of None is JavaScript's null. */
  datatype Touch = Touch(action: Action, pointer: Option<nat>, x: real, y: real)

  function Last(t: seq<Touch>): Touch
    requires t != []
  {
    t[|t| - 1]
  }

  function Front(t: seq<Touch>): seq<Touch>
    requires t != []
  {
    t[..|t| - 1]
  }

  /** Pointers that went down at some time. */
  ghost function Used(t: seq<Touch>): set<nat> {
    if t == [] then {}
    else Used(Front(t)) + (if Last(t).action.Down? && Last(t).pointer.Some? then {Last(t).pointer.value} else {})
  }

  /** Pointers that are down after the stream. */
  ghost function Held(t: seq<Touch>): set<nat> {
    if t == [] then {} else HeldAfter(Held(Front(t)), Last(t))
  }

  /** What one touch does to the pointers that are down. */
  ghost function HeldAfter(held: set<nat>, e: Touch): set<nat> {
    if e.pointer.None? || e.action.Move? then held
    else if e.action.Down? then held + {e.pointer.value}
    else held - {e.pointer.value}
  }

  /** Every pointer goes down once, under a fresh id, and moves or goes up only while it is down. */
  ghost predicate Safe(t: seq<Touch>) {
    t == [] || (Safe(Front(t)) && MayFollow(Front(t), Last(t)))
  }

  /** Whether a touch may follow a stream. */
  ghost predicate MayFollow(t: seq<Touch>, e: Touch) {
    e.pointer.Some? && if e.action.Down? then e.pointer.value !in Used(t) else e.pointer.value in Held(t)
  }

  lemma SafeAppend(t: seq<Touch>, e: Touch)
    ensures Safe(t + [e]) <==> (Safe(t) && MayFollow(t, e))
    ensures Used(t + [e]) == Used(t) + (if e.action.Down? && e.pointer.Some? then {e.pointer.value} else {})
    ensures Held(t + [e]) == HeldAfter(Held(t), e)
  {
    assert Front(t + [e]) == t && Last(t + [e]) == e;
  }

  // ---------------------------------------------------------------- the same, pointer by pointer

  /** The actions of one pointer, in order. */
  function ActionsOf(t: seq<Touch>, p: nat): seq<Action> {
    if t == [] then []
    else ActionsOf(Front(t), p) + (if Last(t).pointer == Some(p) then [Last(t).action] else [])
  }

  /** DOWN MOVE* with at most one UP, at the end. */
  predicate IsGesture(a: seq<Action>) {
    a == [] || (a[0].Down? && forall i | 0 < i < |a| :: a[i].Move? || (a[i].Up? && i == |a| - 1))
  }

  /** Every touch has a pointer, and every pointer's actions form one gesture. */
  ghost predicate Gestures(t: seq<Touch>) {
    (forall i | 0 <= i < |t| :: t[i].pointer.Some?) && (forall p: nat :: IsGesture(ActionsOf(t, p)))
  }

  lemma {:induction false} UsedAndHeld(t: seq<Touch>, p: nat)
    requires Safe(t)
    ensures IsGesture(ActionsOf(t, p))
    ensures p in Used(t) <==> ActionsOf(t, p) != []
    ensures p in Held(t) <==> ActionsOf(t, p) != [] && !ActionsOf(t, p)[|ActionsOf(t, p)| - 1].Up?
  {
    if t != [] {
      UsedAndHeld(Front(t), p);
      if Last(t).pointer == Some(p) {
        var a := ActionsOf(Front(t), p);
        assert ActionsOf(t, p) == a + [Last(t).action];
      } else {
        assert ActionsOf(t, p) == ActionsOf(Front(t), p);
      }
    }
  }

  lemma {:induction false} GesturesOnly(t: seq<Touch>, p: nat)
    requires t != [] ==> Safe(Front(t))
    requires t != [] ==> Last(t).pointer.Some?
    requires IsGesture(ActionsOf(t, p))
    ensures t != [] && Last(t).pointer == Some(p) ==>
      if Last(t).action.Down? then p !in Used(Front(t)) else p in Held(Front(t))
  {
    if t != [] && Last(t).pointer == Some(p) {
      var front := Front(t);
      UsedAndHeld(front, p);
      var a := ActionsOf(front, p);
      var b := ActionsOf(t, p);
      assert b == a + [Last(t).action] && b[|a|] == Last(t).action;
      if a != [] {
        assert b[|a| - 1] == a[|a| - 1];
      }
    }
  }

  /** Safe streams are exactly those whose pointers each make one gesture. */
  lemma {:induction false} SafeIsGestures(t: seq<Touch>)
    ensures Safe(t) <==> Gestures(t)
  {
    if Safe(t) {
      forall p: nat ensures IsGesture(ActionsOf(t, p)) { UsedAndHeld(t, p); }
      SafePointers(t);
    }
    if Gestures(t) {
      GesturesSafe(t);
    }
  }

  lemma {:induction false} SafePointers(t: seq<Touch>)
    requires Safe(t)
    ensures forall i | 0 <= i < |t| :: t[i].pointer.Some?
  {
    if t != [] {
      SafePointers(Front(t));
      forall i | 0 <= i < |t| ensures t[i].pointer.Some? {
        if i < |t| - 1 { assert t[i] == Front(t)[i]; }
      }
    }
  }

  lemma {:induction false} GesturesSafe(t: seq<Touch>)
    requires Gestures(t)
    ensures Safe(t)
  {
    if t != [] {
      var front := Front(t);
      forall p: nat ensures IsGesture(ActionsOf(front, p)) {
        var a, b := ActionsOf(front, p), ActionsOf(t, p);
        assert IsGesture(b);
        assert forall i | 0 <= i < |a| :: a[i] == b[i];
      }
      assert forall i | 0 <= i < |front| :: front[i] == t[i];
      GesturesSafe(front);
      GesturesOnly(t, Last(t).pointer.value);
    }
  }
}

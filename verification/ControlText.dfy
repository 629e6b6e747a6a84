/** Text on the control socket: truncation to whole UTF-8 characters in front of the length fields. */
module ControlText {
  import opened JsNumbers
  import opened Octets
  import opened Wrappers

  // ---------------------------------------------------------------- section 4 of RFC 3629

  predicate IsTail(b: byte) { 0x80 <= b <= 0xBF }

  predicate TailsAt(s: seq<byte>, from: nat, to: nat) {
    to <= |s| && forall i | from <= i < to :: IsTail(s[i])
  }

  /** Length of the well-formed character that s begins with, 0 when there is none. */
  function CharLen(s: seq<byte>): (n: nat)
    ensures n <= |s| && n <= 4
  {
    if s == [] then 0
    else if s[0] <= 0x7F then 1
    else if 0xC2 <= s[0] <= 0xDF then
      if TailsAt(s, 1, 2) then 2 else 0
    else if 0xE0 <= s[0] <= 0xEF then
      if TailsAt(s, 1, 3) && (s[0] == 0xE0 ==> s[1] >= 0xA0) && (s[0] == 0xED ==> s[1] <= 0x9F) then 3 else 0
    else if 0xF0 <= s[0] <= 0xF4 then
      if TailsAt(s, 1, 4) && (s[0] == 0xF0 ==> s[1] >= 0x90) && (s[0] == 0xF4 ==> s[1] <= 0x8F) then 4 else 0
    else 0
  }

  predicate Valid(s: seq<byte>)
    decreases |s|
  {
    s == [] || (CharLen(s) > 0 && Valid(s[CharLen(s)..]))
  }

  // ---------------------------------------------------------------- truncation

  method TruncateUtf8(value: seq<byte>, max: nat) returns (contents: seq<byte>)
    ensures contents == Truncated(value, max)
  {
    contents := value;
    if |contents| > max {
      contents := contents[..max];
    }
    while |contents| > 0 && !Valid(contents)
      invariant |contents| <= |value| && |contents| <= max && contents == value[..|contents|]
      invariant LongestValid(value, |contents|) == LongestValid(value, Cut(value, max))
    {
      contents := contents[..|contents| - 1];
    }
  }

  function Cut(value: seq<byte>, max: nat): (n: nat)
    ensures n <= |value| && n <= max
  {
    if |value| > max then max else |value|
  }

  /** The largest k up to n for which the first k bytes are valid. */
  function LongestValid(value: seq<byte>, n: nat): (k: nat)
    requires n <= |value|
    ensures k <= n && Valid(value[..k])
    ensures forall j | k < j <= n :: !Valid(value[..j])
  {
    if Valid(value[..n]) then n
    else
      assert n > 0;
      LongestValid(value, n - 1)
  }

  function Truncated(value: seq<byte>, max: nat): seq<byte> {
    value[..LongestValid(value, Cut(value, max))]
  }

  lemma PrefixChar(s: seq<byte>, x: seq<byte>)
    requires CharLen(s) > 0
    ensures CharLen(s[..CharLen(s)] + x) == CharLen(s)
  {
    var n := CharLen(s);
    var t := s[..n] + x;
    assert forall i | 0 <= i < n :: t[i] == s[i];
  }

  /** Cutting a valid string anywhere leaves a valid prefix at most three bytes shorter. */
  lemma {:induction false} CutIsClose(s: seq<byte>, n: nat)
    requires Valid(s) && n <= |s|
    ensures n - LongestValid(s, n) <= 3
    decreases |s|
  {
    if n == 0 || CharLen(s) > n {
      assert s[..0] == [];
    } else {
      var c, rest := CharLen(s), s[CharLen(s)..];
      CutIsClose(rest, n - c);
      var k := LongestValid(rest, n - c);
      PrefixChar(s, rest[..k]);
      assert s[..c + k] == s[..c] + rest[..k];
      assert s[..c + k][c..] == rest[..k];
    }
  }

  /** The result is the longest valid prefix within the limit; it is the whole value exactly when that fits and is
      valid, and for a valid value at most three bytes below the limit are given up. */
  lemma TruncationIsTight(value: seq<byte>, max: nat)
    ensures Truncated(value, max) <= value && |Truncated(value, max)| <= max && Valid(Truncated(value, max))
    ensures forall k | |Truncated(value, max)| < k <= max && k <= |value| :: !Valid(value[..k])
    ensures Truncated(value, max) == value <==> |value| <= max && Valid(value)
    ensures Valid(value) && |value| > max ==> |Truncated(value, max)| >= max - 3
  {
    assert value[..|value|] == value;
    if Valid(value) { CutIsClose(value, Cut(value, max)); }
  }

  // ---------------------------------------------------------------- clipboard and text messages

  const MAX_CLIPBOARD: nat := 0x4_0000 - 14
  const MAX_TEXT: nat := 300

  function Flag(b: bool): byte { if b then 1 else 0 }

  /** The sequence is the error of its field, or a 64-bit number. */
  method EncodeClipboard(text: seq<byte>, sequence: Option<nat>, paste: bool) returns (message: Option<seq<byte>>)
    requires sequence.Some? ==> sequence.value < 0x1_0000_0000_0000_0000
    ensures message.None? <==> sequence.None?
    ensures message.Some? ==> |message.value| <= 0x4_0000
    ensures message.Some? ==>
      ReadClipboard(message.value) == Some(Clipboard(sequence.value, paste, Truncated(text, MAX_CLIPBOARD)))
  {
    var contents := TruncateUtf8(text, MAX_CLIPBOARD);
    if sequence.None? {
      return None;
    }
    var data := [9] + I2osp(sequence.value, 8) + [Flag(paste)] + I2osp(|contents|, 4) + contents;
    ClipboardRoundTrip(sequence.value, paste, contents);
    message := Some(data);
  }

  method EncodeText(text: seq<byte>) returns (message: Option<seq<byte>>)
    ensures message.None? <==> text == []
    ensures message.Some? ==> |message.value| <= 5 + MAX_TEXT
    ensures message.Some? ==> ReadText(message.value) == Some(Truncated(text, MAX_TEXT))
  {
    if text == [] {
      return None;
    }
    var contents := TruncateUtf8(text, MAX_TEXT);
    message := Some([1] + I2osp(|contents|, 4) + contents);
    SmallPowers();
    Os2ipOfI2osp(|contents|, 4);
    assert message.value[1..5] == I2osp(|contents|, 4) && message.value[5..] == contents;
  }

  datatype Clipboard = Clipboard(sequence: nat, paste: bool, text: seq<byte>)

  /** The device side: kind 9, sequence, paste flag, and exactly as many bytes of valid text as announced. */
  function ReadClipboard(m: seq<byte>): Option<Clipboard> {
    if |m| < 14 || m[0] != 9 || m[9] > 1 || Os2ip(m[10..14]) != |m| - 14 || !Valid(m[14..]) then None
    else Some(Clipboard(Os2ip(m[1..9]), m[9] == 1, m[14..]))
  }

  function ReadText(m: seq<byte>): Option<seq<byte>> {
    if |m| < 5 || m[0] != 1 || Os2ip(m[1..5]) != |m| - 5 || !Valid(m[5..]) then None else Some(m[5..])
  }

  lemma ClipboardRoundTrip(sequence: nat, paste: bool, contents: seq<byte>)
    requires sequence < 0x1_0000_0000_0000_0000 && |contents| < 0x1_0000_0000 && Valid(contents)
    ensures var m := [9] + I2osp(sequence, 8) + [Flag(paste)] + I2osp(|contents|, 4) + contents;
      ReadClipboard(m) == Some(Clipboard(sequence, paste, contents))
  {
    hide I2osp, Os2ip, Valid;
    var m := [9] + I2osp(sequence, 8) + [Flag(paste)] + I2osp(|contents|, 4) + contents;
    SmallPowers();
    Os2ipOfI2osp(sequence, 8);
    Os2ipOfI2osp(|contents|, 4);
    assert m[1..9] == I2osp(sequence, 8) && m[10..14] == I2osp(|contents|, 4) && m[14..] == contents;
  }
}

/** Command lines for the device shell: quoting, and the shell's own reading of them. */
module ShellCommand {
  import opened Wrappers

  // ---------------------------------------------------------------- printing

  /** strings.ReplaceAll(value, "'", "'\\''") */
  function EscapeQuotes(value: string): string {
    if value == "" then "" else (if value[0] == '\'' then "'\\''" else [value[0]]) + EscapeQuotes(value[1..])
  }

  function Quote(value: string): string {
    "'" + EscapeQuotes(value) + "'"
  }

  function Join(words: seq<string>): string {
    if words == [] then "" else if |words| == 1 then words[0] else words[0] + " " + Join(words[1..])
  }

  function QuoteAll(words: seq<string>): (r: seq<string>)
    ensures |r| == |words| && forall i | 0 <= i < |words| :: r[i] == Quote(words[i])
  {
    seq(|words|, i requires 0 <= i < |words| => Quote(words[i]))
  }

  predicate NulFree(words: seq<string>) {
    forall i | 0 <= i < |words| :: '\0' !in words[i]
  }

  /** The error is a NUL in any word. */
  method Command(name: string, args: seq<string>) returns (line: Option<string>)
    ensures line.None? <==> !NulFree([name] + args)
    ensures line.Some? ==> line.value == Join(QuoteAll([name] + args))
    ensures line.Some? ==> Lex(line.value) == Some([name] + args)
  {
    var words := [name] + args;
    ghost var original := words;
    for i := 0 to |words|
      invariant |words| == |original|
      invariant forall k | 0 <= k < i :: '\0' !in original[k] && words[k] == Quote(original[k])
      invariant forall k | i <= k < |words| :: words[k] == original[k]
    {
      var word := words[i];
      if '\0' in word {
        return None;
      }
      words := words[i := Quote(word)];
    }
    assert words == QuoteAll(original);
    line := Some(Join(words));
    LexCommand(original);
  }

  // ------------------------------------------------------------ reading (XCU 2.2.1, 2.2.2 and 2.3 of IEEE Std 1003.1)

  /** Characters that mean themselves outside quotes. */
  predicate Ordinary(c: char) {
    c !in "|&;<>()$`\\\"' \t\n*?[#~=%"
  }

  predicate Blank(c: char) { c == ' ' || c == '\t' }

  /** Position of the closing quote of a single-quoted string. */
  function CloseQuote(s: string, i: nat): Option<nat>
    decreases |s| - i
  {
    if i >= |s| then None else if s[i] == '\'' then Some(i) else CloseQuote(s, i + 1)
  }

  lemma {:induction false} CloseQuoteRange(s: string, i: nat)
    requires CloseQuote(s, i).Some?
    ensures i <= CloseQuote(s, i).value < |s|
    decreases |s| - i
  {
    if s[i] != '\'' { CloseQuoteRange(s, i + 1); }
  }

  /** The words from position i on; word is the token in progress, if any. None: an unterminated quote,
      a trailing backslash, or an unquoted character with another meaning. */
  function LexFrom(s: string, i: nat, word: Option<string>): Option<seq<string>>
    decreases |s| - i
  {
    if i >= |s| then Some(if word.Some? then [word.value] else [])
    else
      var soFar := if word.Some? then word.value else "";
      if s[i] == '\'' then
        var close :- CloseQuote(s, i + 1);
        CloseQuoteRange(s, i + 1);
        LexFrom(s, close + 1, Some(soFar + s[i + 1..close]))
      else if s[i] == '\\' then
        if i + 1 >= |s| then None
        else if s[i + 1] == '\n' then LexFrom(s, i + 2, word)
        else LexFrom(s, i + 2, Some(soFar + [s[i + 1]]))
      else if Blank(s[i]) then
        var rest :- LexFrom(s, i + 1, None);
        Some((if word.Some? then [word.value] else []) + rest)
      else if Ordinary(s[i]) then LexFrom(s, i + 1, Some(soFar + [s[i]]))
      else None
  }

  function Lex(s: string): Option<seq<string>> {
    LexFrom(s, 0, None)
  }

  // ---------------------------------------------------------------- round trip

  /** A backslash-escaped quote between two quoted stretches. */
  lemma LexEscaped(s: string, i: nat, read: string)
    requires i + 2 <= |s| && s[i] == '\\' && s[i + 1] == '\''
    ensures LexFrom(s, i, Some(read)) == LexFrom(s, i + 2, Some(read + "'"))
  {
  }

  /** What is left of s from a position on. */
  predicate Remains(s: string, i: nat, left: string) {
    i <= |s| && s[i..] == left
  }

  lemma Drop(s: string, i: nat, front: string, back: string)
    requires Remains(s, i, front + back)
    ensures i + |front| <= |s| && Remains(s, i + |front|, back) && i + |front| == |s| - |back|
    ensures front != "" ==> s[i] == front[0]
  {
    assert s[i..][|front|..] == back;
    if front != "" { assert s[i] == s[i..][0]; }
  }

  /** The quoted stretch from a position on. */
  function QuotedFrom(s: string, i: nat): string
    requires CloseQuote(s, i).Some?
  {
    CloseQuoteRange(s, i);
    s[i..CloseQuote(s, i).value]
  }

  function AfterQuote(s: string, i: nat): (after: nat)
    requires CloseQuote(s, i).Some?
    ensures after <= |s|
  {
    CloseQuoteRange(s, i);
    CloseQuote(s, i).value + 1
  }

  lemma QuoteEndsHere(s: string, i: nat)
    requires i < |s| && s[i] == '\''
    ensures CloseQuote(s, i) == Some(i) && QuotedFrom(s, i) == "" && AfterQuote(s, i) == i + 1
  {
  }

  lemma QuoteGoesOn(s: string, i: nat)
    requires i < |s| && s[i] != '\'' && CloseQuote(s, i + 1).Some?
    ensures CloseQuote(s, i).Some? && AfterQuote(s, i) == AfterQuote(s, i + 1)
    ensures QuotedFrom(s, i) == [s[i]] + QuotedFrom(s, i + 1)
  {
    CloseQuoteRange(s, i + 1);
  }

  lemma LexOpen(s: string, i: nat, word: Option<string>)
    requires i < |s| && s[i] == '\'' && CloseQuote(s, i + 1).Some?
    ensures LexFrom(s, i, word) ==
      LexFrom(s, AfterQuote(s, i + 1), Some((if word.Some? then word.value else "") + QuotedFrom(s, i + 1)))
  {
  }

  lemma EscapeNext(v: string)
    requires v != ""
    ensures EscapeQuotes(v) == (if v[0] == '\'' then "'\\''" else [v[0]]) + EscapeQuotes(v[1..])
  {
  }

  lemma Associated(a: string, b: string, c: string, d: string)
    ensures a + b + c + d == a + (b + c + d) && a + (b + c) == a + b + c
  {
  }

  /** Inside quotes at i, with v still to come: v is read up to its end, quote by quote. */
  lemma {:induction false} LexQuoted(s: string, i: nat, read: string, v: string, rest: string)
    requires Remains(s, i, EscapeQuotes(v) + "'" + rest)
    ensures CloseQuote(s, i).Some?
    ensures LexFrom(s, AfterQuote(s, i), Some(read + QuotedFrom(s, i))) == LexFrom(s, |s| - |rest|, Some(read + v))
    decreases |v|
  {
    if v == "" {
      LexQuotedEnd(s, i, read, rest);
    } else {
      EscapeNext(v);
      Associated(if v[0] == '\'' then "'\\''" else [v[0]], EscapeQuotes(v[1..]), "'", rest);
      if v[0] == '\'' {
        hide *;
        QuoteInside(s, i, read, EscapeQuotes(v[1..]) + "'" + rest);
        LexQuoted(s, i + 4, read + "'", v[1..], rest);
        ReadQuote(s, i, read);
      } else {
        hide *;
        Drop(s, i, [v[0]], EscapeQuotes(v[1..]) + "'" + rest);
        LexQuoted(s, i + 1, read + [v[0]], v[1..], rest);
        QuoteGoesOn(s, i);
        Associated(read, [v[0]], QuotedFrom(s, i + 1), "");
      }
      Associated(read, [v[0]], v[1..], "");
      assert v == [v[0]] + v[1..];
    }
  }

  lemma LexQuotedEnd(s: string, i: nat, read: string, rest: string)
    requires Remains(s, i, EscapeQuotes("") + "'" + rest)
    ensures CloseQuote(s, i).Some?
    ensures LexFrom(s, AfterQuote(s, i), Some(read + QuotedFrom(s, i))) == LexFrom(s, |s| - |rest|, Some(read + ""))
  {
    hide LexFrom, QuotedFrom, AfterQuote;
    assert EscapeQuotes("") + "'" + rest == "'" + rest;
    Drop(s, i, "'", rest);
    QuoteEndsHere(s, i);
  }

  /** An escaped quote: the quoted stretch ends, the quote is read, and another stretch opens. */
  lemma QuoteInside(s: string, i: nat, read: string, tail: string)
    requires Remains(s, i, "'\\''" + tail)
    ensures i + 4 <= |s| && Remains(s, i + 4, tail)
    ensures s[i] == '\'' && s[i + 1] == '\\' && s[i + 2] == '\'' && s[i + 3] == '\''
  {
    var code := "'\\''";
    Drop(s, i, code, tail);
    forall k | 0 <= k < 4 ensures s[i + k] == code[k] { assert s[i..][k] == s[i + k]; }
    assert s[i + 0] == code[0] && s[i + 1] == code[1] && s[i + 2] == code[2] && s[i + 3] == code[3];
  }

  lemma ReadQuote(s: string, i: nat, read: string)
    requires i + 4 <= |s| && CloseQuote(s, i + 4).Some?
    requires s[i] == '\'' && s[i + 1] == '\\' && s[i + 2] == '\'' && s[i + 3] == '\''
    ensures CloseQuote(s, i).Some?
    ensures LexFrom(s, AfterQuote(s, i), Some(read + QuotedFrom(s, i)))
      == LexFrom(s, AfterQuote(s, i + 4), Some(read + "'" + QuotedFrom(s, i + 4)))
  {
    hide LexFrom, QuotedFrom, AfterQuote;
    QuoteEndsHere(s, i);
    assert read + "" == read;
    LexEscaped(s, i + 1, read);
    LexOpen(s, i + 3, Some(read + "'"));
  }

  lemma LexOne(s: string, i: nat, v: string, rest: string)
    requires Remains(s, i, Quote(v) + rest)
    ensures LexFrom(s, i, None) == LexFrom(s, |s| - |rest|, Some(v))
  {
    QuoteOpens(v, rest);
    hide *;
    Drop(s, i, "'", EscapeQuotes(v) + "'" + rest);
    LexQuoted(s, i + 1, "", v, rest);
    LexOpen(s, i, None);
    assert "" + v == v;
  }

  lemma QuoteOpens(v: string, rest: string)
    ensures Quote(v) + rest == "'" + (EscapeQuotes(v) + "'" + rest)
  {
    hide EscapeQuotes;
  }

  lemma LexBlank(s: string, i: nat, word: string)
    requires i < |s| && s[i] == ' ' && LexFrom(s, i + 1, None).Some?
    ensures LexFrom(s, i, Some(word)) == Some([word] + LexFrom(s, i + 1, None).value)
  {
  }

  lemma JoinSplits(words: seq<string>)
    requires |words| > 1
    ensures Join(QuoteAll(words)) == Quote(words[0]) + (" " + Join(QuoteAll(words[1..])))
  {
    hide Quote;
    assert QuoteAll(words)[1..] == QuoteAll(words[1..]);
  }

  lemma LexUpTo(s: string, i: nat, word: string, more: string)
    requires Remains(s, i, Quote(word) + (" " + more))
    ensures var at := |s| - |more| - 1;
      i <= at && s[at] == ' ' && Remains(s, at + 1, more) && LexFrom(s, i, None) == LexFrom(s, at, Some(word))
  {
    hide *;
    Drop(s, i, Quote(word), " " + more);
    LexOne(s, i, word, " " + more);
    Drop(s, |s| - |more| - 1, " ", more);
  }

  lemma {:induction false} LexAll(s: string, i: nat, words: seq<string>)
    requires Remains(s, i, Join(QuoteAll(words)))
    ensures LexFrom(s, i, None) == Some(words)
    decreases |words|
  {
    hide Quote;
    if words == [] {
    } else if |words| == 1 {
      assert s[i..] == Quote(words[0]) + "";
      LexOne(s, i, words[0], "");
      assert words == [words[0]];
    } else {
      var more := Join(QuoteAll(words[1..]));
      JoinSplits(words);
      hide *;
      LexUpTo(s, i, words[0], more);
      LexAll(s, |s| - |more|, words[1..]);
      LexBlank(s, |s| - |more| - 1, words[0]);
      assert words == [words[0]] + words[1..];
    }
  }

  /** The shell reads back exactly the words, whatever characters they contain. */
  lemma LexCommand(words: seq<string>)
    ensures Lex(Join(QuoteAll(words))) == Some(words)
  {
    var s := Join(QuoteAll(words));
    assert s[0..] == s;
    LexAll(s, 0, words);
  }
}

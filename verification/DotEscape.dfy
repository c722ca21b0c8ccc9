/** Escaping text for a quoted DOT string.  The chain of five replacements is a
  single pass over the characters; it loses nothing, and a scanner of quoted
  strings stops exactly at the quote that is put after it. */
module DotEscape {

  function ReplaceChar(s: string, c: char, repl: string): string {
    if s == [] then []
    else (if s[0] == c then repl else [s[0]]) + ReplaceChar(s[1..], c, repl)
  }

  /** As written: backslashes first, then quotes and the control characters. */
  function EscapeForDot(s: string): string {
    ReplaceChar(ReplaceChar(ReplaceChar(ReplaceChar(ReplaceChar(s,
      '\\', "\\\\"),
      '"', "\\\""),
      '\n', "\\n"),
      '\r', "\\r"),
      '\t', "\\t")
  }

  function EscapeChar(c: char): string {
    if c == '\\' then "\\\\"
    else if c == '"' then "\\\""
    else if c == '\n' then "\\n"
    else if c == '\r' then "\\r"
    else if c == '\t' then "\\t"
    else [c]
  }

  function EscapeOnce(s: string): string {
    if s == [] then [] else EscapeOnce(s[..|s| - 1]) + EscapeChar(s[|s| - 1])
  }

  function UnescapedChar(c: char): char {
    if c == 'n' then '\n' else if c == 'r' then '\r' else if c == 't' then '\t' else c
  }

  function Unescape(s: string): string {
    if s == [] then []
    else if s[0] == '\\' && |s| > 1 then [UnescapedChar(s[1])] + Unescape(s[2..])
    else [s[0]] + Unescape(s[1..])
  }

  // ---------------------------------------------------- one pass is as good

  lemma {:induction false} ReplaceCharSum(a: string, b: string, c: char, repl: string)
    ensures ReplaceChar(a + b, c, repl) == ReplaceChar(a, c, repl) + ReplaceChar(b, c, repl)
  {
    if a == [] {
      assert a + b == b;
    } else {
      assert (a + b)[1..] == a[1..] + b;
      ReplaceCharSum(a[1..], b, c, repl);
    }
  }

  lemma EscapeForDotSum(a: string, b: string)
    ensures EscapeForDot(a + b) == EscapeForDot(a) + EscapeForDot(b)
  {
    var a1, b1 := ReplaceChar(a, '\\', "\\\\"), ReplaceChar(b, '\\', "\\\\");
    var a2, b2 := ReplaceChar(a1, '"', "\\\""), ReplaceChar(b1, '"', "\\\"");
    var a3, b3 := ReplaceChar(a2, '\n', "\\n"), ReplaceChar(b2, '\n', "\\n");
    var a4, b4 := ReplaceChar(a3, '\r', "\\r"), ReplaceChar(b3, '\r', "\\r");
    ReplaceCharSum(a, b, '\\', "\\\\");
    ReplaceCharSum(a1, b1, '"', "\\\"");
    ReplaceCharSum(a2, b2, '\n', "\\n");
    ReplaceCharSum(a3, b3, '\r', "\\r");
    ReplaceCharSum(a4, b4, '\t', "\\t");
  }

  /** No later replacement touches what an earlier one wrote. */
  lemma ReplaceShort(s: string, c: char, repl: string)
    requires |s| <= 2 && forall i | 0 <= i < |s| :: s[i] != c
    ensures ReplaceChar(s, c, repl) == s
  {
    if |s| == 2 {
      assert s[1..] == [s[1]] && s[1..][1..] == [];
      assert ReplaceChar(s[1..], c, repl) == [s[1]] + ReplaceChar(s[1..][1..], c, repl);
    } else if |s| == 1 {
      assert s[1..] == [];
    }
  }

  lemma ReplaceSingle(c: char, repl: string)
    ensures ReplaceChar([c], c, repl) == repl
  {
    assert [c][1..] == [];
  }

  lemma EscapeOneChar(c: char)
    ensures EscapeForDot([c]) == EscapeChar(c)
  {
    var s := EscapeChar(c);
    if c == '\\' { ReplaceSingle(c, s); } else { ReplaceShort([c], '\\', "\\\\"); }
    var s1 := if c == '\\' then s else [c];
    if c == '"' { ReplaceSingle(c, s); } else { ReplaceShort(s1, '"', "\\\""); }
    var s2 := if c == '"' then s else s1;
    if c == '\n' { ReplaceSingle(c, s); } else { ReplaceShort(s2, '\n', "\\n"); }
    var s3 := if c == '\n' then s else s2;
    if c == '\r' { ReplaceSingle(c, s); } else { ReplaceShort(s3, '\r', "\\r"); }
    var s4 := if c == '\r' then s else s3;
    if c == '\t' { ReplaceSingle(c, s); } else { ReplaceShort(s4, '\t', "\\t"); }
  }

  lemma {:induction false} EscapeIsSinglePass(s: string)
    ensures EscapeForDot(s) == EscapeOnce(s)
  {
    if s != [] {
      var front, c := s[..|s| - 1], s[|s| - 1];
      assert s == front + [c];
      EscapeIsSinglePass(front);
      EscapeForDotSum(front, [c]);
      EscapeOneChar(c);
    }
  }

  // ----------------------------------------------------- nothing is lost

  lemma {:induction false} UnescapeFront(c: char, rest: string)
    ensures Unescape(EscapeChar(c) + rest) == [c] + Unescape(rest)
  {
    var s := EscapeChar(c) + rest;
    assert s[|EscapeChar(c)|..] == rest;
  }

  lemma {:induction false} EscapeFront(s: string)
    requires s != []
    ensures EscapeForDot(s) == EscapeChar(s[0]) + EscapeForDot(s[1..])
  {
    assert s == [s[0]] + s[1..];
    EscapeForDotSum([s[0]], s[1..]);
    EscapeOneChar(s[0]);
  }

  lemma {:induction false} UnescapeInvertsEscape(s: string)
    ensures Unescape(EscapeForDot(s)) == s
  {
    if s != [] {
      EscapeFront(s);
      UnescapeFront(s[0], EscapeForDot(s[1..]));
      UnescapeInvertsEscape(s[1..]);
      assert s == [s[0]] + s[1..];
    }
  }

  // ----------------------------------------------------- safe inside quotes

  /** Length of the run of backslashes that ends just before position `i`. */
  function RunBefore(s: string, i: nat): nat
    requires i <= |s|
  {
    if i == 0 || s[i - 1] != '\\' then 0 else 1 + RunBefore(s, i - 1)
  }

  lemma {:induction false} RunInPrefix(a: string, b: string, i: nat)
    requires i <= |a|
    ensures RunBefore(a + b, i) == RunBefore(a, i)
  {
    if i > 0 && a[i - 1] == '\\' {
      RunInPrefix(a, b, i - 1);
    }
  }

  lemma {:induction false} EndsOnEvenRun(s: string)
    ensures RunBefore(EscapeOnce(s), |EscapeOnce(s)|) % 2 == 0
  {
    if s != [] {
      var a, b := EscapeOnce(s[..|s| - 1]), EscapeChar(s[|s| - 1]);
      EndsOnEvenRun(s[..|s| - 1]);
      RunInPrefix(a, b, |a|);
      if b == "\\\\" {
        assert RunBefore(a + b, |a + b|) == 1 + (1 + RunBefore(a + b, |a|));
      }
    }
  }

  /** Every quote is escaped. */
  lemma {:induction false} QuotesAreEscaped(s: string)
    ensures forall i | 0 <= i < |EscapeOnce(s)| && EscapeOnce(s)[i] == '"' :: RunBefore(EscapeOnce(s), i) % 2 == 1
  {
    if s != [] {
      var front, b := s[..|s| - 1], EscapeChar(s[|s| - 1]);
      var a := EscapeOnce(front);
      QuotesAreEscaped(front);
      EndsOnEvenRun(front);
      RunInPrefix(a, b, |a|);
      forall i | 0 <= i < |a + b| && (a + b)[i] == '"' ensures RunBefore(a + b, i) % 2 == 1 {
        if i < |a| {
          RunInPrefix(a, b, i);
        } else {
          assert b == "\\\"" && i == |a| + 1 && (a + b)[|a|] == '\\';
        }
      }
    }
  }

  /** Where a scanner of a quoted string stops: at the first quote that is not
    taken together with a backslash before it. */
  function ClosingQuote(s: string): (i: nat)
    ensures i <= |s|
  {
    if s == [] || s[0] == '"' then 0
    else if s[0] == '\\' && |s| > 1 then 2 + ClosingQuote(s[2..])
    else 1 + ClosingQuote(s[1..])
  }

  /** Written between quotes, the text ends where it was meant to end. */
  lemma {:induction false} StringEndsAtItsQuote(s: string, rest: string)
    ensures ClosingQuote(EscapeForDot(s) + "\"" + rest) == |EscapeForDot(s)|
  {
    if s == [] {
      assert EscapeForDot(s) == [];
      assert ("" + "\"" + rest)[0] == '"';
    } else {
      EscapeFront(s);
      StringEndsAtItsQuote(s[1..], rest);
      var b, tail := EscapeChar(s[0]), EscapeForDot(s[1..]) + "\"" + rest;
      assert EscapeForDot(s) + "\"" + rest == b + tail;
      assert (b + tail)[|b|..] == tail;
    }
  }

  lemma EscapedTextIsSafe(s: string)
    ensures var r := EscapeForDot(s);
            && (forall i | 0 <= i < |r| && r[i] == '"' :: RunBefore(r, i) % 2 == 1)
            && (forall i | 0 <= i < |r| :: r[i] !in {'\n', '\r', '\t'})
  {
    EscapeIsSinglePass(s);
    QuotesAreEscaped(s);
    NoControls(s);
  }

  lemma {:induction false} NoControls(s: string)
    ensures forall i | 0 <= i < |EscapeOnce(s)| :: EscapeOnce(s)[i] !in {'\n', '\r', '\t'}
  {
    if s != [] {
      NoControls(s[..|s| - 1]);
    }
  }
}

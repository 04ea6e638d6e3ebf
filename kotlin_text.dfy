/**
 * The Kotlin standard-library string operations the whitespace transforms are
 * built from: `Char.isWhitespace`, `isBlank`, `trim`/`trimStart`/`trimEnd`,
 * `lines()` and `joinToString("\n")`.
 */
module KotlinText {

  /**
   * Kotlin's `Char.isWhitespace` on the JVM: the Unicode space, line and
   * paragraph separators, the controls TAB to CR, and the four information
   * separators U+001C to U+001F.
   */
  predicate IsWhitespace(c: char)
  {
    || c == ' ' || '\t' <= c <= '\r' || '\U{1C}' <= c <= '\U{1F}'
    || c == '\U{A0}' || c == '\U{1680}' || '\U{2000}' <= c <= '\U{200A}'
    || c == '\U{2028}' || c == '\U{2029}' || c == '\U{202F}' || c == '\U{205F}' || c == '\U{3000}'
  }

  predicate IsBlank(s: string)
  {
    forall i :: 0 <= i < |s| ==> IsWhitespace(s[i])
  }

  predicate IsLineBreak(c: char)
  {
    c == '\n' || c == '\r'
  }

  /** A single line: no line terminator inside it. */
  predicate IsLine(s: string)
  {
    forall i :: 0 <= i < |s| ==> !IsLineBreak(s[i])
  }

  predicate AllLines(ls: seq<string>)
  {
    forall i :: 0 <= i < |ls| ==> IsLine(ls[i])
  }

  /** `trimStart`: a suffix of the input that does not start with whitespace. */
  function TrimStart(s: string): (r: string)
    ensures |r| <= |s| && r == s[|s| - |r|..]
    ensures r == [] || !IsWhitespace(r[0])
    decreases |s|
  {
    if s != [] && IsWhitespace(s[0]) then TrimStart(s[1..]) else s
  }

  /** `trimEnd`: a prefix of the input that does not end with whitespace. */
  function TrimEnd(s: string): (r: string)
    ensures |r| <= |s| && r == s[..|r|]
    ensures r == [] || !IsWhitespace(r[|r| - 1])
    decreases |s|
  {
    if s != [] && IsWhitespace(s[|s| - 1]) then TrimEnd(s[..|s| - 1]) else s
  }

  /** `trimStart` drops whitespace only: it removes the longest whitespace prefix. */
  lemma {:induction false} TrimStartDropsWhitespace(s: string)
    ensures forall i :: 0 <= i < |s| - |TrimStart(s)| ==> IsWhitespace(s[i])
    decreases |s|
  {
    if s != [] && IsWhitespace(s[0]) {
      TrimStartDropsWhitespace(s[1..]);
      assert forall i :: 1 <= i < |s| ==> s[i] == s[1..][i - 1];
    }
  }

  /** `trimEnd` drops whitespace only: it removes the longest whitespace suffix. */
  lemma {:induction false} TrimEndDropsWhitespace(s: string)
    ensures forall i :: |TrimEnd(s)| <= i < |s| ==> IsWhitespace(s[i])
    decreases |s|
  {
    if s != [] && IsWhitespace(s[|s| - 1]) {
      TrimEndDropsWhitespace(s[..|s| - 1]);
      assert forall i :: 0 <= i < |s| - 1 ==> s[i] == s[..|s| - 1][i];
    }
  }

  /** A suffix or a prefix of a line is a line; a suffix or prefix of a non-blank string that drops only blanks is non-blank. */
  lemma SliceOfLine(s: string, i: nat, j: nat)
    requires i <= j <= |s| && IsLine(s)
    ensures IsLine(s[i..j])
  {
    assert forall k :: 0 <= k < j - i ==> s[i..j][k] == s[i + k];
  }

  /** `trim`: both ends. */
  function Trim(s: string): string
  {
    TrimEnd(TrimStart(s))
  }

  /**
   * The trimmed string neither starts nor ends with whitespace, is empty
   * exactly when the input is blank, and stays a single line.
   */
  lemma TrimResult(s: string)
    ensures var r := Trim(s);
      && (r == [] || (!IsWhitespace(r[0]) && !IsWhitespace(r[|r| - 1])))
      && (r == [] <==> IsBlank(s))
      && (IsLine(s) ==> IsLine(r))
  {
    TrimBlank(s);
    TrimFirst(s);
    TrimLine(s);
  }

  lemma TrimBlank(s: string)
    ensures TrimEnd(TrimStart(s)) == [] <==> IsBlank(s)
  {
    var t := TrimStart(s);
    TrimStartEmpty(s);
    TrimEndEmpty(t);
    assert IsBlank(t) <==> t == [] by {
      if t != [] { assert !IsWhitespace(t[0]); }
    }
  }

  lemma TrimFirst(s: string)
    ensures var r := TrimEnd(TrimStart(s)); r == [] || !IsWhitespace(r[0])
  {
    var t := TrimStart(s);
    var r := TrimEnd(t);
    assert r == t[..|r|];
    assert r == [] || r[0] == t[0];
  }

  lemma TrimLine(s: string)
    ensures IsLine(s) ==> IsLine(TrimEnd(TrimStart(s)))
  {
    var t := TrimStart(s);
    if !IsLine(s) { return; }
    SliceOfLine(s, |s| - |t|, |s|);
    SliceOfLine(t, 0, |TrimEnd(t)|);
  }

  /** Only a blank string trims to nothing at the start. */
  lemma {:induction false} TrimStartEmpty(s: string)
    ensures TrimStart(s) == [] <==> IsBlank(s)
    decreases |s|
  {
    if s != [] && IsWhitespace(s[0]) {
      TrimStartEmpty(s[1..]);
      assert IsBlank(s) <==> IsBlank(s[1..]) by {
        assert forall i :: 1 <= i < |s| ==> s[i] == s[1..][i - 1];
      }
    }
  }

  /** Only a blank string trims to nothing at the end. */
  lemma {:induction false} TrimEndEmpty(s: string)
    ensures TrimEnd(s) == [] <==> IsBlank(s)
    decreases |s|
  {
    if s != [] && IsWhitespace(s[|s| - 1]) {
      TrimEndEmpty(s[..|s| - 1]);
      assert IsBlank(s) <==> IsBlank(s[..|s| - 1]) by {
        assert forall i :: 0 <= i < |s| - 1 ==> s[i] == s[..|s| - 1][i];
      }
    }
  }

  /** Trimming one end keeps a line a line. */
  lemma TrimEndsKeepLine(s: string)
    ensures IsLine(s) ==> IsLine(TrimStart(s)) && IsLine(TrimEnd(s))
  {
    if IsLine(s) {
      SliceOfLine(s, |s| - |TrimStart(s)|, |s|);
      SliceOfLine(s, 0, |TrimEnd(s)|);
    }
  }

  /**
   * Kotlin's `lines()`: splits at `\r\n`, `\n` and `\r`.  There is always at
   * least one line, and a trailing terminator yields a final empty line.
   */
  function Lines(s: string): (r: seq<string>)
    ensures |r| >= 1
    decreases |s|
  {
    if s == [] then [""]
    else if s[0] == '\n' then [""] + Lines(s[1..])
    else if s[0] == '\r' then
      if |s| >= 2 && s[1] == '\n' then [""] + Lines(s[2..]) else [""] + Lines(s[1..])
    else
      var rest := Lines(s[1..]);
      [[s[0]] + rest[0]] + rest[1..]
  }

  /** No line of `lines()` contains a line terminator. */
  lemma {:induction false} LinesAreLines(s: string)
    ensures AllLines(Lines(s))
    decreases |s|
  {
    if s == [] {
    } else if s[0] == '\n' {
      LinesAreLines(s[1..]);
    } else if s[0] == '\r' {
      if |s| >= 2 && s[1] == '\n' { LinesAreLines(s[2..]); } else { LinesAreLines(s[1..]); }
    } else {
      var rest := Lines(s[1..]);
      LinesAreLines(s[1..]);
      assert IsLine(rest[0]);
      assert IsLine([s[0]] + rest[0]);
    }
  }

  lemma AllLinesSlice(ls: seq<string>, i: nat, j: nat)
    requires i <= j <= |ls| && AllLines(ls)
    ensures AllLines(ls[i..j])
  {
    assert forall k :: 0 <= k < j - i ==> ls[i..j][k] == ls[i + k];
  }

  /** `joinToString("\n")`. */
  function JoinLines(ls: seq<string>): string
    decreases |ls|
  {
    if ls == [] then ""
    else if |ls| == 1 then ls[0]
    else ls[0] + "\n" + JoinLines(ls[1..])
  }

  lemma {:induction false} JoinLinesNoCr(ls: seq<string>)
    requires AllLines(ls)
    ensures '\r' !in JoinLines(ls)
    decreases |ls|
  {
    if |ls| > 1 {
      JoinLinesNoCr(ls[1..]);
      assert '\r' !in ls[0];
    } else if |ls| == 1 {
      assert '\r' !in ls[0];
    }
  }

  lemma {:induction false} LinesOfLine(a: string)
    requires IsLine(a)
    ensures Lines(a) == [a]
    decreases |a|
  {
    if a != [] {
      LinesOfLine(a[1..]);
      assert [a[0]] + a[1..] == a;
    }
  }

  lemma {:induction false} LinesOfLineThenBreak(a: string, rest: string)
    requires IsLine(a)
    ensures Lines(a + "\n" + rest) == [a] + Lines(rest)
    decreases |a|
  {
    if a == [] {
      assert a + "\n" + rest == "\n" + rest;
      assert ("\n" + rest)[1..] == rest;
    } else {
      var s := a + "\n" + rest;
      assert s[1..] == a[1..] + "\n" + rest;
      LinesOfLineThenBreak(a[1..], rest);
      assert [a[0]] + a[1..] == a;
    }
  }

  /** Splitting joined lines gives the lines back. */
  lemma {:induction false} LinesOfJoin(ls: seq<string>)
    requires |ls| >= 1 && AllLines(ls)
    ensures Lines(JoinLines(ls)) == ls
    decreases |ls|
  {
    if |ls| == 1 {
      LinesOfLine(ls[0]);
    } else {
      LinesOfJoin(ls[1..]);
      LinesOfLineThenBreak(ls[0], JoinLines(ls[1..]));
    }
  }

  /** Prepending a non-break character to the text prepends it to the first line. */
  lemma {:induction false} JoinLinesCons(c: char, ls: seq<string>)
    requires |ls| >= 1
    ensures JoinLines([[c] + ls[0]] + ls[1..]) == [c] + JoinLines(ls)
  {
    var ms := [[c] + ls[0]] + ls[1..];
    if |ls| > 1 {
      assert ms[1..] == ls[1..];
    }
  }
}

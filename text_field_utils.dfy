/**
 * The editor's whitespace clean-up actions (util/TextFieldUtils.kt).  Each
 * Kotlin function returns `value.copy(text = F(value.text))`; the functions
 * here are the `F`s, on the text alone.
 */
module TextFieldUtils {
  import opened KotlinText
  import opened Sequences

  /** `replace(Regex("\\r\\n?|\\n"), "\n")`: every CR LF, lone CR and lone LF becomes LF. */
  function NormalizeLineEndings(s: string): (r: string)
    ensures '\r' !in r
    decreases |s|
  {
    if s == [] then []
    else if s[0] == '\r' then
      if |s| >= 2 && s[1] == '\n' then "\n" + NormalizeLineEndings(s[2..]) else "\n" + NormalizeLineEndings(s[1..])
    else [s[0]] + NormalizeLineEndings(s[1..])
  }

  /** Text without CR is left as it is. */
  lemma {:induction false} NormalizeWithoutCr(s: string)
    requires '\r' !in s
    ensures NormalizeLineEndings(s) == s
    decreases |s|
  {
    if s != [] {
      assert '\r' !in s[1..];
      NormalizeWithoutCr(s[1..]);
      if s[0] == '\n' {
        assert "\n" + s[1..] == s;
      } else {
        assert [s[0]] + s[1..] == s;
      }
    }
  }

  lemma NormalizeIdempotent(s: string)
    ensures NormalizeLineEndings(NormalizeLineEndings(s)) == NormalizeLineEndings(s)
  {
    NormalizeWithoutCr(NormalizeLineEndings(s));
  }

  /** Splitting into lines and joining with LF is exactly line-ending normalisation. */
  lemma {:induction false} JoinOfLines(s: string)
    ensures JoinLines(Lines(s)) == NormalizeLineEndings(s)
    decreases |s|
  {
    if s == [] {
    } else if s[0] == '\n' {
      JoinOfLines(s[1..]);
    } else if s[0] == '\r' {
      if |s| >= 2 && s[1] == '\n' {
        JoinOfLines(s[2..]);
      } else {
        JoinOfLines(s[1..]);
      }
    } else {
      JoinOfLines(s[1..]);
      JoinLinesCons(s[0], Lines(s[1..]));
    }
  }

  /** `map { it.trim() }` over a list of lines. */
  function TrimEach(ls: seq<string>): (r: seq<string>)
    ensures |r| == |ls| && forall i :: 0 <= i < |r| ==> r[i] == Trim(ls[i])
  {
    seq(|ls|, i requires 0 <= i < |ls| => Trim(ls[i]))
  }

  /** `map { it.trimEnd() }` over a list of lines. */
  function TrimEndEach(ls: seq<string>): (r: seq<string>)
    ensures |r| == |ls| && forall i :: 0 <= i < |r| ==> r[i] == TrimEnd(ls[i])
  {
    seq(|ls|, i requires 0 <= i < |ls| => TrimEnd(ls[i]))
  }

  /** `map { it.trimStart() }` over a list of lines. */
  function TrimStartEach(ls: seq<string>): (r: seq<string>)
    ensures |r| == |ls| && forall i :: 0 <= i < |r| ==> r[i] == TrimStart(ls[i])
  {
    seq(|ls|, i requires 0 <= i < |ls| => TrimStart(ls[i]))
  }

  /** Trimming every line of a list of lines, at one or both ends, leaves a list of lines. */
  lemma TrimEachKeepsLines(ls: seq<string>)
    requires AllLines(ls)
    ensures AllLines(TrimEach(ls)) && AllLines(TrimEndEach(ls)) && AllLines(TrimStartEach(ls))
  {
    forall i | 0 <= i < |ls|
      ensures IsLine(TrimEach(ls)[i]) && IsLine(TrimEndEach(ls)[i]) && IsLine(TrimStartEach(ls)[i])
    {
      TrimLine(ls[i]);
      TrimEndsKeepLine(ls[i]);
    }
  }

  /** `lines().joinToString("\n") { it.trim() }`. */
  function TrimLines(s: string): string
  {
    JoinLines(TrimEach(Lines(s)))
  }

  /** Splitting the result into lines gives back the input's lines, each trimmed. */
  lemma TrimLinesLines(s: string)
    ensures Lines(TrimLines(s)) == TrimEach(Lines(s))
  {
    LinesAreLines(s);
    TrimEachKeepsLines(Lines(s));
    LinesOfJoin(TrimEach(Lines(s)));
  }

  /** `lines().joinToString("\n") { it.trimEnd() }`. */
  function RemoveTrailingSpaces(s: string): string
  {
    JoinLines(TrimEndEach(Lines(s)))
  }

  /** Splitting the result into lines gives back the input's lines, each with its end trimmed. */
  lemma RemoveTrailingSpacesLines(s: string)
    ensures Lines(RemoveTrailingSpaces(s)) == TrimEndEach(Lines(s))
  {
    LinesAreLines(s);
    TrimEachKeepsLines(Lines(s));
    LinesOfJoin(TrimEndEach(Lines(s)));
  }

  /** `lines().joinToString("\n") { it.trimStart() }`. */
  function RemoveLeadingSpaces(s: string): string
  {
    JoinLines(TrimStartEach(Lines(s)))
  }

  /** Splitting the result into lines gives back the input's lines, each with its start trimmed. */
  lemma RemoveLeadingSpacesLines(s: string)
    ensures Lines(RemoveLeadingSpaces(s)) == TrimStartEach(Lines(s))
  {
    LinesAreLines(s);
    TrimEachKeepsLines(Lines(s));
    LinesOfJoin(TrimStartEach(Lines(s)));
  }

  /** `line` is what `trim` makes of `original`: no whitespace at either end, and empty exactly when `original` is blank. */
  predicate TrimmedLine(line: string, original: string)
  {
    && (line == [] || (!IsWhitespace(line[0]) && !IsWhitespace(line[|line| - 1])))
    && (line == [] <==> IsBlank(original))
  }

  /** No line of `trimLines` starts or ends with whitespace, and only blank input lines become empty. */
  lemma TrimLinesLineEnds(s: string, i: nat)
    requires i < |Lines(s)|
    ensures |Lines(TrimLines(s))| == |Lines(s)|
    ensures TrimmedLine(Lines(TrimLines(s))[i], Lines(s)[i])
  {
    TrimLinesLines(s);
    TrimResult(Lines(s)[i]);
  }

  /** No line of `removeTrailingSpaces` ends with whitespace. */
  lemma RemoveTrailingSpacesLineEnds(s: string, i: nat)
    requires i < |Lines(RemoveTrailingSpaces(s))|
    ensures var line := Lines(RemoveTrailingSpaces(s))[i];
      line == [] || !IsWhitespace(line[|line| - 1])
  {
    RemoveTrailingSpacesLines(s);
  }

  /** No line of `removeLeadingSpaces` starts with whitespace. */
  lemma RemoveLeadingSpacesLineStarts(s: string, i: nat)
    requires i < |Lines(RemoveLeadingSpaces(s))|
    ensures var line := Lines(RemoveLeadingSpaces(s))[i];
      line == [] || !IsWhitespace(line[0])
  {
    RemoveLeadingSpacesLines(s);
  }

  /** The character classes of the two run-collapsing regular expressions. */
  datatype RunClass =
    | Spaces          // ` ` in `" {2,}"`
    | RegexWhitespace // `\s` in `"\\s{2,}"`: Java's ASCII-only `[ \t\n\x0B\f\r]`

  predicate InClass(k: RunClass, c: char)
  {
    match k
    case Spaces => c == ' '
    case RegexWhitespace => c == ' ' || '\t' <= c <= '\r'
  }

  /** No two neighbouring characters are both of class `k`. */
  predicate NoAdjacent(s: string, k: RunClass)
  {
    forall i :: 1 <= i < |s| ==> !(InClass(k, s[i - 1]) && InClass(k, s[i]))
  }

  /** The length of the run of class-`k` characters that starts `s`. */
  function RunLength(s: string, k: RunClass): (n: nat)
    ensures n <= |s|
    ensures forall i :: 0 <= i < n ==> InClass(k, s[i])
    ensures n < |s| ==> !InClass(k, s[n])
    decreases |s|
  {
    if s != [] && InClass(k, s[0]) then 1 + RunLength(s[1..], k) else 0
  }

  /**
   * `replace(Regex("c{2,}"), " ")` for the class `k`: scanning left to right,
   * each maximal run of two or more class characters becomes one space; a
   * run of one is kept as it is.
   */
  function CollapseRuns(s: string, k: RunClass): (r: string)
    ensures NoAdjacent(r, k)
    ensures r == [] <==> s == []
    ensures s != [] ==> (InClass(k, r[0]) <==> InClass(k, s[0]))
    ensures forall i :: 0 <= i < |r| ==> r[i] == ' ' || r[i] in s
    decreases |s|
  {
    if s == [] then []
    else
      var n := RunLength(s, k);
      if n >= 2 then " " + CollapseRuns(s[n..], k) else [s[0]] + CollapseRuns(s[1..], k)
  }

  /** `s` with every class-`k` character deleted. */
  function Strip(s: string, k: RunClass): string
    decreases |s|
  {
    if s == [] then [] else (if InClass(k, s[0]) then [] else [s[0]]) + Strip(s[1..], k)
  }

  lemma {:induction false} StripRun(s: string, k: RunClass, n: nat)
    requires n <= |s| && forall i :: 0 <= i < n ==> InClass(k, s[i])
    ensures Strip(s, k) == Strip(s[n..], k)
    decreases n
  {
    if n > 0 {
      StripRun(s[1..], k, n - 1);
      assert s[1..][n - 1..] == s[n..];
    }
  }

  /** Deleting the class characters from input and output gives the same text. */
  lemma {:induction false} StripCollapse(s: string, k: RunClass)
    ensures Strip(CollapseRuns(s, k), k) == Strip(s, k)
    decreases |s|
  {
    if s != [] {
      var n := RunLength(s, k);
      if n >= 2 {
        StripCollapse(s[n..], k);
        StripRun(s, k, n);
        assert (" " + CollapseRuns(s[n..], k))[1..] == CollapseRuns(s[n..], k);
      } else {
        StripCollapse(s[1..], k);
        assert ([s[0]] + CollapseRuns(s[1..], k))[1..] == CollapseRuns(s[1..], k);
      }
    }
  }

  /** Text without adjacent class characters is left as it is. */
  lemma {:induction false} CollapseWithoutRuns(s: string, k: RunClass)
    requires NoAdjacent(s, k)
    ensures CollapseRuns(s, k) == s
    decreases |s|
  {
    if s != [] {
      assert RunLength(s, k) <= 1 by {
        if |s| >= 2 { assert !(InClass(k, s[0]) && InClass(k, s[1])); }
      }
      assert NoAdjacent(s[1..], k) by {
        forall i | 1 <= i < |s[1..]| ensures !(InClass(k, s[1..][i - 1]) && InClass(k, s[1..][i])) {
          assert s[1..][i - 1] == s[i] && s[1..][i] == s[i + 1];
        }
      }
      CollapseWithoutRuns(s[1..], k);
      assert [s[0]] + s[1..] == s;
    }
  }

  /**
   * A whole run of two or more class characters becomes one space, and a
   * single character, of the class or not, is kept as it is.
   */
  lemma CollapseRunOfClass(s: string, k: RunClass)
    requires forall i :: 0 <= i < |s| ==> InClass(k, s[i])
    ensures |s| >= 2 ==> CollapseRuns(s, k) == " "
    ensures |s| == 1 ==> CollapseRuns(s, k) == s
  {
    var n := RunLength(s, k);
    assert n == |s|;
    if |s| >= 2 {
      assert s[n..] == [];
    }
  }

  lemma CollapseSingle(c: char, k: RunClass)
    ensures CollapseRuns([c], k) == [c]
  {
    assert [c][1..] == [];
  }

  /** Two texts that do not meet in the middle of a run collapse independently of each other. */
  predicate Separated(a: string, b: string, k: RunClass)
  {
    !(a != [] && b != [] && InClass(k, a[|a| - 1]) && InClass(k, b[0]))
  }

  /** The run at the start of `a + b` lies inside `a` when the two do not meet in a run. */
  lemma {:induction false} RunLengthAppend(a: string, b: string, k: RunClass)
    requires a != [] && Separated(a, b, k)
    ensures RunLength(a + b, k) == RunLength(a, k)
    decreases |a|
  {
    assert (a + b)[0] == a[0];
    if InClass(k, a[0]) {
      assert (a + b)[1..] == a[1..] + b;
      if a[1..] == [] {
        assert a[1..] + b == b;
      } else {
        assert a[1..][|a[1..]| - 1] == a[|a| - 1];
        RunLengthAppend(a[1..], b, k);
      }
    }
  }

  /** One step of the scan: the head of the output and the rest of the input still to scan. */
  lemma CollapseRunsStep(s: string, k: RunClass)
    requires s != []
    ensures var n := RunLength(s, k);
      CollapseRuns(s, k) == (if n >= 2 then " " else [s[0]]) + CollapseRuns(s[if n >= 2 then n else 1..], k)
  {
  }

  /**
   * The scan of `a + b` takes its first step inside `a`: it emits the same
   * `head` as the scan of `a` and leaves `rest + b` to scan.
   */
  lemma CollapseRunsAppendStep(a: string, b: string, k: RunClass) returns (head: string, rest: string)
    requires a != [] && Separated(a, b, k)
    ensures |rest| < |a| && Separated(rest, b, k)
    ensures CollapseRuns(a, k) == head + CollapseRuns(rest, k)
    ensures CollapseRuns(a + b, k) == head + CollapseRuns(rest + b, k)
  {
    var ab := a + b;
    var n := RunLength(a, k);
    var m := if n >= 2 then n else 1;
    head, rest := if n >= 2 then " " else [a[0]], a[m..];
    RunLengthAppend(a, b, k);
    assert ab[0] == a[0];
    assert ab[m..] == rest + b;
    CollapseRunsStep(a, k);
    CollapseRunsStep(ab, k);
    if rest != [] {
      assert rest[|rest| - 1] == a[|a| - 1];
    }
  }

  /**
   * The replacement works run by run, at the place of each run: collapsing
   * two texts that do not meet in a run and concatenating the results is
   * the same as collapsing their concatenation.
   */
  lemma {:induction false} CollapseRunsAppend(a: string, b: string, k: RunClass)
    requires Separated(a, b, k)
    ensures CollapseRuns(a + b, k) == CollapseRuns(a, k) + CollapseRuns(b, k)
    decreases |a|
  {
    if a == [] {
      assert a + b == b;
    } else {
      var head, rest := CollapseRunsAppendStep(a, b, k);
      CollapseRunsAppend(rest, b, k);
      AppendAssoc(head, CollapseRuns(rest, k), CollapseRuns(b, k));
    }
  }

  lemma CollapseIdempotent(s: string, k: RunClass)
    ensures CollapseRuns(CollapseRuns(s, k), k) == CollapseRuns(s, k)
  {
    CollapseWithoutRuns(CollapseRuns(s, k), k);
  }

  /** `replace(Regex(" {2,}"), " ")`. */
  function CollapseSpaces(s: string): (r: string)
    ensures forall i :: 1 <= i < |r| ==> !(r[i - 1] == ' ' && r[i] == ' ')
  {
    CollapseRuns(s, Spaces)
  }

  /** Collapsing spaces deletes only spaces, and a second collapse changes nothing. */
  lemma CollapseSpacesFacts(s: string)
    ensures Strip(CollapseSpaces(s), Spaces) == Strip(s, Spaces)
    ensures CollapseSpaces(CollapseSpaces(s)) == CollapseSpaces(s)
  {
    StripCollapse(s, Spaces);
    CollapseIdempotent(s, Spaces);
  }

  /** `replace(Regex("\\s{2,}"), " ")`. */
  function CollapseAllWhitespace(s: string): (r: string)
    ensures NoAdjacent(r, RegexWhitespace)
  {
    CollapseRuns(s, RegexWhitespace)
  }

  /** Collapsing whitespace deletes only regex whitespace, and a second collapse changes nothing. */
  lemma CollapseAllWhitespaceFacts(s: string)
    ensures Strip(CollapseAllWhitespace(s), RegexWhitespace) == Strip(s, RegexWhitespace)
    ensures CollapseAllWhitespace(CollapseAllWhitespace(s)) == CollapseAllWhitespace(s)
  {
    StripCollapse(s, RegexWhitespace);
    CollapseIdempotent(s, RegexWhitespace);
  }

  /** `filter { it.isNotBlank() }`. */
  function NonBlankLines(ls: seq<string>): (r: seq<string>)
    ensures |r| <= |ls|
    ensures forall i :: 0 <= i < |r| ==> !IsBlank(r[i]) && r[i] in ls
    decreases |ls|
  {
    if ls == [] then [] else (if IsBlank(ls[0]) then [] else [ls[0]]) + NonBlankLines(ls[1..])
  }

  /** The filter works line by line and keeps the order: it distributes over concatenation. */
  lemma {:induction false} NonBlankLinesAppend(a: seq<string>, b: seq<string>)
    ensures NonBlankLines(a + b) == NonBlankLines(a) + NonBlankLines(b)
    decreases |a|
  {
    if a != [] {
      NonBlankLinesAppend(a[1..], b);
      assert (a + b)[1..] == a[1..] + b;
    } else {
      assert a + b == b;
    }
  }

  /** Without blank lines the filter keeps everything. */
  lemma {:induction false} NonBlankLinesAll(ls: seq<string>)
    requires forall i :: 0 <= i < |ls| ==> !IsBlank(ls[i])
    ensures NonBlankLines(ls) == ls
    decreases |ls|
  {
    if ls != [] {
      NonBlankLinesAll(ls[1..]);
    }
  }

  /** `lines().filter { it.isNotBlank() }.joinToString("\n")`. */
  function RemoveEmptyLines(s: string): string
  {
    JoinLines(NonBlankLines(Lines(s)))
  }

  /** The result's lines are exactly the input's non-blank lines, in order; with none, the result is empty. */
  lemma RemoveEmptyLinesLines(s: string)
    ensures NonBlankLines(Lines(s)) == [] ==> RemoveEmptyLines(s) == ""
    ensures NonBlankLines(Lines(s)) != [] ==> Lines(RemoveEmptyLines(s)) == NonBlankLines(Lines(s))
    ensures forall i :: 0 <= i < |Lines(RemoveEmptyLines(s))| ==> RemoveEmptyLines(s) == "" || !IsBlank(Lines(RemoveEmptyLines(s))[i])
  {
    var ms := NonBlankLines(Lines(s));
    if ms != [] {
      LinesAreLines(s);
      LinesOfJoin(ms);
    }
  }

  /** The number of tabs in `s`. */
  function TabCount(s: string): nat
    decreases |s|
  {
    if s == [] then 0 else (if s[0] == '\t' then 1 else 0) + TabCount(s[1..])
  }

  /** `" ".repeat(n)`. */
  function Blanks(n: nat): (r: string)
    ensures |r| == n
    ensures forall i :: 0 <= i < n ==> r[i] == ' '
    decreases n
  {
    if n == 0 then "" else " " + Blanks(n - 1)
  }

  /** What one character of the text becomes. */
  function Expansion(c: char, tabSize: nat): (r: string)
    ensures |r| == if c == '\t' then tabSize else 1
    ensures '\t' !in r && (c != '\r' ==> '\r' !in r)
  {
    if c == '\t' then Blanks(tabSize) else [c]
  }

  /** `replace("\t", " ".repeat(tabSize))`; a negative size makes `repeat` throw. */
  function ExpandTabs(s: string, tabSize: nat): string
    decreases |s|
  {
    if s == [] then [] else Expansion(s[0], tabSize) + ExpandTabs(s[1..], tabSize)
  }

  /** No tab survives the expansion, and it introduces no carriage return. */
  lemma {:induction false} ExpandTabsClean(s: string, tabSize: nat)
    ensures '\t' !in ExpandTabs(s, tabSize)
    ensures '\r' !in s ==> '\r' !in ExpandTabs(s, tabSize)
    decreases |s|
  {
    if s != [] {
      ExpandTabsClean(s[1..], tabSize);
    }
  }

  lemma MulSucc(a: int, b: int)
    ensures a * (b + 1) == a * b + a
  {
  }

  /** Each tab adds `tabSize - 1` characters. */
  lemma {:induction false} ExpandTabsLength(s: string, tabSize: nat)
    ensures |ExpandTabs(s, tabSize)| == |s| + (tabSize - 1) * TabCount(s)
    decreases |s|
  {
    if s != [] {
      ExpandTabsLength(s[1..], tabSize);
      assert ExpandTabs(s, tabSize) == Expansion(s[0], tabSize) + ExpandTabs(s[1..], tabSize);
      if s[0] == '\t' {
        assert TabCount(s) == TabCount(s[1..]) + 1;
        MulSucc(tabSize - 1, TabCount(s[1..]));
      } else {
        assert TabCount(s) == TabCount(s[1..]);
      }
    }
  }

  /** Expansion works character by character: it distributes over concatenation. */
  lemma {:induction false} ExpandTabsAppend(a: string, b: string, tabSize: nat)
    ensures ExpandTabs(a + b, tabSize) == ExpandTabs(a, tabSize) + ExpandTabs(b, tabSize)
    decreases |a|
  {
    if a == [] {
      assert a + b == b;
    } else {
      ExpandTabsAppend(a[1..], b, tabSize);
      assert (a + b)[0] == a[0] && (a + b)[1..] == a[1..] + b;
      var e := Expansion(a[0], tabSize);
      calc {
        ExpandTabs(a + b, tabSize);
        e + ExpandTabs(a[1..] + b, tabSize);
        e + (ExpandTabs(a[1..], tabSize) + ExpandTabs(b, tabSize));
        (e + ExpandTabs(a[1..], tabSize)) + ExpandTabs(b, tabSize);
      }
    }
  }

  /** The index of the first non-blank line, or -1 (`indexOfFirst { it.isNotBlank() }`). */
  function IndexOfFirstNonBlank(ls: seq<string>): (r: int)
    ensures -1 <= r < |ls|
    ensures r == -1 ==> forall i :: 0 <= i < |ls| ==> IsBlank(ls[i])
    ensures r >= 0 ==> !IsBlank(ls[r]) && forall i :: 0 <= i < r ==> IsBlank(ls[i])
    decreases |ls|
  {
    if ls == [] then -1
    else if !IsBlank(ls[0]) then 0
    else
      var r := IndexOfFirstNonBlank(ls[1..]);
      if r == -1 then -1 else r + 1
  }

  /** The index of the last non-blank line, or -1 (`indexOfLast { it.isNotBlank() }`). */
  function IndexOfLastNonBlank(ls: seq<string>): (r: int)
    ensures -1 <= r < |ls|
    ensures r == -1 ==> forall i :: 0 <= i < |ls| ==> IsBlank(ls[i])
    ensures r >= 0 ==> !IsBlank(ls[r]) && forall i :: r < i < |ls| ==> IsBlank(ls[i])
    decreases |ls|
  {
    if ls == [] then -1
    else if !IsBlank(ls[|ls| - 1]) then |ls| - 1
    else IndexOfLastNonBlank(ls[..|ls| - 1])
  }

  /**
   * Drops the blank lines before the first and after the last non-blank
   * line; when every line is blank, all lines are kept (the indices fall
   * back to 0 and `lastIndex`).  The two indices are both -1 or both
   * found, so the empty fallback of the last branch is never taken.
   */
  function DropBlankEnds(ls: seq<string>): seq<string>
  {
    var first := IndexOfFirstNonBlank(ls);
    var last := IndexOfLastNonBlank(ls);
    var from := if first >= 0 then first else 0;
    var to := if last >= 0 then last else |ls| - 1;
    if from <= to + 1 then ls[from..to + 1] else []
  }

  /** `lines()`, then the blank lines at both ends dropped, joined again with `\n`. */
  function TrimEmptyLines(s: string): string
  {
    JoinLines(DropBlankEnds(Lines(s)))
  }

  predicate HasNonBlank(ls: seq<string>)
  {
    exists i :: 0 <= i < |ls| && !IsBlank(ls[i])
  }

  lemma NonBlankBounds(ls: seq<string>)
    requires HasNonBlank(ls)
    ensures 0 <= IndexOfFirstNonBlank(ls) <= IndexOfLastNonBlank(ls)
  {
    var k :| 0 <= k < |ls| && !IsBlank(ls[k]);
  }

  /** With some non-blank line, the kept lines run exactly from the first non-blank line to the last. */
  lemma DropBlankEndsSome(ls: seq<string>)
    requires HasNonBlank(ls)
    ensures var first := IndexOfFirstNonBlank(ls); var last := IndexOfLastNonBlank(ls);
      && 0 <= first <= last
      && DropBlankEnds(ls) == ls[first..last + 1]
  {
    NonBlankBounds(ls);
  }

  /** With some non-blank line, the result's lines run exactly from the first non-blank line to the last. */
  lemma TrimEmptyLinesSome(s: string)
    requires HasNonBlank(Lines(s))
    ensures var ls := Lines(s); var first := IndexOfFirstNonBlank(ls); var last := IndexOfLastNonBlank(ls);
      && 0 <= first <= last
      && Lines(TrimEmptyLines(s)) == ls[first..last + 1]
  {
    LinesAreLines(s);
    KeptLinesRoundTrip(Lines(s));
  }

  /** Joining the kept lines and splitting again gives back exactly the kept lines. */
  lemma KeptLinesRoundTrip(ls: seq<string>)
    requires AllLines(ls) && HasNonBlank(ls)
    ensures var first := IndexOfFirstNonBlank(ls); var last := IndexOfLastNonBlank(ls);
      && 0 <= first <= last
      && Lines(JoinLines(DropBlankEnds(ls))) == ls[first..last + 1]
  {
    DropBlankEndsSome(ls);
    AllLinesSlice(ls, IndexOfFirstNonBlank(ls), IndexOfLastNonBlank(ls) + 1);
    LinesOfJoin(DropBlankEnds(ls));
  }

  /** With only blank lines, every line is kept: the result is the input with its line endings normalised. */
  lemma TrimEmptyLinesAllBlank(s: string)
    requires !HasNonBlank(Lines(s))
    ensures Lines(TrimEmptyLines(s)) == Lines(s)
    ensures TrimEmptyLines(s) == NormalizeLineEndings(s)
  {
    var ls := Lines(s);
    assert ls[0..|ls|] == ls;
    assert DropBlankEnds(ls) == ls;
    LinesAreLines(s);
    LinesOfJoin(ls);
    JoinOfLines(s);
  }

  /** Normalise line endings, trim every line, collapse spaces, drop blank lines, expand tabs. */
  function FullClean(s: string, tabSize: nat): (r: string)
    ensures '\r' !in r && '\t' !in r
  {
    var normalized := NormalizeLineEndings(s);
    var trimmed := TrimLines(normalized);
    var collapsed := CollapseSpaces(trimmed);
    var nonEmpty := RemoveEmptyLines(collapsed);
    FullCleanNoCr(s);
    ExpandTabsClean(nonEmpty, tabSize);
    ExpandTabs(nonEmpty, tabSize)
  }

  lemma FullCleanNoCr(s: string)
    ensures '\r' !in RemoveEmptyLines(CollapseSpaces(TrimLines(NormalizeLineEndings(s))))
  {
    var ls := Lines(NormalizeLineEndings(s));
    LinesAreLines(NormalizeLineEndings(s));
    TrimEachKeepsLines(ls);
    JoinLinesNoCr(TrimEach(ls));
    LinesAreLines(CollapseSpaces(TrimLines(NormalizeLineEndings(s))));
    JoinLinesNoCr(NonBlankLines(Lines(CollapseSpaces(TrimLines(NormalizeLineEndings(s))))));
  }
}

/**
 * The editor's visual transformation (util/WhitespaceAndUnicodeVisualTransformation.kt):
 * tabs are displayed as `tabSize` spaces, non-ASCII characters are
 * highlighted, and two index tables translate cursor offsets between the
 * original and the displayed text.
 */
module VisualTransformation {
  import opened TextFieldUtils

  /** A style span over `[start, end)` of the displayed text (the red underline). */
  datatype SpanRange = SpanRange(start: nat, end: nat)

  datatype AnnotatedString = AnnotatedString(text: string, spans: seq<SpanRange>)

  /** The two index tables and the two lengths the `OffsetMapping` object captures. */
  datatype OffsetMapping = OffsetMapping(
    originalToTransformedMap: seq<int>,
    transformedToOriginalMap: seq<int>,
    originalLength: nat,
    transformedLength: nat)

  datatype TransformedText = TransformedText(text: AnnotatedString, offsetMapping: OffsetMapping)

  /** The number of displayed characters for `c`. */
  function Width(c: char, tabSize: nat): nat
  {
    if c == '\t' then tabSize else 1
  }

  /** Where each original character starts in the displayed text. */
  function Starts(s: string, tabSize: nat): (r: seq<int>)
    ensures |r| == |s|
  {
    seq(|s|, i requires 0 <= i < |s| => |ExpandTabs(s[..i], tabSize)|)
  }

  /** `n` copies of `x`. */
  function Repeated(x: int, n: nat): (r: seq<int>)
    ensures |r| == n && forall k :: 0 <= k < n ==> r[k] == x
  {
    if n == 0 then [] else Repeated(x, n - 1) + [x]
  }

  /** For each displayed character, the original character it comes from. */
  function Owners(s: string, tabSize: nat): (r: seq<int>)
    ensures forall j :: 0 <= j < |r| ==> 0 <= r[j] < |s|
    decreases |s|
  {
    if s == [] then []
    else Owners(s[..|s| - 1], tabSize) + Repeated(|s| - 1, Width(s[|s| - 1], tabSize))
  }

  /** The mapping `filter` builds for `s`. */
  function MappingFor(s: string, tabSize: nat): OffsetMapping
  {
    OffsetMapping(Starts(s, tabSize), Owners(s, tabSize), |s|, |ExpandTabs(s, tabSize)|)
  }

  /** Every table entry is an offset into the text on the other side. */
  predicate ValidMapping(m: OffsetMapping)
  {
    && (forall i :: 0 <= i < |m.originalToTransformedMap| ==> 0 <= m.originalToTransformedMap[i] <= m.transformedLength)
    && (forall j :: 0 <= j < |m.transformedToOriginalMap| ==> 0 <= m.transformedToOriginalMap[j] <= m.originalLength)
  }

  /** `OffsetMapping.originalToTransformed`: a table lookup, clamped at both ends. */
  function OriginalToTransformed(m: OffsetMapping, offset: int): (r: int)
    ensures offset <= 0 ==> r == 0
    ensures offset > 0 && offset >= |m.originalToTransformedMap| ==> r == m.transformedLength
    ensures 0 < offset < |m.originalToTransformedMap| ==> r == m.originalToTransformedMap[offset]
    ensures ValidMapping(m) ==> 0 <= r <= m.transformedLength
  {
    if offset <= 0 then 0
    else if offset >= |m.originalToTransformedMap| then m.transformedLength
    else m.originalToTransformedMap[offset]
  }

  /** `OffsetMapping.transformedToOriginal`: a table lookup, clamped at both ends. */
  function TransformedToOriginal(m: OffsetMapping, offset: int): (r: int)
    ensures offset <= 0 ==> r == 0
    ensures offset > 0 && offset >= |m.transformedToOriginalMap| ==> r == m.originalLength
    ensures 0 < offset < |m.transformedToOriginalMap| ==> r == m.transformedToOriginalMap[offset]
    ensures ValidMapping(m) ==> 0 <= r <= m.originalLength
  {
    if offset <= 0 then 0
    else if offset >= |m.transformedToOriginalMap| then m.originalLength
    else m.transformedToOriginalMap[offset]
  }

  /** The spans `filter` puts on the displayed text: one per non-ASCII character. */
  function NonAsciiSpans(s: string, tabSize: nat): seq<SpanRange>
    decreases |s|
  {
    if s == [] then []
    else
      var init := s[..|s| - 1];
      var at := |ExpandTabs(init, tabSize)|;
      NonAsciiSpans(init, tabSize) + (if s[|s| - 1] as int > 127 then [SpanRange(at, at + 1)] else [])
  }

  /** The positions of the non-ASCII characters of a text. */
  function NonAsciiPositions(t: string): set<int>
  {
    set j | 0 <= j < |t| && t[j] as int > 127
  }

  function SpanStarts(spans: seq<SpanRange>): set<int>
  {
    set k | 0 <= k < |spans| :: spans[k].start
  }

  // ---- Facts about the expansion of a prefix ----

  lemma ExpandOne(c: char, tabSize: nat)
    ensures ExpandTabs([c], tabSize) == Expansion(c, tabSize)
  {
    assert [c][1..] == [];
  }

  /** Expanding one more character appends that character's expansion. */
  lemma ExpandSnoc(s: string, i: nat, tabSize: nat)
    requires i < |s|
    ensures ExpandTabs(s[..i + 1], tabSize) == ExpandTabs(s[..i], tabSize) + Expansion(s[i], tabSize)
  {
    assert s[..i + 1] == s[..i] + [s[i]];
    ExpandTabsAppend(s[..i], [s[i]], tabSize);
    ExpandOne(s[i], tabSize);
  }

  /** The expansion of a prefix is a prefix of the expansion. */
  lemma ExpandPrefix(s: string, i: nat, tabSize: nat)
    requires i <= |s|
    ensures |ExpandTabs(s[..i], tabSize)| <= |ExpandTabs(s, tabSize)|
    ensures ExpandTabs(s, tabSize)[..|ExpandTabs(s[..i], tabSize)|] == ExpandTabs(s[..i], tabSize)
  {
    assert s == s[..i] + s[i..];
    ExpandTabsAppend(s[..i], s[i..], tabSize);
  }

  /**
   * The start of character `i` is `i` plus `tabSize - 1` for every tab before
   * it, and the starts never decrease.
   */
  lemma StartsClosedForm(s: string, tabSize: nat, i: nat)
    requires i < |s|
    ensures Starts(s, tabSize)[i] == i + (tabSize - 1) * TabCount(s[..i])
    ensures forall k :: i <= k < |s| ==> Starts(s, tabSize)[i] <= Starts(s, tabSize)[k]
  {
    ExpandTabsLength(s[..i], tabSize);
    forall k | i <= k < |s| ensures Starts(s, tabSize)[i] <= Starts(s, tabSize)[k] {
      assert s[..k][..i] == s[..i];
      ExpandPrefix(s[..k], i, tabSize);
    }
  }

  /** The displayed text holds character `i`'s expansion at `Starts[i]`: a tab's spaces, or the character itself. */
  lemma ExpandedAt(s: string, tabSize: nat, i: nat)
    requires i < |s|
    ensures var at := Starts(s, tabSize)[i]; var t := ExpandTabs(s, tabSize);
      && at + Width(s[i], tabSize) <= |t|
      && t[at..at + Width(s[i], tabSize)] == Expansion(s[i], tabSize)
  {
    var p, e, t := ExpandTabs(s[..i], tabSize), Expansion(s[i], tabSize), ExpandTabs(s, tabSize);
    assert Starts(s, tabSize)[i] == |p|;
    ExpandSnoc(s, i, tabSize);
    ExpandPrefix(s, i + 1, tabSize);
    SliceAfterPrefix(t, p, e);
  }

  /** A text that starts with `p + e` holds `e` right after `p`. */
  lemma SliceAfterPrefix(t: string, p: string, e: string)
    requires |p| + |e| <= |t| && t[..|p| + |e|] == p + e
    ensures t[|p|..|p| + |e|] == e
  {
    assert t[|p|..|p| + |e|] == (p + e)[|p|..];
  }

  lemma {:induction false} OwnersLength(s: string, tabSize: nat)
    ensures |Owners(s, tabSize)| == |ExpandTabs(s, tabSize)|
    decreases |s|
  {
    if s != [] {
      OwnersLength(s[..|s| - 1], tabSize);
      ExpandSnoc(s, |s| - 1, tabSize);
      assert s[..|s|] == s;
    }
  }

  /** Every displayed position inside character `i`'s expansion maps back to `i`. */
  lemma {:induction false} OwnersAt(s: string, tabSize: nat, i: nat, j: int)
    requires i < |s|
    requires Starts(s, tabSize)[i] <= j < Starts(s, tabSize)[i] + Width(s[i], tabSize)
    ensures j < |Owners(s, tabSize)| && Owners(s, tabSize)[j] == i
    decreases |s|
  {
    var init := s[..|s| - 1];
    OwnersLength(init, tabSize);
    OwnersLength(s, tabSize);
    ExpandedAt(s, tabSize, i);
    if i < |s| - 1 {
      assert init[..i] == s[..i] && init[i] == s[i];
      assert Starts(init, tabSize)[i] == Starts(s, tabSize)[i];
      OwnersAt(init, tabSize, i, j);
      ExpandedAt(init, tabSize, i);
    } else {
      assert init == s[..i];
    }
  }

  lemma StartsInRange(s: string, tabSize: nat)
    ensures forall i :: 0 <= i < |s| ==> 0 <= Starts(s, tabSize)[i] <= |ExpandTabs(s, tabSize)|
  {
    forall i | 0 <= i < |s| ensures Starts(s, tabSize)[i] <= |ExpandTabs(s, tabSize)| {
      ExpandPrefix(s, i, tabSize);
    }
  }

  /** The mapping `filter` builds only points inside the texts. */
  lemma MappingForValid(s: string, tabSize: nat)
    ensures ValidMapping(MappingFor(s, tabSize))
  {
    StartsInRange(s, tabSize);
    OwnersLength(s, tabSize);
  }

  /** With tabs at least one column wide the display is never shorter than the text. */
  lemma {:induction false} ExpandTabsGrows(s: string, tabSize: nat)
    requires tabSize >= 1
    ensures |ExpandTabs(s, tabSize)| >= |s|
    decreases |s|
  {
    if s != [] {
      ExpandTabsGrows(s[1..], tabSize);
    }
  }

  lemma RoundTripInside(s: string, tabSize: nat, k: int)
    requires tabSize >= 1 && 0 < k < |s|
    ensures var m := MappingFor(s, tabSize);
      TransformedToOriginal(m, OriginalToTransformed(m, k)) == k
  {
    var m := MappingFor(s, tabSize);
    var at := Starts(s, tabSize)[k];
    OwnersAt(s, tabSize, k, at);
    ExpandTabsGrows(s[..k], tabSize);
    assert OriginalToTransformed(m, k) == at > 0;
  }

  lemma RoundTripEnd(s: string, tabSize: nat)
    requires tabSize >= 1 && |s| > 0
    ensures var m := MappingFor(s, tabSize);
      TransformedToOriginal(m, OriginalToTransformed(m, |s|)) == |s|
  {
    var m := MappingFor(s, tabSize);
    OwnersLength(s, tabSize);
    ExpandTabsGrows(s, tabSize);
    assert OriginalToTransformed(m, |s|) == |ExpandTabs(s, tabSize)| == |m.transformedToOriginalMap| > 0;
  }

  /**
   * With tabs at least one column wide, mapping an original offset to the
   * display and back gives the same offset.
   */
  lemma RoundTrip(s: string, tabSize: nat, k: int)
    requires tabSize >= 1 && 0 <= k <= |s|
    ensures var m := MappingFor(s, tabSize);
      TransformedToOriginal(m, OriginalToTransformed(m, k)) == k
  {
    if 0 < k < |s| {
      RoundTripInside(s, tabSize, k);
    } else if k == |s| && k > 0 {
      RoundTripEnd(s, tabSize);
    }
  }

  // ---- The highlighting spans ----

  lemma NonAsciiPositionsSnoc(t: string, e: string, c: char, tabSize: nat)
    requires e == Expansion(c, tabSize)
    ensures NonAsciiPositions(t + e) == NonAsciiPositions(t) + (if c as int > 127 then {|t|} else {})
  {
    var te := t + e;
    forall j | j in NonAsciiPositions(te) ensures j in NonAsciiPositions(t) + (if c as int > 127 then {|t|} else {}) {
      if j >= |t| {
        assert te[j] == e[j - |t|];
      } else {
        assert te[j] == t[j];
      }
    }
    forall j | j in NonAsciiPositions(t) ensures j in NonAsciiPositions(te) {
      assert te[j] == t[j];
    }
    if c as int > 127 {
      assert te[|t|] == c;
    }
  }

  /** The spans start exactly at the non-ASCII characters of the displayed text. */
  lemma {:induction false} SpansMarkNonAscii(s: string, tabSize: nat)
    ensures SpanStarts(NonAsciiSpans(s, tabSize)) == NonAsciiPositions(ExpandTabs(s, tabSize))
    decreases |s|
  {
    if s != [] {
      var init, c := s[..|s| - 1], s[|s| - 1];
      SpansMarkNonAscii(init, tabSize);
      SpansSnoc(s, tabSize);
      ExpandSnoc(s, |s| - 1, tabSize);
      assert s[..|s|] == s;
      NonAsciiPositionsSnoc(ExpandTabs(init, tabSize), Expansion(c, tabSize), c, tabSize);
    }
  }

  /** The span starts of a text with one more character: those of the shorter text, and one more if it is non-ASCII. */
  lemma SpansSnoc(s: string, tabSize: nat)
    requires s != []
    ensures var init, c := s[..|s| - 1], s[|s| - 1];
      SpanStarts(NonAsciiSpans(s, tabSize))
      == SpanStarts(NonAsciiSpans(init, tabSize)) + (if c as int > 127 then {|ExpandTabs(init, tabSize)|} else {})
  {
    var init, c := s[..|s| - 1], s[|s| - 1];
    var at := |ExpandTabs(init, tabSize)|;
    var b := if c as int > 127 then [SpanRange(at, at + 1)] else [];
    assert NonAsciiSpans(s, tabSize) == NonAsciiSpans(init, tabSize) + b;
    SpanStartsAppend(NonAsciiSpans(init, tabSize), b);
    if c as int > 127 {
      assert b[0].start == at;
      assert SpanStarts(b) == {at};
    } else {
      assert SpanStarts(b) == {};
    }
  }

  /** The spans of a prefix one character longer. */
  lemma SpansStep(s: string, i: nat, tabSize: nat)
    requires i < |s|
    ensures var at := |ExpandTabs(s[..i], tabSize)|;
      NonAsciiSpans(s[..i + 1], tabSize)
      == NonAsciiSpans(s[..i], tabSize) + (if s[i] as int > 127 then [SpanRange(at, at + 1)] else [])
  {
    assert s[..i + 1][..i] == s[..i];
  }

  /** Each span covers exactly one character. */
  lemma {:induction false} SpansWidthOne(s: string, tabSize: nat)
    ensures forall k :: 0 <= k < |NonAsciiSpans(s, tabSize)| ==>
      NonAsciiSpans(s, tabSize)[k].end == NonAsciiSpans(s, tabSize)[k].start + 1
    decreases |s|
  {
    if s != [] {
      SpansWidthOne(s[..|s| - 1], tabSize);
    }
  }

  lemma SpanStartsAppend(a: seq<SpanRange>, b: seq<SpanRange>)
    ensures SpanStarts(a + b) == SpanStarts(a) + SpanStarts(b)
  {
    forall x | x in SpanStarts(a + b) ensures x in SpanStarts(a) + SpanStarts(b) {
      var k :| 0 <= k < |a + b| && (a + b)[k].start == x;
      if k >= |a| { assert (a + b)[k] == b[k - |a|]; } else { assert (a + b)[k] == a[k]; }
    }
    forall x | x in SpanStarts(a) + SpanStarts(b) ensures x in SpanStarts(a + b) {
      if x in SpanStarts(a) {
        var k :| 0 <= k < |a| && a[k].start == x;
        assert (a + b)[k] == a[k];
      } else {
        var k :| 0 <= k < |b| && b[k].start == x;
        assert (a + b)[|a| + k] == b[k];
      }
    }
  }

  // ---- The imperative `filter` ----

  /**
   * `filter`: builds the displayed text and both index tables in one pass,
   * then the highlighted copy, and packages the clamped lookups.
   */
  method Filter(original: string, tabSize: nat) returns (result: TransformedText)
    ensures result.text.text == ExpandTabs(original, tabSize)
    ensures result.text.spans == NonAsciiSpans(original, tabSize)
    ensures result.offsetMapping == MappingFor(original, tabSize)
    ensures |result.offsetMapping.originalToTransformedMap| == |original|
    ensures |result.offsetMapping.transformedToOriginalMap| == |result.text.text|
    ensures ValidMapping(result.offsetMapping)
  {
    var transformed, originalToTransformedMap, transformedToOriginalMap := BuildTables(original, tabSize);
    var styled := BuildStyled(original, tabSize);
    MappingForValid(original, tabSize);
    OwnersLength(original, tabSize);
    result := TransformedText(styled, OffsetMapping(originalToTransformedMap, transformedToOriginalMap, |original|, |transformed|));
  }

  /** The `for` loop of `filter`: the displayed text and the two index tables. */
  method BuildTables(original: string, tabSize: nat)
    returns (transformed: string, originalToTransformedMap: seq<int>, transformedToOriginalMap: seq<int>)
    ensures transformed == ExpandTabs(original, tabSize)
    ensures originalToTransformedMap == Starts(original, tabSize)
    ensures transformedToOriginalMap == Owners(original, tabSize)
  {
    transformed := "";
    originalToTransformedMap := [];
    transformedToOriginalMap := [];
    var transformedIndex := 0;
    var i := 0;
    while i < |original|
      invariant 0 <= i <= |original|
      invariant transformed == ExpandTabs(original[..i], tabSize)
      invariant transformedIndex == |transformed|
      invariant originalToTransformedMap == Starts(original[..i], tabSize)
      invariant transformedToOriginalMap == Owners(original[..i], tabSize)
    {
      var c := original[i];
      FilterStep(original, i, tabSize);
      ghost var nextText := ExpandTabs(original[..i + 1], tabSize);
      assert nextText == transformed + (if c == '\t' then Blanks(tabSize) else [c]);
      if c == '\t' {
        transformed := transformed + Blanks(tabSize);
        transformedToOriginalMap := AppendRepeated(transformedToOriginalMap, i, tabSize);
        originalToTransformedMap := originalToTransformedMap + [transformedIndex];
        transformedIndex := transformedIndex + tabSize;
      } else if c as int > 127 {
        transformed := transformed + [c];
        transformedToOriginalMap := transformedToOriginalMap + [i];
        originalToTransformedMap := originalToTransformedMap + [transformedIndex];
        transformedIndex := transformedIndex + 1;
      } else {
        transformed := transformed + [c];
        transformedToOriginalMap := transformedToOriginalMap + [i];
        originalToTransformedMap := originalToTransformedMap + [transformedIndex];
        transformedIndex := transformedIndex + 1;
      }
      i := i + 1;
    }
    assert original[..|original|] == original;
  }

  /** `repeat(n) { xs.add(x) }`. */
  method AppendRepeated(xs: seq<int>, x: int, n: nat) returns (ys: seq<int>)
    ensures ys == xs + Repeated(x, n)
  {
    ys := xs;
    var k := 0;
    while k < n
      invariant 0 <= k <= n
      invariant ys == xs + Repeated(x, k)
    {
      assert xs + Repeated(x, k) + [x] == xs + Repeated(x, k + 1);
      ys := ys + [x];
      k := k + 1;
    }
  }

  /** How the reference tables grow by one character. */
  lemma FilterStep(s: string, i: nat, tabSize: nat)
    requires i < |s|
    ensures ExpandTabs(s[..i + 1], tabSize) == ExpandTabs(s[..i], tabSize) + Expansion(s[i], tabSize)
    ensures Starts(s[..i + 1], tabSize) == Starts(s[..i], tabSize) + [|ExpandTabs(s[..i], tabSize)|]
    ensures Owners(s[..i + 1], tabSize) == Owners(s[..i], tabSize) + Repeated(i, Width(s[i], tabSize))
    ensures Expansion(s[i], tabSize) == if s[i] == '\t' then Blanks(tabSize) else [s[i]]
  {
    ExpandSnoc(s, i, tabSize);
    var p := s[..i + 1];
    assert p[..i] == s[..i];
    forall k | 0 <= k < i ensures p[..k] == s[..i][..k] { }
  }

  /** The `buildAnnotatedString` block: the displayed text again, with a span around each non-ASCII character. */
  method BuildStyled(original: string, tabSize: nat) returns (styled: AnnotatedString)
    ensures styled.text == ExpandTabs(original, tabSize)
    ensures styled.spans == NonAsciiSpans(original, tabSize)
  {
    var text: string := "";
    var spans: seq<SpanRange> := [];
    var i := 0;
    while i < |original|
      invariant 0 <= i <= |original|
      invariant text == ExpandTabs(original[..i], tabSize)
      invariant spans == NonAsciiSpans(original[..i], tabSize)
    {
      var c := original[i];
      ExpandSnoc(original, i, tabSize);
      SpansStep(original, i, tabSize);
      if c == '\t' {
        text := text + Blanks(tabSize);
      } else if c as int > 127 {
        spans := spans + [SpanRange(|text|, |text| + 1)];
        text := text + [c];
      } else {
        text := text + [c];
      }
      i := i + 1;
    }
    assert original[..|original|] == original;
    styled := AnnotatedString(text, spans);
  }
}

/**
 * Inline UI actions in agent messages: the `[UI_ACTION:{...}]` marker, the
 * brace scanner that finds the end of its JSON, the removal of internal
 * `[SYSTEM CONTEXT:...]`/`[SYSTEM:...]` annotations, and the two entry points
 * that use them, one for storing a finished message and one for display.
 *
 * Case-insensitive matching is that of a non-Unicode `/i` regular expression,
 * which folds ASCII letters only.
 */
module ParseAction {
  import opened Wrappers
  import opened Text
  import opened Json
  import opened Seqs

  // ---------------------------------------------------------------------------
  // System annotations

  const SystemContextOpen := "[SYSTEM CONTEXT:"
  const SystemOpen := "[SYSTEM:"

  /** The first `]` at or after `i`. */
  function CloseBracket(s: string, i: nat): (r: Option<nat>)
    requires i <= |s|
    ensures r.Some? ==> i <= r.value < |s| && s[r.value] == ']' && forall k | i <= k < r.value :: s[k] != ']'
    ensures r.None? ==> forall k | i <= k < |s| :: s[k] != ']'
    decreases |s| - i
  {
    if i == |s| then None
    else if s[i] == ']' then Some(i)
    else CloseBracket(s, i + 1)
  }

  /** The length of the run of whitespace at the start of `s`, which `\s*` consumes. */
  function LeadingSpace(s: string): (r: nat)
    ensures r <= |s|
    ensures forall i | 0 <= i < r :: IsSpace(s[i])
    ensures r == |s| || !IsSpace(s[r])
  {
    if |s| > 0 && IsSpace(s[0]) then
      var r := 1 + LeadingSpace(s[1..]);
      assert forall i | 1 <= i < r :: s[i] == s[1..][i - 1];
      r
    else 0
  }

  /**
   * The length of an annotation span at the start of `s`: the opening text in
   * any case, everything up to the first `]`, then any whitespace.
   */
  function SpanAt(s: string, open: string): (r: Option<nat>)
    requires |open| > 0
    ensures r.Some? ==> StartsWithIgnoreCase(s, open) && |open| < r.value <= |s|
  {
    if StartsWithIgnoreCase(s, open) then
      match CloseBracket(s, |open|)
      case None => None
      case Some(c) => Some(c + 1 + LeadingSpace(s[c + 1..]))
    else None
  }

  /** One global replace of an annotation pattern by the empty string: a single left-to-right pass. */
  function RemoveSpans(s: string, open: string): (r: string)
    requires |open| > 0
    ensures |r| <= |s|
    decreases |s|
  {
    if |s| == 0 then []
    else match SpanAt(s, open)
      case Some(n) => RemoveSpans(s[n..], open)
      case None => [s[0]] + RemoveSpans(s[1..], open)
  }

  /** Both annotation kinds removed, `SYSTEM CONTEXT` first. */
  function WithoutSystemSpans(s: string): (r: string)
    ensures |r| <= |s|
  {
    RemoveSpans(RemoveSpans(s, SystemContextOpen), SystemOpen)
  }

  /** `stripSystemContext`: the annotations removed, then the ends trimmed. */
  function StripSystemContext(s: string): (r: string)
    ensures IsTrimmed(r) && |r| <= |s|
  {
    Trim(WithoutSystemSpans(s))
  }

  /** Text without an opening bracket has no annotation and passes through unchanged. */
  lemma {:induction false} RemoveSpansWithoutBracket(s: string, open: string)
    requires |open| > 0 && open[0] == '['
    requires forall i | 0 <= i < |s| :: s[i] != '['
    ensures RemoveSpans(s, open) == s
    decreases |s|
  {
    if |s| > 0 {
      assert !StartsWithIgnoreCase(s, open) by {
        assert UpperChar(s[0]) != '[';
      }
      RemoveSpansWithoutBracket(s[1..], open);
      assert s == [s[0]] + s[1..];
    }
  }

  /** The first `]` from `i` on, located by its position. */
  lemma CloseBracketAt(s: string, i: nat, c: nat)
    requires i <= c < |s| && s[c] == ']' && forall k | i <= k < c :: s[k] != ']'
    ensures CloseBracket(s, i) == Some(c)
  {
  }

  /** In `u + body + "]" + rest` with no `]` in `body`, the first `]` after `u` ends `body`. */
  lemma CloseAfterBody(u: string, body: string, rest: string)
    requires forall i | 0 <= i < |body| :: body[i] != ']'
    ensures CloseBracket(u + body + "]" + rest, |u|) == Some(|u| + |body|)
  {
    var s := u + body + "]" + rest;
    forall k | |u| <= k < |u| + |body|
      ensures s[k] != ']'
    {
      assert s[k] == body[k - |u|];
    }
    CloseBracketAt(s, |u|, |u| + |body|);
  }

  /** A span that starts with the opening text and has a `]`. */
  lemma SpanAtClose(s: string, open: string, c: nat)
    requires |open| > 0 && StartsWithIgnoreCase(s, open) && CloseBracket(s, |open|) == Some(c)
    ensures SpanAt(s, open) == Some(c + 1 + LeadingSpace(s[c + 1..]))
  {
  }

  /** The span of an annotation opened in any letter case reaches past its `]` and no further. */
  lemma SpanOfAnnotation(u: string, open: string, body: string, rest: string)
    requires |open| > 0 && EqualsIgnoreCase(u, open)
    requires forall i | 0 <= i < |body| :: body[i] != ']'
    requires rest == [] || !IsSpace(rest[0])
    ensures SpanAt(u + body + "]" + rest, open) == Some(|u| + |body| + 1)
  {
    var s := u + body + "]" + rest;
    var c := |u| + |body|;
    assert StartsWithIgnoreCase(s, open) by {
      assert forall i | 0 <= i < |u| :: s[i] == u[i];
    }
    CloseAfterBody(u, body, rest);
    assert s[c + 1..] == rest;
    assert LeadingSpace(rest) == 0;
    SpanAtClose(s, open, c);
  }

  /** Where an annotation starts, it is dropped and the pass goes on after it. */
  lemma SkipSpan(s: string, open: string, n: nat)
    requires |open| > 0 && |s| > 0 && SpanAt(s, open) == Some(n)
    ensures RemoveSpans(s, open) == RemoveSpans(s[n..], open)
  {
  }

  /**
   * An annotation, opened in any letter case, is cut together with the
   * whitespace after it; the rest of the text is processed on its own.
   */
  lemma SpanRemoved(u: string, open: string, body: string, rest: string)
    requires |open| > 0 && EqualsIgnoreCase(u, open)
    requires forall i | 0 <= i < |body| :: body[i] != ']'
    requires rest == [] || !IsSpace(rest[0])
    ensures RemoveSpans(u + body + "]" + rest, open) == RemoveSpans(rest, open)
  {
    var s := u + body + "]" + rest;
    var n: nat := |u| + |body| + 1;
    SpanOfAnnotation(u, open, body, rest);
    SkipSpan(s, open, n);
    assert s[n..] == rest;
  }

  /** No annotation starts where the text differs from the opening text at some position. */
  lemma NoSpanOnMismatch(s: string, open: string, i: nat)
    requires i < |open| && (|s| < |open| || UpperChar(s[i]) != UpperChar(open[i]))
    ensures SpanAt(s, open).None?
  {
  }

  /** Where no annotation starts, the first character is kept. */
  lemma KeepFirst(s: string, open: string)
    requires |open| > 0 && |s| > 0 && SpanAt(s, open).None?
    ensures RemoveSpans(s, open) == [s[0]] + RemoveSpans(s[1..], open)
  {
  }

  predicate NoBrackets(x: string) {
    forall i | 0 <= i < |x| :: x[i] != '[' && x[i] != ']'
  }

  lemma SplitSpanLiterals()
    ensures "[SYS" + "TEM:" == "[SYSTEM:"
    ensures "[SYSTEM:"[1..] == "SYSTEM:"
  {
  }

  /** The text after the inner annotation has no opening bracket. */
  lemma TailWithoutBracket(y: string)
    requires NoBrackets(y)
    ensures forall i | 0 <= i < |"TEM:" + y + "]"| :: ("TEM:" + y + "]")[i] != '['
  {
    var t := "TEM:" + y + "]";
    forall i | 0 <= i < |t|
      ensures t[i] != '['
    {
      if i < 4 {
        assert t[i] == "TEM:"[i];
      } else if i < 4 + |y| {
        assert t[i] == y[i - 4];
      }
    }
  }

  /** The inner annotation's body and the text after it have no opening bracket. */
  lemma BodyAndTailWithoutBracket(x: string, y: string)
    requires NoBrackets(x) && NoBrackets(y)
    ensures forall i | 0 <= i < |x + "]" + ("TEM:" + y + "]")| :: (x + "]" + ("TEM:" + y + "]"))[i] != '['
  {
    var t := "TEM:" + y + "]";
    TailWithoutBracket(y);
    var u := x + "]" + t;
    forall i | 0 <= i < |u|
      ensures u[i] != '['
    {
      if i < |x| {
        assert u[i] == x[i];
      } else if i > |x| {
        assert u[i] == t[i - |x| - 1];
      }
    }
  }

  /** `[SYS`, an annotation `[SYSTEM:x]`, then `TEM:y]`. */
  function SplitSpan(x: string, y: string): string {
    "[SYS" + ("[SYSTEM:" + x + "]" + ("TEM:" + y + "]"))
  }

  /** No annotation of either kind starts in the first four positions of the example. */
  lemma SplitSpanNoEarlyOpening(x: string, y: string, o: string)
    requires o == SystemContextOpen || o == SystemOpen
    ensures var s := SplitSpan(x, y);
      SpanAt(s, o).None? && SpanAt(s[1..], o).None? && SpanAt(s[2..], o).None? && SpanAt(s[3..], o).None?
  {
    var s := SplitSpan(x, y);
    assert s[0] == '[' && s[1] == 'S' && s[2] == 'Y' && s[3] == 'S' && s[4] == '[';
    NoSpanOnMismatch(s, o, 4);
    NoSpanOnMismatch(s[1..], o, 0);
    NoSpanOnMismatch(s[2..], o, 0);
    NoSpanOnMismatch(s[3..], o, 0);
  }

  /** Where no annotation starts in the first two positions, those characters are kept. */
  lemma KeepTwo(s: string, o: string)
    requires |o| > 0 && |s| >= 2 && SpanAt(s, o).None? && SpanAt(s[1..], o).None?
    ensures RemoveSpans(s, o) == s[..2] + RemoveSpans(s[2..], o)
  {
    var t := s[1..];
    KeepFirst(s, o);
    KeepFirst(t, o);
    assert t[1..] == s[2..];
    AppendAssoc([s[0]], [t[0]], RemoveSpans(s[2..], o));
    assert s[..2] == [s[0]] + [t[0]];
  }

  /** Where no annotation starts in the first four positions, those characters are kept. */
  lemma KeepFour(s: string, o: string)
    requires |o| > 0 && |s| >= 4
    requires SpanAt(s, o).None? && SpanAt(s[1..], o).None? && SpanAt(s[2..], o).None? && SpanAt(s[3..], o).None?
    ensures RemoveSpans(s, o) == s[..4] + RemoveSpans(s[4..], o)
  {
    var t := s[2..];
    assert t[1..] == s[3..];
    KeepTwo(t, o);
    KeepTwo(s, o);
    assert t[2..] == s[4..];
    AppendAssoc(s[..2], t[..2], RemoveSpans(s[4..], o));
    assert s[..4] == s[..2] + t[..2];
  }

  /** Text that starts `[SYSTEM:` has no `[SYSTEM CONTEXT:` span at its start: the eighth characters differ. */
  lemma NoContextSpanAtSystem(t: string)
    requires |t| >= 8 && t[..8] == "[SYSTEM:"
    ensures SpanAt(t, SystemContextOpen).None?
  {
    assert t[7] == "[SYSTEM:"[7] == ':';
    assert SystemContextOpen[7] == ' ';
    NoSpanOnMismatch(t, SystemContextOpen, 7);
  }

  /** Nothing after the opening bracket of the inner annotation opens another. */
  lemma InnerTextWithoutBracket(x: string, y: string)
    requires NoBrackets(x) && NoBrackets(y)
    ensures forall i | 0 <= i < |"SYSTEM:" + (x + "]" + ("TEM:" + y + "]"))| :: ("SYSTEM:" + (x + "]" + ("TEM:" + y + "]")))[i] != '['
  {
    var u := x + "]" + ("TEM:" + y + "]");
    var v := "SYSTEM:" + u;
    BodyAndTailWithoutBracket(x, y);
    forall i | 0 <= i < |v|
      ensures v[i] != '['
    {
      if i >= 7 {
        assert v[i] == u[i - 7];
      } else {
        assert v[i] == "SYSTEM:"[i];
      }
    }
  }

  /** The inner annotation `[SYSTEM:x]TEM:y]` has no `[SYSTEM CONTEXT:` span anywhere. */
  lemma InnerFirstPass(x: string, y: string)
    requires NoBrackets(x) && NoBrackets(y)
    ensures var t := "[SYSTEM:" + x + "]" + ("TEM:" + y + "]");
      RemoveSpans(t, SystemContextOpen) == t
  {
    var u := x + "]" + ("TEM:" + y + "]");
    var t := "[SYSTEM:" + u;
    var o := SystemContextOpen;
    assert t == "[SYSTEM:" + x + "]" + ("TEM:" + y + "]");
    NoContextSpanAtSystem(t);
    KeepFirst(t, o);
    DropFirstOfConcat("[SYSTEM:", u);
    SplitSpanLiterals();
    InnerTextWithoutBracket(x, y);
    RemoveSpansWithoutBracket(t[1..], o);
    assert t == [t[0]] + t[1..];
  }

  /** The first pass finds no `[SYSTEM CONTEXT:` in the example. */
  lemma SplitSpanFirstPass(x: string, y: string)
    requires NoBrackets(x) && NoBrackets(y)
    ensures RemoveSpans(SplitSpan(x, y), SystemContextOpen) == SplitSpan(x, y)
  {
    var s := SplitSpan(x, y);
    var o := SystemContextOpen;
    SplitSpanNoEarlyOpening(x, y, o);
    KeepFour(s, o);
    assert s[4..] == "[SYSTEM:" + x + "]" + ("TEM:" + y + "]");
    InnerFirstPass(x, y);
    assert s == s[..4] + s[4..];
  }

  /** The second pass removes the inner `[SYSTEM:x]` and joins the halves around it. */
  lemma SplitSpanSecondPass(x: string, y: string)
    requires NoBrackets(x) && NoBrackets(y)
    ensures RemoveSpans(SplitSpan(x, y), SystemOpen) == "[SYS" + ("TEM:" + y + "]")
  {
    var s := SplitSpan(x, y);
    var o := SystemOpen;
    var rest := "TEM:" + y + "]";
    SplitSpanNoEarlyOpening(x, y, o);
    KeepFour(s, o);
    assert s[4..] == "[SYSTEM:" + x + "]" + rest;
    SpanRemoved("[SYSTEM:", o, x, rest);
    TailWithoutBracket(y);
    RemoveSpansWithoutBracket(rest, o);
    assert s[..4] == "[SYS";
  }

  /**
   * A single pass can leave an annotation behind: removing the inner span of
   * `[SYS[SYSTEM:x]TEM:y]` joins its two halves into a new one, which the
   * result then starts with.
   */
  lemma OnePassLeavesSpan(x: string, y: string)
    requires NoBrackets(x) && NoBrackets(y)
    ensures WithoutSystemSpans(SplitSpan(x, y)) == "[SYSTEM:" + y + "]"
    ensures SpanAt(WithoutSystemSpans(SplitSpan(x, y)), SystemOpen).Some?
  {
    SplitSpanFirstPass(x, y);
    SplitSpanSecondPass(x, y);
    var r := "[SYSTEM:" + y + "]";
    assert "[SYS" + ("TEM:" + y + "]") == r by {
      SplitSpanLiterals();
      AppendAssoc("[SYS", "TEM:", y + "]");
      AppendAssoc("TEM:", y, "]");
      AppendAssoc("[SYSTEM:", y, "]");
    }
    SpanOfAnnotation("[SYSTEM:", SystemOpen, y, []);
    assert "[SYSTEM:" + y + "]" + [] == r;
  }

  // ---------------------------------------------------------------------------
  // The marker

  const MarkerWord := "UI_ACTION:"

  /** `[UI_ACTION:` or `<UI_ACTION:` at `k`, the word in any letter case. */
  predicate IsMarkerAt(s: string, k: int) {
    0 <= k && k + 11 <= |s| && (s[k] == '[' || s[k] == '<') && EqualsIgnoreCase(s[k + 1..k + 11], MarkerWord)
  }

  predicate HasMarker(s: string) {
    exists k | 0 <= k < |s| :: IsMarkerAt(s, k)
  }

  function FindMarkerFrom(s: string, i: nat): (r: Option<nat>)
    requires i <= |s|
    ensures r.Some? ==> i <= r.value && IsMarkerAt(s, r.value) && forall k | i <= k < r.value :: !IsMarkerAt(s, k)
    ensures r.None? ==> forall k | i <= k :: !IsMarkerAt(s, k)
    decreases |s| - i
  {
    if i + 11 > |s| then None
    else if IsMarkerAt(s, i) then Some(i)
    else FindMarkerFrom(s, i + 1)
  }

  /** The position of the first marker, as the regular expression `/[<\[]UI_ACTION:/i` finds it. */
  function FindMarker(s: string): (r: Option<nat>)
    ensures r.Some? ==> IsMarkerAt(s, r.value) && forall k | 0 <= k < r.value :: !IsMarkerAt(s, k)
    ensures r.None? <==> !HasMarker(s)
  {
    FindMarkerFrom(s, 0)
  }

  /** `hasUiAction`: whether an opening token occurs anywhere. */
  function HasUiAction(content: string): (r: bool)
    ensures r <==> exists k :: IsMarkerAt(content, k)
  {
    FindMarker(content).Some?
  }

  /** A marker inside a slice is a marker of the whole string. */
  lemma MarkerInSlice(s: string, a: nat, b: nat, k: int)
    requires a <= b <= |s| && IsMarkerAt(s[a..b], k)
    ensures IsMarkerAt(s, a + k)
  {
    SliceOfSlice(s, a, b, k + 1, k + 11);
  }

  /** A marker inside the bounds of a slice is a marker of the slice. */
  lemma MarkerOfSlice(s: string, a: nat, b: nat, k: int)
    requires a <= k && k + 11 <= b <= |s| && IsMarkerAt(s, k)
    ensures IsMarkerAt(s[a..b], k - a)
  {
    SliceOfSlice(s, a, b, k - a + 1, k - a + 11);
  }

  /** The last character of a marker is `:` whatever the case of its word, so it is never whitespace. */
  lemma MarkerEndsWithColon(s: string, k: int)
    requires IsMarkerAt(s, k)
    ensures s[k + 10] == ':' && !IsSpace(s[k]) && !IsSpace(s[k + 10])
  {
    assert UpperChar(s[k + 1..k + 11][9]) == UpperChar(MarkerWord[9]);
  }

  /** Trimming keeps every marker: it only removes whitespace, and a marker starts and ends with non-space. */
  lemma MarkerSurvivesTrim(s: string, k: int)
    requires IsMarkerAt(s, k)
    ensures HasMarker(Trim(s))
  {
    var j := TrimAroundMarker(s, k);
    MarkerInEqualSlice(s, j, Trim(s), k);
  }

  /** The trimmed text is a slice of the text that covers every marker. */
  lemma TrimAroundMarker(s: string, k: int) returns (j: nat)
    requires IsMarkerAt(s, k)
    ensures j <= k && k + 11 <= j + |Trim(s)| <= |s| && s[j..j + |Trim(s)|] == Trim(s)
  {
    MarkerEndsWithColon(s, k);
    j := NonSpacesInsideTrim(s, k, k + 10);
  }

  /** A marker inside a slice equal to `t` is a marker of `t`. */
  lemma MarkerInEqualSlice(s: string, j: nat, t: string, k: int)
    requires j <= k && k + 11 <= j + |t| <= |s| && s[j..j + |t|] == t && IsMarkerAt(s, k)
    ensures HasMarker(t)
  {
    MarkerOfSlice(s, j, j + |t|, k);
    assert IsMarkerAt(t, k - j);
  }

  /** A slice that contains a whole marker has a marker. */
  lemma SliceHasMarker(s: string, a: nat, b: nat, k: int)
    requires a <= k && k + 11 <= b <= |s| && IsMarkerAt(s, k)
    ensures HasMarker(s[a..b])
  {
    MarkerOfSlice(s, a, b, k);
    assert 0 <= k - a < |s[a..b]|;
  }

  /** A marker in the trimmed text is a marker of the text. */
  lemma MarkerOfTrim(s: string, k: int)
    requires IsMarkerAt(Trim(s), k)
    ensures HasMarker(s)
  {
    var t := Trim(s);
    var j := TrimRemovesOnlySpace(s);
    assert s[j..j + |t|] == t;
    MarkerInSlice(s, j, j + |t|, k);
    assert 0 <= j + k < |s|;
  }

  /** Trimming never creates a marker. */
  lemma TrimKeepsNoMarker(s: string)
    requires !HasMarker(s)
    ensures !HasMarker(Trim(s))
  {
    if HasMarker(Trim(s)) {
      var k :| 0 <= k < |Trim(s)| && IsMarkerAt(Trim(s), k);
      MarkerOfTrim(s, k);
      assert false;
    }
  }

  // ---------------------------------------------------------------------------
  // The brace scanner

  /** The scanner's state: brace depth, inside a string, and whether the next character is escaped. */
  datatype ScanState = ScanState(depth: int, inString: bool, escapeNext: bool)

  /** One character: the next state, and whether this character closed the outermost brace. */
  function Step(st: ScanState, c: char): (ScanState, bool) {
    if st.escapeNext then (st.(escapeNext := false), false)
    else if c == '\\' && st.inString then (st.(escapeNext := true), false)
    else if c == '"' then (st.(inString := !st.inString), false)
    else if st.inString then (st, false)
    else if c == '{' then (st.(depth := st.depth + 1), false)
    else if c == '}' then (st.(depth := st.depth - 1), st.depth - 1 == 0)
    else (st, false)
  }

  /** The state after the characters `s[from..j]`, starting at depth 0 outside a string. */
  function StateAt(s: string, from: nat, j: nat): ScanState
    requires from <= j <= |s|
    decreases j - from
  {
    if j == from then ScanState(0, false, false)
    else Step(StateAt(s, from, j - 1), s[j - 1]).0
  }

  /** Character `k` is a `}` that brings the depth back to 0. */
  predicate ClosesAt(s: string, from: nat, k: nat)
    requires from <= k < |s|
  {
    Step(StateAt(s, from, k), s[k]).1
  }

  /** The first closing position at or after `i`. */
  function FirstClose(s: string, from: nat, i: nat): (r: Option<nat>)
    requires from <= i <= |s|
    ensures r.Some? ==> i <= r.value < |s| && ClosesAt(s, from, r.value)
    ensures r.Some? ==> forall k | i <= k < r.value :: !ClosesAt(s, from, k)
    ensures r.None? ==> forall k | i <= k < |s| :: !ClosesAt(s, from, k)
    decreases |s| - i
  {
    if i == |s| then None
    else if ClosesAt(s, from, i) then Some(i)
    else FirstClose(s, from, i + 1)
  }

  /** A character the scanner closes on is a `}` outside any string. */
  lemma CloseIsBrace(s: string, from: nat, k: nat)
    requires from <= k < |s| && ClosesAt(s, from, k)
    ensures s[k] == '}' && !StateAt(s, from, k).inString && StateAt(s, from, k).depth == 1
  {
  }

  /**
   * The scan of `extractUiActionJson` with its running state, stopping at the
   * first `}` that brings the depth back to 0; the result is that `}`'s index.
   */
  method ScanForClose(s: string, from: nat) returns (r: Option<nat>)
    requires from <= |s|
    ensures r.Some? ==> from <= r.value < |s| && ClosesAt(s, from, r.value)
    ensures r.Some? ==> forall k | from <= k < r.value :: !ClosesAt(s, from, k)
    ensures r.None? ==> forall k | from <= k < |s| :: !ClosesAt(s, from, k)
  {
    var depth := 0;
    var inString := false;
    var escapeNext := false;
    var i := from;
    while i < |s|
      invariant from <= i <= |s|
      invariant ScanState(depth, inString, escapeNext) == StateAt(s, from, i)
      invariant forall k | from <= k < i :: !ClosesAt(s, from, k)
    {
      var c := s[i];
      if escapeNext {
        escapeNext := false;
      } else if c == '\\' && inString {
        escapeNext := true;
      } else if c == '"' {
        inString := !inString;
      } else if !inString {
        if c == '{' {
          depth := depth + 1;
        } else if c == '}' {
          depth := depth - 1;
          if depth == 0 {
            return Some(i);
          }
        }
      }
      i := i + 1;
    }
    return None;
  }

  /** Where the marker ends: after spaces, CR and LF, and at most one `]` or `>`. */
  function MarkerEnd(s: string, i: nat): (r: nat)
    requires i <= |s|
    ensures i <= r <= |s|
    ensures forall k | i <= k < r :: s[k] in {' ', '\n', '\r', ']', '>'}
    ensures forall k | i <= k < r - 1 :: s[k] in {' ', '\n', '\r'}
    decreases |s| - i
  {
    if i == |s| then i
    else if s[i] == ']' || s[i] == '>' then i + 1
    else if s[i] == ' ' || s[i] == '\n' || s[i] == '\r' then MarkerEnd(s, i + 1)
    else i
  }

  /** A located marker: its JSON text (trimmed), where it starts and where it ends. */
  datatype Extracted = Extracted(json: string, start: nat, end: nat)

  /** `extractUiActionJson`. */
  function Extract(s: string): (r: Option<Extracted>)
    ensures r.Some? ==> r.value.start < r.value.end <= |s| && IsMarkerAt(s, r.value.start)
    ensures r.Some? ==> forall k | 0 <= k < r.value.start :: !IsMarkerAt(s, k)
    ensures r.None? <==> !HasMarker(s) || FirstClose(s, FindMarker(s).value + 11, FindMarker(s).value + 11).None?
  {
    match FindMarker(s)
    case None => None
    case Some(m) =>
      match FirstClose(s, m + 11, m + 11)
      case None => None
      case Some(c) => Some(Extracted(Trim(s[m + 11..c + 1]), m, MarkerEnd(s, c + 1)))
  }

  // ---------------------------------------------------------------------------
  // Entry points

  /** The message text to keep and the action found in it, if any. */
  datatype ParsedMessage = ParsedMessage(text: string, action: Option<Json>)

  /** The checks on a parsed action: its `type` and `title` are truthy. */
  predicate ValidAction(a: Json) {
    TruthyOpt(Get(a, "type")) && TruthyOpt(Get(a, "title"))
  }

  /**
   * `parseUiAction`. A JSON value without the required fields (including
   * `null`, whose field read throws and is caught) yields no action.
   */
  function ParseUiAction(content: string, parse: string -> Option<Json>): (r: ParsedMessage)
    ensures IsTrimmed(r.text)
    ensures r.action.Some? ==> ValidAction(r.action.value)
    ensures r.action.None? ==> r.text == StripSystemContext(content)
  {
    if content == "" then ParsedMessage("", None)
    else
      var cleaned := StripSystemContext(content);
      match Extract(cleaned)
      case None => ParsedMessage(cleaned, None)
      case Some(e) =>
        var action := parse(e.json);
        if action.None? || !ValidAction(action.value) then ParsedMessage(cleaned, None)
        else
          var before := Trim(cleaned[..e.start]);
          var after := Trim(cleaned[e.end..]);
          ParsedMessage(Trim(JoinAround(before, after)), action)
  }

  /** The text around a removed marker: before it, then a blank line and the text after it when there is any. */
  function JoinAround(before: string, after: string): string {
    if after != "" then before + "\n\n" + after else before
  }

  /** Joining two trimmed parts needs no further trimming, except for a blank line in front of an empty `before`. */
  lemma TrimJoinAround(before: string, after: string)
    requires IsTrimmed(before) && IsTrimmed(after)
    ensures after == "" ==> Trim(JoinAround(before, after)) == before
    ensures before == "" ==> Trim(JoinAround(before, after)) == after
    ensures before != "" && after != "" ==> Trim(JoinAround(before, after)) == before + "\n\n" + after
  {
    if after == "" {
      TrimOfTrimmed(before);
    } else if before == "" {
      assert before + "\n\n" + after == "\n\n" + after;
      TrimStartSpacePrefix("\n\n", after);
      TrimOfTrimmed(after);
    } else {
      var x := before + "\n\n" + after;
      assert x[0] == before[0] && x[|x| - 1] == after[|after| - 1];
      TrimOfTrimmed(x);
    }
  }

  /** An action is found exactly when the cleaned text has a balanced marker whose JSON parses to a valid action. */
  lemma ParseActionIff(content: string, parse: string -> Option<Json>)
    ensures var cleaned := StripSystemContext(content);
      ParseUiAction(content, parse).action.Some? <==>
        content != "" && Extract(cleaned).Some? && parse(Extract(cleaned).value.json).Some?
        && ValidAction(parse(Extract(cleaned).value.json).value)
    ensures var cleaned := StripSystemContext(content);
      ParseUiAction(content, parse).action.Some? ==>
        ParseUiAction(content, parse).action == parse(Extract(cleaned).value.json)
    ensures ParseUiAction("", parse) == ParsedMessage("", None)
  {
  }

  /** On success the text is the trimmed join of what surrounds the marker. */
  lemma ParseSuccessShape(content: string, parse: string -> Option<Json>)
    requires ParseUiAction(content, parse).action.Some?
    ensures var cleaned := StripSystemContext(content);
      var e := Extract(cleaned).value;
      ParseUiAction(content, parse).text == Trim(JoinAround(Trim(cleaned[..e.start]), Trim(cleaned[e.end..])))
  {
    assert content != "";
    var cleaned := StripSystemContext(content);
    assert Extract(cleaned).Some?;
    var e := Extract(cleaned).value;
    var action := parse(e.json);
    assert action.Some? && ValidAction(action.value);
  }

  /**
   * On success the marker is cut out: the trimmed text before it and the
   * trimmed text after it, joined by a blank line when both are present.
   */
  lemma ParseSuccessText(content: string, parse: string -> Option<Json>)
    requires ParseUiAction(content, parse).action.Some?
    ensures var cleaned := StripSystemContext(content);
      var e := Extract(cleaned).value;
      var before := Trim(cleaned[..e.start]);
      var after := Trim(cleaned[e.end..]);
      var text := ParseUiAction(content, parse).text;
      && (after == "" ==> text == before)
      && (before == "" ==> text == after)
      && (before != "" && after != "" ==> text == before + "\n\n" + after)
  {
    var cleaned := StripSystemContext(content);
    var e := Extract(cleaned).value;
    ParseSuccessShape(content, parse);
    TrimJoinAround(Trim(cleaned[..e.start]), Trim(cleaned[e.end..]));
  }

  lemma MarkerInJoin(before: string, after: string, j: int)
    requires IsMarkerAt(after, j)
    ensures IsMarkerAt(before + "\n\n" + after, |before| + 2 + j)
  {
    var x := before + "\n\n" + after;
    assert x[|before| + 2..|x|] == after;
    MarkerInSlice(x, |before| + 2, |x|, j);
  }

  /** Only the first marker is taken out: a marker after it stays in the returned text. */
  lemma LaterMarkerKept(content: string, parse: string -> Option<Json>, k: int)
    requires ParseUiAction(content, parse).action.Some?
    requires var cleaned := StripSystemContext(content);
      IsMarkerAt(cleaned[Extract(cleaned).value.end..], k)
    ensures HasUiAction(ParseUiAction(content, parse).text)
  {
    var cleaned := StripSystemContext(content);
    var e := Extract(cleaned).value;
    var before := Trim(cleaned[..e.start]);
    var after := Trim(cleaned[e.end..]);
    MarkerSurvivesTrim(cleaned[e.end..], k);
    var j :| IsMarkerAt(after, j);
    ParseSuccessText(content, parse);
    var text := ParseUiAction(content, parse).text;
    if before == "" {
      assert IsMarkerAt(text, j);
    } else {
      MarkerInJoin(before, after, j);
    }
  }

  /** Every marker that `Extract` finds and removes, repeatedly; each removal shortens the text. */
  function RemoveMarkers(s: string): (r: string)
    ensures |r| <= |s|
    ensures Extract(r).None?
    decreases |s|
  {
    match Extract(s)
    case None => s
    case Some(e) => RemoveMarkers(s[..e.start] + s[e.end..])
  }

  /** `stripUiAction`: annotations and complete markers removed, then the text cut at any unfinished marker. */
  function StripUiAction(content: string): (r: string)
    ensures IsTrimmed(r)
    ensures !HasUiAction(r)
  {
    var cleaned := RemoveMarkers(WithoutSystemSpans(content));
    var cut := match FindMarker(cleaned) case Some(m) => cleaned[..m] case None => cleaned;
    assert !HasMarker(cut) by {
      if FindMarker(cleaned).Some? {
        var m := FindMarker(cleaned).value;
        if HasMarker(cut) {
          var k :| IsMarkerAt(cut, k);
          MarkerInSlice(cleaned, 0, m, k);
          assert false;
        }
      }
    }
    TrimKeepsNoMarker(cut);
    Trim(cut)
  }

  /**
   * The two entry points agree on plain text: without brackets or angle
   * brackets both return the trimmed text, and no action is found.
   */
  lemma PlainTextAgrees(content: string, parse: string -> Option<Json>)
    requires forall i | 0 <= i < |content| :: content[i] != '[' && content[i] != '<'
    ensures StripUiAction(content) == Trim(content)
    ensures ParseUiAction(content, parse) == ParsedMessage(Trim(content), None)
  {
    RemoveSpansWithoutBracket(content, SystemContextOpen);
    RemoveSpansWithoutBracket(content, SystemOpen);
    assert WithoutSystemSpans(content) == content;
    assert !HasMarker(content);
    assert Extract(content).None?;
    assert RemoveMarkers(content) == content;
    var j := TrimRemovesOnlySpace(content);
    assert !HasMarker(Trim(content)) by {
      TrimKeepsNoMarker(content);
    }
    if content == "" {
      assert Trim(content) == "";
    }
  }
}

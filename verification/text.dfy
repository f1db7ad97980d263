/**
 * The string operations of JavaScript that the client relies on: whitespace as
 * `String.prototype.trim` and the regular-expression class `\s` see it,
 * `startsWith`/`includes`, and ASCII case mapping.
 */
module Text {

  /** WhiteSpace and LineTerminator code points of ECMAScript (the set `trim` and `\s` share). */
  predicate IsSpace(c: char) {
    || c == '\t' || c == '\n' || c == '\U{000B}' || c == '\U{000C}' || c == '\r' || c == ' '
    || c == '\U{00A0}' || c == '\U{1680}' || ('\U{2000}' <= c <= '\U{200A}')
    || c == '\U{2028}' || c == '\U{2029}' || c == '\U{202F}' || c == '\U{205F}'
    || c == '\U{3000}' || c == '\U{FEFF}'
  }

  predicate AllSpace(s: string) {
    forall i | 0 <= i < |s| :: IsSpace(s[i])
  }

  /** No leading and no trailing whitespace. */
  predicate IsTrimmed(s: string) {
    s == [] || (!IsSpace(s[0]) && !IsSpace(s[|s| - 1]))
  }

  /** Drops leading whitespace: the result is the suffix after a run of spaces. */
  function TrimStart(s: string): (r: string)
    ensures |r| <= |s| && r == s[|s| - |r|..]
    ensures forall i | 0 <= i < |s| - |r| :: IsSpace(s[i])
    ensures r == [] || !IsSpace(r[0])
    decreases |s|
  {
    if |s| > 0 && IsSpace(s[0]) then
      var r := TrimStart(s[1..]);
      assert forall i | 1 <= i < |s| - |r| :: s[i] == s[1..][i - 1];
      r
    else s
  }

  /** Drops trailing whitespace: the result is the prefix before a run of spaces. */
  function TrimEnd(s: string): (r: string)
    ensures |r| <= |s| && r == s[..|r|]
    ensures forall i | |r| <= i < |s| :: IsSpace(s[i])
    ensures r == [] || !IsSpace(r[|r| - 1])
  {
    if |s| > 0 && IsSpace(s[|s| - 1]) then TrimEnd(s[..|s| - 1]) else s
  }

  /** `String.prototype.trim`. */
  function Trim(s: string): (r: string)
    ensures IsTrimmed(r)
    ensures |r| <= |s|
  {
    TrimEnd(TrimStart(s))
  }

  /** Trimming removes whitespace at both ends and nothing else. */
  lemma TrimRemovesOnlySpace(s: string) returns (k: nat)
    ensures k + |Trim(s)| <= |s| && s[k..k + |Trim(s)|] == Trim(s)
    ensures forall i | 0 <= i < k :: IsSpace(s[i])
    ensures forall i | k + |Trim(s)| <= i < |s| :: IsSpace(s[i])
  {
    var a := TrimStart(s);
    var r := TrimEnd(a);
    assert Trim(s) == r;
    k := |s| - |a|;
    assert a == s[k..] && |r| <= |a| && r == a[..|r|];
    TrimsCompose(s, k, a, r);
  }

  /** Dropping spaces before `k`, then spaces after a prefix of what is left, keeps one slice of `s`. */
  lemma TrimsCompose(s: string, k: nat, a: string, r: string)
    requires k + |a| == |s| && a == s[k..] && |r| <= |a| && r == a[..|r|]
    requires forall i | |r| <= i < |a| :: IsSpace(a[i])
    ensures s[k..k + |r|] == r
    ensures forall i | k + |r| <= i < |s| :: IsSpace(s[i])
  {
    forall i | k + |r| <= i < |s|
      ensures IsSpace(s[i])
    {
      assert s[i] == a[i - k];
    }
  }

  /** Two non-space characters lie inside the part that trimming keeps. */
  lemma NonSpacesInsideTrim(s: string, i: int, m: int) returns (j: nat)
    requires 0 <= i <= m < |s| && !IsSpace(s[i]) && !IsSpace(s[m])
    ensures j <= i && m < j + |Trim(s)| <= |s|
    ensures s[j..j + |Trim(s)|] == Trim(s)
  {
    j := TrimRemovesOnlySpace(s);
  }

  /** Trimming removes nothing from a string that is already trimmed. */
  lemma TrimOfTrimmed(s: string)
    requires IsTrimmed(s)
    ensures Trim(s) == s
  {
  }

  /** A string made only of whitespace trims to the empty string. */
  lemma TrimOfAllSpace(s: string)
    requires AllSpace(s)
    ensures Trim(s) == []
  {
    if |s| > 0 {
      assert AllSpace(s[1..]);
      TrimOfAllSpace(s[1..]);
    }
  }

  /** Leading whitespace in front of a string that starts with a non-space is exactly what `trimStart` drops. */
  lemma {:induction false} TrimStartSpacePrefix(sp: string, t: string)
    requires AllSpace(sp) && (t == [] || !IsSpace(t[0]))
    ensures TrimStart(sp + t) == t
    decreases |sp|
  {
    if |sp| == 0 {
      assert sp + t == t;
    } else {
      assert (sp + t)[1..] == sp[1..] + t;
      TrimStartSpacePrefix(sp[1..], t);
    }
  }

  // ---------------------------------------------------------------------------
  // Prefixes and substrings

  predicate StartsWith(s: string, p: string) {
    |p| <= |s| && s[..|p|] == p
  }

  predicate OccursAt(s: string, p: string, i: int) {
    0 <= i && i + |p| <= |s| && s[i..i + |p|] == p
  }

  /** `String.prototype.includes`, one position at a time. */
  predicate Contains(s: string, p: string)
    decreases |s|
  {
    StartsWith(s, p) || (|s| > 0 && Contains(s[1..], p))
  }

  lemma {:induction false} ContainsIffOccurs(s: string, p: string)
    ensures Contains(s, p) <==> exists i :: OccursAt(s, p, i)
    decreases |s|
  {
    if |s| > 0 {
      ContainsIffOccurs(s[1..], p);
      if Contains(s[1..], p) {
        var i :| OccursAt(s[1..], p, i);
        assert OccursAt(s, p, i + 1);
      }
      forall i | OccursAt(s, p, i) && i > 0
        ensures OccursAt(s[1..], p, i - 1)
      {
        assert s[1..][i - 1..i - 1 + |p|] == s[i..i + |p|];
      }
    }
    if StartsWith(s, p) {
      assert OccursAt(s, p, 0);
    }
    if OccursAt(s, p, 0) {
      assert StartsWith(s, p);
    }
  }

  lemma ContainsFromOccurrence(s: string, p: string, i: int)
    requires OccursAt(s, p, i)
    ensures Contains(s, p)
  {
    ContainsIffOccurs(s, p);
  }

  lemma OccurrenceFromContains(s: string, p: string) returns (i: int)
    requires Contains(s, p)
    ensures OccursAt(s, p, i)
  {
    ContainsIffOccurs(s, p);
    i :| OccursAt(s, p, i);
  }

  /** A string without the first character of `p` does not contain `p`. */
  lemma NotContainsWithoutFirstChar(s: string, p: string)
    requires |p| > 0 && forall i | 0 <= i < |s| :: s[i] != p[0]
    ensures !Contains(s, p)
  {
    ContainsIffOccurs(s, p);
  }

  /** A substring of the left part of a concatenation is a substring of the whole. */
  lemma ContainsConcatLeft(a: string, b: string, p: string)
    requires Contains(a, p)
    ensures Contains(a + b, p)
  {
    var i := OccurrenceFromContains(a, p);
    assert (a + b)[i..i + |p|] == a[i..i + |p|];
    ContainsFromOccurrence(a + b, p, i);
  }

  /** A substring of the right part of a concatenation is a substring of the whole. */
  lemma ContainsConcatRight(a: string, b: string, p: string)
    requires Contains(b, p)
    ensures Contains(a + b, p)
  {
    var i := OccurrenceFromContains(b, p);
    assert (a + b)[|a| + i..|a| + i + |p|] == b[i..i + |p|];
    ContainsFromOccurrence(a + b, p, |a| + i);
  }

  /** A string containing `a + b` contains `b`. */
  lemma ContainsPatternSuffix(s: string, a: string, b: string)
    requires Contains(s, a + b)
    ensures Contains(s, b)
  {
    var i := OccurrenceFromContains(s, a + b);
    assert s[i + |a|..i + |a| + |b|] == s[i..i + |a + b|][|a|..];
    ContainsFromOccurrence(s, b, i + |a|);
  }

  // ---------------------------------------------------------------------------
  // ASCII case mapping

  function UpperChar(c: char): (r: char)
    ensures 'a' <= c <= 'z' ==> 'A' <= r <= 'Z'
    ensures !('a' <= c <= 'z') ==> r == c
  {
    if 'a' <= c <= 'z' then (c as int - 32) as char else c
  }

  function LowerChar(c: char): (r: char)
    ensures 'A' <= c <= 'Z' ==> 'a' <= r <= 'z'
    ensures !('A' <= c <= 'Z') ==> r == c
  {
    if 'A' <= c <= 'Z' then (c as int + 32) as char else c
  }

  function Upper(s: string): (r: string)
    ensures |r| == |s|
    ensures forall i | 0 <= i < |s| :: r[i] == UpperChar(s[i])
  {
    seq(|s|, i requires 0 <= i < |s| => UpperChar(s[i]))
  }

  function Lower(s: string): (r: string)
    ensures |r| == |s|
    ensures forall i | 0 <= i < |s| :: r[i] == LowerChar(s[i])
  {
    seq(|s|, i requires 0 <= i < |s| => LowerChar(s[i]))
  }

  lemma LowerConcat(a: string, b: string)
    ensures Lower(a + b) == Lower(a) + Lower(b)
  {
  }

  /** Lower-casing forgets any upper-casing done before it. */
  lemma LowerOfUpper(s: string)
    ensures Lower(Upper(s)) == Lower(s)
  {
  }

  /** Case-insensitive equality in the sense of a non-Unicode `/i` regular expression. */
  predicate EqualsIgnoreCase(a: string, b: string) {
    |a| == |b| && forall i | 0 <= i < |a| :: UpperChar(a[i]) == UpperChar(b[i])
  }

  /** `s` begins with `p`, letters compared case-insensitively. */
  predicate StartsWithIgnoreCase(s: string, p: string) {
    |p| <= |s| && forall i | 0 <= i < |p| :: UpperChar(s[i]) == UpperChar(p[i])
  }

  /** Decimal text of a natural number, as `String(n)` writes it. */
  function NatToString(n: nat): (r: string)
    ensures |r| >= 1
    ensures forall i | 0 <= i < |r| :: '0' <= r[i] <= '9'
  {
    var d := ['0', '1', '2', '3', '4', '5', '6', '7', '8', '9'][n % 10];
    if n < 10 then [d] else NatToString(n / 10) + [d]
  }

  /** `String(n)` for an integer. */
  function IntToString(n: int): string {
    if n < 0 then "-" + NatToString(-n) else NatToString(n)
  }

  /** The template-literal text of `s[0]`: the first character, or `undefined` for an empty string. */
  function FirstCharText(s: string): (r: string)
    ensures |s| > 0 ==> r == [s[0]]
    ensures |s| == 0 ==> r == "undefined"
  {
    if |s| > 0 then [s[0]] else "undefined"
  }

  /** `${first[0]}${last[0]}`.toUpperCase(): the avatar initials both name cards use. */
  function Initials(first: string, last: string): (r: string)
    ensures |first| > 0 && |last| > 0 ==> r == [UpperChar(first[0]), UpperChar(last[0])]
  {
    Upper(FirstCharText(first) + FirstCharText(last))
  }
}

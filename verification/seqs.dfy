/** Small facts about sequences that the proofs use by name. */
module Seqs {

  /**
   * One step of a filter, counted for a kept value `c`: the filtered tail
   * `rest` holds `c` as often as `tail` does, and the head `x` is kept or
   * dropped, and kept when it is `c`.
   */
  lemma FilterStepCount<T>(x: T, tail: seq<T>, rest: seq<T>, r: seq<T>, c: T, keepX: bool)
    requires keepX ==> r == [x] + rest
    requires !keepX ==> r == rest
    requires multiset(rest)[c] == multiset(tail)[c]
    requires x == c ==> keepX
    ensures multiset(r)[c] == multiset([x] + tail)[c]
  {
    assert multiset([x] + tail) == multiset{x} + multiset(tail);
    if keepX {
      assert multiset(r) == multiset{x} + multiset(rest);
    }
  }

  lemma AppendAssoc<T>(a: seq<T>, b: seq<T>, c: seq<T>)
    ensures a + (b + c) == (a + b) + c
  {
  }

  lemma AppendEmpty<T>(a: seq<T>)
    ensures a + [] == a && [] + a == a
  {
  }

  lemma PrefixThroughElement<T>(a: seq<T>, x: T, rest: seq<T>)
    ensures (a + [x] + rest)[..|a| + 1] == a + [x]
  {
  }

  lemma SliceOfSlice<T>(s: seq<T>, a: nat, b: nat, c: nat, d: nat)
    requires a <= b <= |s| && c <= d <= b - a
    ensures s[a..b][c..d] == s[a + c..a + d]
  {
    assert |s[a..b][c..d]| == |s[a + c..a + d]|;
    forall i | 0 <= i < d - c
      ensures s[a..b][c..d][i] == s[a + c..a + d][i]
    {
    }
  }

  lemma DropFirstOfConcat<T>(a: seq<T>, b: seq<T>)
    requires |a| > 0
    ensures (a + b)[1..] == a[1..] + b
  {
  }
}

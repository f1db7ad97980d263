/**
 * The policy page's member list: a copy of the members sorted so that the
 * primary member comes first, the count wording, and the avatar initials.
 */
module MemberDetails {
  import opened Text
  import opened PolicyTypes

  /** The sort's comparator: a primary first argument is smaller, then a primary second argument is larger. */
  function Compare(a: Member, b: Member): (r: int)
    ensures -1 <= r <= 1
    ensures !a.isPrimaryMember && !b.isPrimaryMember ==> r == 0
  {
    if a.isPrimaryMember then -1
    else if b.isPrimaryMember then 1
    else 0
  }

  /** With two primaries each one is smaller than the other: the comparator is inconsistent. */
  lemma TwoPrimariesInconsistent(a: Member, b: Member)
    requires a.isPrimaryMember && b.isPrimaryMember
    ensures Compare(a, b) < 0 && Compare(b, a) < 0
  {
  }

  function Primaries(ms: seq<Member>): (r: seq<Member>)
    ensures forall i | 0 <= i < |r| :: r[i].isPrimaryMember
    ensures multiset(r) <= multiset(ms)
    decreases |ms|
  {
    if |ms| == 0 then []
    else
      var init := Primaries(ms[..|ms| - 1]);
      assert ms == ms[..|ms| - 1] + [ms[|ms| - 1]];
      if ms[|ms| - 1].isPrimaryMember then init + [ms[|ms| - 1]] else init
  }

  function Others(ms: seq<Member>): (r: seq<Member>)
    ensures forall i | 0 <= i < |r| :: !r[i].isPrimaryMember
    decreases |ms|
  {
    if |ms| == 0 then []
    else
      var init := Others(ms[..|ms| - 1]);
      if ms[|ms| - 1].isPrimaryMember then init else init + [ms[|ms| - 1]]
  }

  /** At most one member is marked primary: the case in which the comparator is consistent. */
  predicate AtMostOnePrimary(ms: seq<Member>) {
    |Primaries(ms)| <= 1
  }

  /** The stable sort's outcome: the primary members, then the others in their original order. */
  function PrimaryFirst(ms: seq<Member>): seq<Member> {
    Primaries(ms) + Others(ms)
  }

  lemma {:induction false} SplitIsPermutation(ms: seq<Member>)
    ensures multiset(PrimaryFirst(ms)) == multiset(ms)
    decreases |ms|
  {
    if |ms| > 0 {
      var init := ms[..|ms| - 1];
      SplitIsPermutation(init);
      assert ms == init + [ms[|ms| - 1]];
    }
  }

  /**
   * One step of a stable insertion sort: `x` moves left past every element the
   * comparator says is larger, and stops at the first that is not.
   */
  function Insert(sorted: seq<Member>, x: Member): (r: seq<Member>)
    ensures |r| == |sorted| + 1
    decreases |sorted|
  {
    if |sorted| == 0 then [x]
    else if Compare(sorted[|sorted| - 1], x) > 0 then Insert(sorted[..|sorted| - 1], x) + [sorted[|sorted| - 1]]
    else sorted + [x]
  }

  /** A primary member moves past every other member. */
  lemma {:induction false} InsertPrimary(others: seq<Member>, x: Member)
    requires x.isPrimaryMember
    requires forall i | 0 <= i < |others| :: !others[i].isPrimaryMember
    ensures Insert(others, x) == [x] + others
    decreases |others|
  {
    if |others| > 0 {
      var init := others[..|others| - 1];
      InsertPrimary(init, x);
      assert others == init + [others[|others| - 1]];
    }
  }

  /** Inserting the next member keeps the sorted prefix equal to the primary-first split. */
  lemma InsertStep(ms: seq<Member>, i: nat)
    requires i < |ms| && AtMostOnePrimary(ms)
    ensures Insert(PrimaryFirst(ms[..i]), ms[i]) == PrimaryFirst(ms[..i + 1])
  {
    assert ms[..i + 1] == ms[..i] + [ms[i]];
    PrimariesPrefix(ms, i + 1);
    if ms[i].isPrimaryMember {
      InsertPrimaryStep(ms[..i], ms[i]);
    } else {
      InsertOtherStep(ms[..i], ms[i]);
    }
  }

  /** A primary member goes to the front of a prefix that holds no primary. */
  lemma InsertPrimaryStep(pre: seq<Member>, x: Member)
    requires x.isPrimaryMember && |Primaries(pre + [x])| <= 1
    ensures Insert(PrimaryFirst(pre), x) == PrimaryFirst(pre + [x])
  {
    var next, o := pre + [x], Others(pre);
    assert Primaries(pre) == [] && Primaries(next) == [x] && Others(next) == o by {
      assert next[..|next| - 1] == pre && next[|next| - 1] == x;
      assert Primaries(next) == Primaries(pre) + [x];
    }
    assert PrimaryFirst(pre) == o;
    InsertPrimary(o, x);
  }

  /** Any other member goes to the end of the sorted prefix. */
  lemma InsertOtherStep(pre: seq<Member>, x: Member)
    requires !x.isPrimaryMember
    ensures Insert(PrimaryFirst(pre), x) == PrimaryFirst(pre + [x])
  {
    var next, r := pre + [x], PrimaryFirst(pre);
    assert next[..|next| - 1] == pre && next[|next| - 1] == x;
    assert Primaries(next) == Primaries(pre);
    assert Others(next) == Others(pre) + [x];
    if |r| > 0 {
      assert Compare(r[|r| - 1], x) <= 0;
    }
    assert Insert(r, x) == r + [x];
  }

  /** Sorting a copy: insertion sort with the component's comparator. */
  method Sort(ms: seq<Member>) returns (r: seq<Member>)
    requires AtMostOnePrimary(ms)
    ensures r == PrimaryFirst(ms)
    ensures multiset(r) == multiset(ms)
  {
    r := [];
    for i := 0 to |ms|
      invariant r == PrimaryFirst(ms[..i])
    {
      InsertStep(ms, i);
      r := Insert(r, ms[i]);
    }
    assert ms[..|ms|] == ms;
    SplitIsPermutation(ms);
  }

  /** A prefix has no more primaries than the whole list. */
  lemma {:induction false} PrimariesPrefix(ms: seq<Member>, n: nat)
    requires n <= |ms|
    ensures |Primaries(ms[..n])| <= |Primaries(ms)|
    decreases |ms|
  {
    if n < |ms| {
      var init := ms[..|ms| - 1];
      assert ms[..n] == init[..n];
      PrimariesPrefix(init, n);
    } else {
      assert ms[..n] == ms;
    }
  }

  /** When there is a primary member, it leads the sorted list. */
  lemma PrimaryLeads(ms: seq<Member>, k: nat)
    requires k < |ms| && ms[k].isPrimaryMember && AtMostOnePrimary(ms)
    ensures PrimaryFirst(ms)[0] == ms[k]
  {
    SplitIsPermutation(ms);
    assert ms[k] in multiset(PrimaryFirst(ms));
    var r := PrimaryFirst(ms);
    var j :| 0 <= j < |r| && r[j] == ms[k];
    assert j < |Primaries(ms)|;
  }

  lemma {:induction false} OthersConcat(a: seq<Member>, b: seq<Member>)
    ensures Others(a + b) == Others(a) + Others(b)
    decreases |b|
  {
    if |b| == 0 {
      assert a + b == a;
    } else {
      var b' := b[..|b| - 1];
      assert (a + b)[..|a + b| - 1] == a + b';
      OthersConcat(a, b');
    }
  }

  lemma {:induction false} OthersOfOthers(ms: seq<Member>)
    requires forall i | 0 <= i < |ms| :: !ms[i].isPrimaryMember
    ensures Others(ms) == ms
    decreases |ms|
  {
    if |ms| > 0 {
      OthersOfOthers(ms[..|ms| - 1]);
    }
  }

  lemma {:induction false} OthersOfPrimaries(ms: seq<Member>)
    requires forall i | 0 <= i < |ms| :: ms[i].isPrimaryMember
    ensures Others(ms) == []
    decreases |ms|
  {
    if |ms| > 0 {
      OthersOfPrimaries(ms[..|ms| - 1]);
    }
  }

  /** The sort keeps the non-primary members in their original relative order. */
  lemma OthersKeepOrder(ms: seq<Member>)
    ensures Others(PrimaryFirst(ms)) == Others(ms)
  {
    OthersConcat(Primaries(ms), Others(ms));
    OthersOfPrimaries(Primaries(ms));
    OthersOfOthers(Others(ms));
  }

  /** The count reads `member` for exactly one member. */
  function CountWord(n: nat): (r: string)
    ensures r == "member" <==> n == 1
  {
    if n == 1 then "member" else "members"
  }

  /** The avatar initials of a member. */
  function MemberInitials(m: Member): (r: string)
    ensures |m.firstName| > 0 && |m.lastName| > 0 ==> |r| == 2
  {
    Initials(m.firstName, m.lastName)
  }
}

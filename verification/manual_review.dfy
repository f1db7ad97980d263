/**
 * The compliance review page: the case list filter, applying a reviewer's
 * decision, the counters of decisions taken since the page loaded, the
 * statistics cards and the colour of a risk score.
 */
module ManualReview {
  import opened Wrappers
  import opened ReviewTypes
  import opened Seqs
  import CaseDetail

  /** The filter tabs: every case, or the cases of one status. */
  datatype Filter = All | Only(status: Status)

  /** `cases.filter(c => c.status === s)`. */
  function WithStatus(cases: seq<Case>, s: Status): (r: seq<Case>)
    ensures |r| <= |cases|
    ensures forall i | 0 <= i < |r| :: r[i].status == s && r[i] in cases
    ensures forall i | 0 <= i < |cases| && cases[i].status == s :: cases[i] in r
    decreases |cases|
  {
    if |cases| == 0 then []
    else
      var rest := WithStatus(cases[1..], s);
      assert forall i | 1 <= i < |cases| :: cases[i] == cases[1..][i - 1];
      (if cases[0].status == s then [cases[0]] else []) + rest
  }

  /**
   * The filter works case by case and keeps the list's order: filtering two
   * lists one after the other is filtering their concatenation, and a single
   * case is kept iff it has the status.
   */
  lemma {:induction false} WithStatusKeepsOrder(a: seq<Case>, b: seq<Case>, s: Status)
    ensures WithStatus(a + b, s) == WithStatus(a, s) + WithStatus(b, s)
    ensures |a| == 1 ==> WithStatus(a, s) == if a[0].status == s then a else []
    decreases |a|
  {
    if |a| == 0 {
      assert a + b == b;
      assert WithStatus(a, s) == [];
      AppendEmpty(WithStatus(b, s));
    } else {
      var head := if a[0].status == s then [a[0]] else [];
      assert (a + b)[0] == a[0] && (a + b)[1..] == a[1..] + b;
      assert WithStatus(a + b, s) == head + WithStatus(a[1..] + b, s);
      assert WithStatus(a, s) == head + WithStatus(a[1..], s);
      WithStatusKeepsOrder(a[1..], b, s);
      AppendAssoc(head, WithStatus(a[1..], s), WithStatus(b, s));
      if |a| == 1 {
        assert a == [a[0]] && WithStatus(a[1..], s) == [];
        AppendEmpty(head);
      }
    }
  }

  /** The filter holds each case of that status as often as the list does, and no other case. */
  lemma {:induction false} WithStatusMultiplicity(cases: seq<Case>, s: Status, c: Case)
    ensures c.status == s ==> multiset(WithStatus(cases, s))[c] == multiset(cases)[c]
    ensures c.status != s ==> c !in WithStatus(cases, s)
    decreases |cases|
  {
    if c.status != s {
      var r := WithStatus(cases, s);
      assert forall i | 0 <= i < |r| :: r[i] != c;
    } else if |cases| > 0 {
      var r, rest := WithStatus(cases, s), WithStatus(cases[1..], s);
      WithStatusMultiplicity(cases[1..], s, c);
      assert cases == [cases[0]] + cases[1..];
      assert cases[0].status == s ==> r == [cases[0]] + rest;
      assert cases[0].status != s ==> r == rest;
      FilterStepCount(cases[0], cases[1..], rest, r, c, cases[0].status == s);
    }
  }

  function Filtered(cases: seq<Case>, f: Filter): (r: seq<Case>)
    ensures f.All? ==> r == cases
    ensures f.Only? ==> r == WithStatus(cases, f.status)
  {
    match f
    case All => cases
    case Only(s) => WithStatus(cases, s)
  }

  /** The four status tabs together list every case exactly once. */
  lemma {:induction false} TabsPartition(cases: seq<Case>)
    ensures |WithStatus(cases, Pending)| + |WithStatus(cases, Approved)|
      + |WithStatus(cases, Rejected)| + |WithStatus(cases, Hold)| == |cases|
    decreases |cases|
  {
    if |cases| > 0 {
      TabsPartition(cases[1..]);
    }
  }

  // ---------------------------------------------------------------------------
  // Applying a decision

  const Reviewer := "Current User"

  /** The decided case: new status, reviewer and notes; everything else kept. */
  function Decide(c: Case, a: Action, notes: Option<string>): (r: Case)
    ensures r.id == c.id && r.status == StatusOf(a) && r.reviewedBy == Some(Reviewer) && r.reviewNotes == notes
    ensures r.(status := c.status, reviewedBy := c.reviewedBy, reviewNotes := c.reviewNotes) == c
  {
    c.(status := StatusOf(a), reviewedBy := Some(Reviewer), reviewNotes := notes)
  }

  /** `cases.map(c => c.id === caseId ? decided : c)`. */
  function ApplyAction(cases: seq<Case>, id: string, a: Action, notes: Option<string>): (r: seq<Case>)
    ensures |r| == |cases|
    ensures forall i | 0 <= i < |cases| :: r[i] == if cases[i].id == id then Decide(cases[i], a, notes) else cases[i]
    decreases |cases|
  {
    if |cases| == 0 then []
    else [if cases[0].id == id then Decide(cases[0], a, notes) else cases[0]] + ApplyAction(cases[1..], id, a, notes)
  }

  /** The page: the filter, the open dialog's case, and the cases. */
  datatype Page = Page(filter: Filter, selected: Option<Case>, cases: seq<Case>)

  /** `handleCaseAction`: the matching case is decided and the dialog closes. */
  function HandleCaseAction(p: Page, id: string, a: Action, notes: Option<string>): (r: Page)
    ensures r.selected.None? && r.filter == p.filter
    ensures r.cases == ApplyAction(p.cases, id, a, notes)
  {
    p.(selected := None, cases := ApplyAction(p.cases, id, a, notes))
  }

  /** Cases with another id are untouched; the decided case moves to its new tab. */
  lemma {:induction false} OnlyMatchingCaseChanges(cases: seq<Case>, id: string, a: Action, notes: Option<string>)
    ensures var r := ApplyAction(cases, id, a, notes);
      && (forall i | 0 <= i < |cases| && cases[i].id != id :: r[i] == cases[i])
      && (forall i | 0 <= i < |cases| && cases[i].id == id :: r[i].status == StatusOf(a) && r[i].reviewedBy == Some(Reviewer))
  {
  }

  /** Deciding a case with a fresh id, held once and pending, takes one case off the pending tab. */
  lemma {:induction false} DecidingPendingCaseReducesPending(cases: seq<Case>, k: nat, a: Action, notes: Option<string>)
    requires k < |cases| && cases[k].status == Pending
    requires forall i | 0 <= i < |cases| && i != k :: cases[i].id != cases[k].id
    ensures |WithStatus(ApplyAction(cases, cases[k].id, a, notes), Pending)| == |WithStatus(cases, Pending)| - 1
    decreases |cases|
  {
    var id := cases[k].id;
    var r := ApplyAction(cases, id, a, notes);
    assert r[1..] == ApplyAction(cases[1..], id, a, notes);
    if k == 0 {
      UntouchedWithoutId(cases[1..], id, a, notes);
    } else {
      DecidingPendingCaseReducesPending(cases[1..], k - 1, a, notes);
    }
  }

  /** A decision chosen and confirmed in the dialog of a pending case reaches the page and leaves the pending tab. */
  lemma DialogDecisionApplied(p: Page, k: nat, notes: string, a: Action)
    requires k < |p.cases| && p.cases[k].status == Pending
    requires forall i | 0 <= i < |p.cases| && i != k :: p.cases[i].id != p.cases[k].id
    ensures var (_, calls) := CaseDetail.Run(p.cases[k], CaseDetail.Dialog(notes, None), [CaseDetail.Choose(a), CaseDetail.Confirm]);
      && |calls| == 1
      && var r := HandleCaseAction(p, calls[0].caseId, calls[0].action, Some(calls[0].notes));
      && r.cases[k].status == StatusOf(a) && r.cases[k].reviewNotes == Some(notes) && r.selected.None?
      && |WithStatus(r.cases, Pending)| == |WithStatus(p.cases, Pending)| - 1
  {
    CaseDetail.ChooseThenConfirm(p.cases[k], notes, a);
    DecidingPendingCaseReducesPending(p.cases, k, a, Some(notes));
  }

  lemma {:induction false} UntouchedWithoutId(cases: seq<Case>, id: string, a: Action, notes: Option<string>)
    requires forall i | 0 <= i < |cases| :: cases[i].id != id
    ensures ApplyAction(cases, id, a, notes) == cases
    decreases |cases|
  {
    if |cases| > 0 {
      UntouchedWithoutId(cases[1..], id, a, notes);
    }
  }

  // ---------------------------------------------------------------------------
  // Counters and statistics

  /** `initialCases.find(ic => ic.id === id)`. */
  function Find(initial: seq<Case>, id: string): (r: Option<Case>)
    ensures r.Some? ==> r.value in initial && r.value.id == id
    ensures r.None? <==> forall i | 0 <= i < |initial| :: initial[i].id != id
    ensures forall i | 0 <= i < |initial| && initial[i].id == id && FirstWithId(initial, id, i) :: r == Some(initial[i])
    decreases |initial|
  {
    if |initial| == 0 then None
    else if initial[0].id == id then Some(initial[0])
    else
      assert forall i | 1 <= i < |initial| :: initial[i] == initial[1..][i - 1];
      assert forall i | 1 <= i < |initial| && FirstWithId(initial, id, i) :: FirstWithId(initial[1..], id, i - 1);
      Find(initial[1..], id)
  }

  /** No case before position `i` has the id. */
  predicate FirstWithId(initial: seq<Case>, id: string, i: nat)
    requires i <= |initial|
  {
    forall j | 0 <= j < i :: initial[j].id != id
  }

  /** A case that was pending when the page loaded and no longer is. */
  predicate LeftPending(initial: seq<Case>, c: Case) {
    var ic := Find(initial, c.id);
    ic.Some? && ic.value.status == Pending && c.status != Pending
  }

  datatype Counters = Counters(newlyCleared: nat, newlyRejected: nat, pendingReduced: nat)

  function Count(cases: seq<Case>, initial: seq<Case>): (r: Counters)
    ensures r.newlyCleared + r.newlyRejected <= r.pendingReduced <= |cases|
    decreases |cases|
  {
    if |cases| == 0 then Counters(0, 0, 0)
    else
      var rest := Count(cases[1..], initial);
      var c := cases[0];
      if LeftPending(initial, c) then
        Counters(
          rest.newlyCleared + (if c.status == Approved then 1 else 0),
          rest.newlyRejected + (if c.status == Rejected then 1 else 0),
          rest.pendingReduced + 1)
      else rest
  }

  /** Cases counted as left pending but neither cleared nor rejected. */
  function NewlyHeld(cases: seq<Case>, initial: seq<Case>): nat
    decreases |cases|
  {
    if |cases| == 0 then 0
    else NewlyHeld(cases[1..], initial) + (if LeftPending(initial, cases[0]) && cases[0].status == Hold then 1 else 0)
  }

  /** Every case that left the pending state was cleared, rejected or put on hold. */
  lemma {:induction false} ReducedIsClearedRejectedHeld(cases: seq<Case>, initial: seq<Case>)
    ensures var n := Count(cases, initial);
      n.pendingReduced == n.newlyCleared + n.newlyRejected + NewlyHeld(cases, initial)
    decreases |cases|
  {
    if |cases| > 0 {
      ReducedIsClearedRejectedHeld(cases[1..], initial);
    }
  }

  /** The fixture's figures the cards start from. */
  datatype Base = Base(total: nat, cleared: nat, rejected: nat, falsePositiveRate: real)

  datatype Stats = Stats(total: nat, cleared: nat, rejected: nat, pending: nat)

  function ComputeStats(cases: seq<Case>, initial: seq<Case>, base: Base): (r: Stats)
    ensures r.total == base.total
    ensures r.cleared == base.cleared + Count(cases, initial).newlyCleared
    ensures r.rejected == base.rejected + Count(cases, initial).newlyRejected
    ensures r.cleared + r.rejected <= base.cleared + base.rejected + Count(cases, initial).pendingReduced
    ensures r.pending == |WithStatus(cases, Pending)|
  {
    var n := Count(cases, initial);
    Stats(base.total, base.cleared + n.newlyCleared, base.rejected + n.newlyRejected, |WithStatus(cases, Pending)|)
  }

  /** Cleared over decided cases, or the fixture's rate while nothing is decided. */
  function FalsePositiveRate(s: Stats, base: Base): (r: real)
    ensures s.cleared + s.rejected > 0 ==> 0.0 <= r <= 1.0
    ensures s.cleared + s.rejected == 0 ==> r == base.falsePositiveRate
  {
    var processed := s.cleared + s.rejected;
    if processed > 0 then s.cleared as real / processed as real else base.falsePositiveRate
  }

  /** Once something is decided, the rate is 1 exactly when nothing was rejected. */
  lemma FullRateIffNoRejection(s: Stats, base: Base)
    requires s.cleared + s.rejected > 0
    ensures FalsePositiveRate(s, base) == 1.0 <==> s.rejected == 0
  {
    var p := (s.cleared + s.rejected) as real;
    var x := s.cleared as real / p;
    assert x * p == s.cleared as real;
    if x == 1.0 {
      assert s.cleared as real == p;
    }
  }

  // ---------------------------------------------------------------------------
  // Badges and colours

  /** The status badge's label. */
  function StatusLabel(s: Status): string {
    match s
    case Pending => "Under Review"
    case Approved => "Cleared"
    case Rejected => "Rejected"
    case Hold => "On Hold"
  }

  lemma StatusLabelsDistinct(s: Status, t: Status)
    ensures StatusLabel(s) == StatusLabel(t) <==> s == t
  {
    assert "Under Review"[0] == 'U' && "Cleared"[0] == 'C' && "Rejected"[0] == 'R' && "On Hold"[0] == 'O';
  }

  datatype RiskColour = Emerald | Yellow | Amber | Red

  function Rank(c: RiskColour): nat {
    match c
    case Emerald => 0
    case Yellow => 1
    case Amber => 2
    case Red => 3
  }

  function RiskColourOf(score: real): (r: RiskColour)
    ensures r == Red <==> score >= 80.0
    ensures r == Amber <==> 60.0 <= score < 80.0
    ensures r == Yellow <==> 40.0 <= score < 60.0
    ensures r == Emerald <==> score < 40.0
  {
    if score >= 80.0 then Red
    else if score >= 60.0 then Amber
    else if score >= 40.0 then Yellow
    else Emerald
  }

  /** A higher score never gets a milder colour. */
  lemma RiskColourMonotone(x: real, y: real)
    requires x <= y
    ensures Rank(RiskColourOf(x)) <= Rank(RiskColourOf(y))
  {
  }
}

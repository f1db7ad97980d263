/**
 * The dashboard's four figures over the user's policies: active policies, total
 * coverage, the premium as a monthly figure, and covered members. Only active
 * policies count; sums are the left folds `reduce` computes, over exact reals.
 */
module QuickStats {
  import opened PolicyTypes
  import PolicyDetails

  predicate IsActive(p: Summary) {
    p.status == Active
  }

  /** `policies.filter(p => p.status === 'active')`. */
  function ActivePolicies(ps: seq<Summary>): (r: seq<Summary>)
    ensures |r| <= |ps|
    ensures forall i | 0 <= i < |r| :: IsActive(r[i]) && r[i] in ps
    ensures forall i | 0 <= i < |ps| && IsActive(ps[i]) :: ps[i] in r
    decreases |ps|
  {
    if |ps| == 0 then []
    else
      var init := ActivePolicies(ps[..|ps| - 1]);
      assert forall i | 0 <= i < |ps| - 1 :: ps[i] == ps[..|ps| - 1][i];
      if IsActive(ps[|ps| - 1]) then init + [ps[|ps| - 1]] else init
  }

  lemma {:induction false} ActivePoliciesConcat(a: seq<Summary>, b: seq<Summary>)
    ensures ActivePolicies(a + b) == ActivePolicies(a) + ActivePolicies(b)
    decreases |b|
  {
    if |b| == 0 {
      assert a + b == a;
    } else {
      var b' := b[..|b| - 1];
      assert (a + b)[..|a + b| - 1] == a + b';
      ActivePoliciesConcat(a, b');
    }
  }

  /** The number of positions holding an active policy, counted independently of the filter. */
  function ActiveCount(ps: seq<Summary>): (n: nat)
    ensures n == |set i | 0 <= i < |ps| && IsActive(ps[i])|
    decreases |ps|
  {
    if |ps| == 0 then 0
    else
      var init := ps[..|ps| - 1];
      var last := |ps| - 1;
      var s := set i | 0 <= i < |init| && IsActive(init[i]);
      var t := set i | 0 <= i < |ps| && IsActive(ps[i]);
      assert forall i | 0 <= i < |init| :: init[i] == ps[i];
      assert t == if IsActive(ps[last]) then s + {last} else s;
      ActiveCount(init) + (if IsActive(ps[last]) then 1 else 0)
  }

  /** The filter keeps exactly the active positions. */
  lemma {:induction false} ActivePoliciesCount(ps: seq<Summary>)
    ensures |ActivePolicies(ps)| == ActiveCount(ps)
    decreases |ps|
  {
    if |ps| > 0 {
      ActivePoliciesCount(ps[..|ps| - 1]);
    }
  }

  /** The contribution of one policy to the monthly figure. */
  function MonthlyEquivalent(p: Summary): real {
    match p.premiumFrequency
    case Monthly => p.premiumAmount
    case Quarterly => p.premiumAmount / 3.0
    case Yearly => p.premiumAmount / 12.0
  }

  /** Twelve months of the monthly figure are the annual premium the policy page shows. */
  lemma TwelveMonthsAreTheYear(p: Summary)
    ensures 12.0 * MonthlyEquivalent(p) == PolicyDetails.AnnualPremium(p.premiumFrequency, p.premiumAmount)
  {
  }

  /** `reduce((sum, p) => sum + f(p), 0)`, folded from the left. */
  function SumBy(ps: seq<Summary>, f: Summary -> real): real
    decreases |ps|
  {
    if |ps| == 0 then 0.0 else SumBy(ps[..|ps| - 1], f) + f(ps[|ps| - 1])
  }

  lemma {:induction false} SumByConcat(a: seq<Summary>, b: seq<Summary>, f: Summary -> real)
    ensures SumBy(a + b, f) == SumBy(a, f) + SumBy(b, f)
    decreases |b|
  {
    if |b| == 0 {
      assert a + b == a;
    } else {
      var b' := b[..|b| - 1];
      assert (a + b)[..|a + b| - 1] == a + b';
      assert (a + b)[|a + b| - 1] == b[|b| - 1];
      SumByConcat(a, b', f);
    }
  }

  /** A sum of non-negative terms is non-negative. */
  lemma {:induction false} SumByNonNegative(ps: seq<Summary>, f: Summary -> real)
    requires forall i | 0 <= i < |ps| :: f(ps[i]) >= 0.0
    ensures SumBy(ps, f) >= 0.0
    decreases |ps|
  {
    if |ps| > 0 {
      assert forall i | 0 <= i < |ps| - 1 :: ps[..|ps| - 1][i] == ps[i];
      SumByNonNegative(ps[..|ps| - 1], f);
    }
  }

  function Coverage(p: Summary): real {
    p.coverageAmount
  }

  function Members(p: Summary): real {
    p.memberCount as real
  }

  datatype Stats = Stats(activePolicies: nat, totalCoverage: real, monthlyPremium: real, totalMembers: real)

  /** The four figures; every one of them looks at the active policies only. */
  function Compute(ps: seq<Summary>): (r: Stats)
    ensures r.activePolicies == ActiveCount(ps)
  {
    var active := ActivePolicies(ps);
    ActivePoliciesCount(ps);
    Stats(|active|, SumBy(active, Coverage), SumBy(active, MonthlyEquivalent), SumBy(active, Members))
  }

  /** The figures of two lists together are the sums of their figures. */
  lemma StatsConcat(a: seq<Summary>, b: seq<Summary>)
    ensures Compute(a + b) == Stats(
      Compute(a).activePolicies + Compute(b).activePolicies,
      Compute(a).totalCoverage + Compute(b).totalCoverage,
      Compute(a).monthlyPremium + Compute(b).monthlyPremium,
      Compute(a).totalMembers + Compute(b).totalMembers)
  {
    ActivePoliciesConcat(a, b);
    var x, y := ActivePolicies(a), ActivePolicies(b);
    SumByConcat(x, y, Coverage);
    SumByConcat(x, y, MonthlyEquivalent);
    SumByConcat(x, y, Members);
  }

  /** A policy that is not active, wherever it is added, changes none of the figures. */
  lemma InactiveChangesNothing(a: seq<Summary>, p: Summary, b: seq<Summary>)
    requires !IsActive(p)
    ensures Compute(a + [p] + b) == Compute(a + b)
  {
    StatsConcat(a + [p], b);
    StatsConcat(a, [p]);
    StatsConcat(a, b);
    assert ActivePolicies([p]) == [];
  }

  /** Twelve times the monthly figure is the sum of the active policies' annual premiums. */
  lemma {:induction false} MonthlyFigureIsAnnualOverTwelve(ps: seq<Summary>)
    ensures 12.0 * SumBy(ps, MonthlyEquivalent) == SumBy(ps, Annual)
    decreases |ps|
  {
    if |ps| > 0 {
      MonthlyFigureIsAnnualOverTwelve(ps[..|ps| - 1]);
      TwelveMonthsAreTheYear(ps[|ps| - 1]);
    }
  }

  function Annual(p: Summary): real {
    PolicyDetails.AnnualPremium(p.premiumFrequency, p.premiumAmount)
  }

  /** The dashboard's monthly figure is a twelfth of the annual premiums the policy pages show. */
  lemma MonthlyPremiumIsAnnualOverTwelve(ps: seq<Summary>)
    ensures 12.0 * Compute(ps).monthlyPremium == SumBy(ActivePolicies(ps), Annual)
  {
    MonthlyFigureIsAnnualOverTwelve(ActivePolicies(ps));
  }

  /** With non-negative amounts every figure is non-negative. */
  lemma FiguresNonNegative(ps: seq<Summary>)
    requires forall i | 0 <= i < |ps| :: ps[i].coverageAmount >= 0.0 && ps[i].premiumAmount >= 0.0
    ensures Compute(ps).totalCoverage >= 0.0 && Compute(ps).monthlyPremium >= 0.0 && Compute(ps).totalMembers >= 0.0
  {
    var active := ActivePolicies(ps);
    SumByNonNegative(active, Coverage);
    SumByNonNegative(active, MonthlyEquivalent);
    SumByNonNegative(active, Members);
  }
}

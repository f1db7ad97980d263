/**
 * The inline card that plays back the final verification checks: the outcome
 * read from the action's data, the status each check ends with, and the
 * schedule of the animation that reveals them one after another.
 */
module VerificationProgress {
  import opened Wrappers
  import opened Text
  import opened Json

  datatype Outcome = Approved | Rejected | ManualReview | InProgress

  /** `String(data.outcome).toLowerCase()` against the three lists of synonyms; anything else is in progress. */
  function NormaliseOutcome(outcome: Option<Json>): (r: Outcome)
    ensures !TruthyOpt(outcome) ==> r == InProgress
    ensures TruthyOpt(outcome) ==> var o := Lower(ToStr(outcome.value));
      && (r == Approved <==> o in {"approved", "verified", "completed"})
      && (r == Rejected <==> o in {"rejected", "failed", "declined"})
      && (r == ManualReview <==> o in {"manual_review", "review", "hold"})
  {
    if TruthyOpt(outcome) then
      var o := Lower(ToStr(outcome.value));
      if o == "approved" || o == "verified" || o == "completed" then Approved
      else if o == "rejected" || o == "failed" || o == "declined" then Rejected
      else if o == "manual_review" || o == "review" || o == "hold" then ManualReview
      else InProgress
    else InProgress
  }

  /** The five checks, in the order they are played. */
  datatype Check = DocumentAuth | FaceMatch | Liveness | Sanctions | RiskScore

  const Checks: seq<Check> := [DocumentAuth, FaceMatch, Liveness, Sanctions, RiskScore]

  /** Wait before a check starts, in milliseconds. */
  function Delay(c: Check): nat {
    if c == DocumentAuth then 400 else 300
  }

  /** How long a check runs, in milliseconds. */
  function Duration(c: Check): nat {
    match c
    case DocumentAuth => 800
    case FaceMatch => 1000
    case Liveness => 700
    case Sanctions => 900
    case RiskScore => 600
  }

  /** The keywords of the (lower-cased) failure reason that point at a check. */
  predicate Blames(c: Check, reason: string) {
    match c
    case DocumentAuth => Contains(reason, "document")
    case FaceMatch => Contains(reason, "face") || Contains(reason, "match")
    case Liveness => Contains(reason, "liveness")
    case Sanctions => Contains(reason, "sanction") || Contains(reason, "pep")
    case RiskScore => Contains(reason, "risk") || Contains(reason, "fraud")
  }

  /** A failure reason counts only when it is a non-empty string. */
  predicate HasReason(failureReason: Option<string>) {
    failureReason.Some? && failureReason.value != ""
  }

  datatype Status = Passed | Failed

  /** `determineCheckStatus`: passed on success or review, otherwise failed when the reason blames the check. */
  function DetermineCheckStatus(c: Check, outcome: Outcome, failureReason: Option<string>): (r: Status)
    ensures r == Failed <==>
      outcome !in {Approved, ManualReview} && HasReason(failureReason) && Blames(c, Lower(failureReason.value))
  {
    if outcome == Approved || outcome == ManualReview then Passed
    else if HasReason(failureReason) && Blames(c, Lower(failureReason.value)) then Failed
    else Passed
  }

  /** The first check, in play order from position `k`, that the reason blames. */
  function FirstBlamed(reason: string, k: nat): (r: Option<nat>)
    requires k <= |Checks|
    ensures r.Some? ==> k <= r.value < |Checks| && Blames(Checks[r.value], reason)
    ensures r.Some? ==> forall l | k <= l < r.value :: !Blames(Checks[l], reason)
    ensures r.None? ==> forall l | k <= l < |Checks| :: !Blames(Checks[l], reason)
    decreases |Checks| - k
  {
    if k == |Checks| then None
    else if Blames(Checks[k], reason) then Some(k)
    else FirstBlamed(reason, k + 1)
  }

  /** `failedCheck`: for a rejection with a reason, the first blamed check, risk score when none is. */
  function FailedCheck(outcome: Outcome, failureReason: Option<string>): (r: Option<Check>)
    ensures r.Some? <==> outcome == Rejected && HasReason(failureReason)
    ensures r.Some? ==> var reason := Lower(failureReason.value);
      && (Blames(r.value, reason) || (r.value == RiskScore && forall c :: !Blames(c, reason)))
      && forall l | 0 <= l < |Checks| && Checks[l] != r.value && Blames(Checks[l], reason) :: r.value in Checks[..l]
  {
    if outcome == Rejected && HasReason(failureReason) then
      var reason := Lower(failureReason.value);
      var first := FirstBlamed(reason, 0);
      if first.Some? then
        assert forall l | 0 <= l < |Checks| && Checks[l] != Checks[first.value] && Blames(Checks[l], reason) ::
          first.value < l && Checks[..l][first.value] == Checks[first.value];
        Some(Checks[first.value])
      else
        assert Checks == [DocumentAuth, FaceMatch, Liveness, Sanctions, RiskScore];
        assert !Blames(Checks[0], reason) && !Blames(Checks[1], reason) && !Blames(Checks[2], reason);
        assert !Blames(Checks[3], reason) && !Blames(Checks[4], reason);
        Some(RiskScore)
    else None
  }

  /** The status a check ends with. */
  function FinalStatus(c: Check, outcome: Outcome, failureReason: Option<string>): Status {
    if FailedCheck(outcome, failureReason) == Some(c) then Failed else DetermineCheckStatus(c, outcome, failureReason)
  }

  /** The final statuses in play order. */
  function FinalStatuses(outcome: Outcome, failureReason: Option<string>): (r: seq<Status>)
    ensures |r| == |Checks|
    ensures forall i | 0 <= i < |Checks| :: r[i] == FinalStatus(Checks[i], outcome, failureReason)
  {
    seq(|Checks|, i requires 0 <= i < |Checks| => FinalStatus(Checks[i], outcome, failureReason))
  }

  /** On approval or review every check passes. */
  lemma SuccessPassesAll(outcome: Outcome, failureReason: Option<string>, c: Check)
    requires outcome == Approved || outcome == ManualReview
    ensures FinalStatus(c, outcome, failureReason) == Passed
  {
  }

  /** A rejection without a reason fails no check at all. */
  lemma RejectionWithoutReasonPassesAll(failureReason: Option<string>, c: Check)
    requires !HasReason(failureReason)
    ensures FinalStatus(c, Rejected, failureReason) == Passed
  {
  }

  /** A rejection whose reason blames nothing fails the risk score and nothing else. */
  lemma UnexplainedRejectionFailsRisk(reason: string, c: Check)
    requires reason != "" && forall d :: !Blames(d, Lower(reason))
    ensures FinalStatus(c, Rejected, Some(reason)) == (if c == RiskScore then Failed else Passed)
  {
  }

  /** While still in progress, a reason alone can fail the checks it blames. */
  lemma InProgressCanFail(reason: string, c: Check)
    requires reason != "" && Blames(c, Lower(reason))
    ensures FinalStatus(c, InProgress, Some(reason)) == Failed
  {
  }

  // ---------------------------------------------------------------------------
  // The schedule

  /** Time from the start until check `i` would begin its delay: the delays and durations of the checks before it. */
  function Elapsed(checks: seq<Check>, i: nat): (r: nat)
    requires i <= |checks|
  {
    if i == 0 then 0 else Elapsed(checks, i - 1) + Delay(checks[i - 1]) + Duration(checks[i - 1])
  }

  /** How many checks get scheduled: up to and including the first that fails. */
  function Scheduled(finals: seq<Status>): (r: nat)
    requires |finals| > 0
    ensures 1 <= r <= |finals|
    ensures forall i | 0 <= i < r - 1 :: finals[i] == Passed
    ensures r < |finals| ==> finals[r - 1] == Failed
  {
    ScheduledFrom(finals, 0)
  }

  function ScheduledFrom(finals: seq<Status>, k: nat): (r: nat)
    requires k < |finals|
    ensures k < r <= |finals|
    ensures forall i | k <= i < r - 1 :: finals[i] == Passed
    ensures r < |finals| ==> finals[r - 1] == Failed
    decreases |finals| - k
  {
    if finals[k] == Failed || k + 1 == |finals| then k + 1 else ScheduledFrom(finals, k + 1)
  }

  /** When a check starts running and when it completes. */
  datatype Slot = Slot(start: int, complete: int)

  /** Check `i` starts after the earlier checks and its own delay, and completes where the next check's delay begins. */
  function SlotOf(checks: seq<Check>, i: nat): (r: Slot)
    requires i < |checks|
    ensures r.start == Elapsed(checks, i) + Delay(checks[i])
    ensures r.complete == r.start + Duration(checks[i])
  {
    Slot(Elapsed(checks, i) + Delay(checks[i]), Elapsed(checks, i + 1))
  }

  /**
   * The animation loop over the checks in play order (`Checks`) and their final
   * statuses: when each check starts and completes, and when the done marker fires.
   */
  method Schedule(checks: seq<Check>, finals: seq<Status>) returns (slots: seq<Slot>, done: int)
    requires |finals| == |checks| > 0
    ensures |slots| == Scheduled(finals)
    ensures forall i | 0 <= i < |slots| :: slots[i] == SlotOf(checks, i)
    ensures done == slots[|slots| - 1].complete + 500
  {
    var cumulative := 0;
    slots := [];
    var i := 0;
    while i < |checks|
      invariant 0 <= i <= |checks| && |slots| == i
      invariant cumulative == Elapsed(checks, i)
      invariant forall k | 0 <= k < i :: slots[k] == SlotOf(checks, k)
      invariant forall k | 0 <= k < i :: finals[k] == Passed
    {
      var start := cumulative + Delay(checks[i]);
      cumulative := start + Duration(checks[i]);
      slots := slots + [Slot(start, cumulative)];
      if finals[i] == Failed {
        ScheduledStopsAt(finals, i + 1);
        done := cumulative + 500;
        return;
      }
      i := i + 1;
    }
    ScheduledRunsThrough(finals);
    done := cumulative + 500;
  }

  lemma {:induction false} ScheduledFromStopsAt(finals: seq<Status>, k: nat, n: nat)
    requires k < n <= |finals|
    requires finals[n - 1] == Failed && forall l | k <= l < n - 1 :: finals[l] == Passed
    ensures ScheduledFrom(finals, k) == n
    decreases n - k
  {
    if k < n - 1 {
      ScheduledFromStopsAt(finals, k + 1, n);
    }
  }

  lemma ScheduledStopsAt(finals: seq<Status>, n: nat)
    requires 0 < n <= |finals|
    requires finals[n - 1] == Failed && forall k | 0 <= k < n - 1 :: finals[k] == Passed
    ensures Scheduled(finals) == n
  {
    ScheduledFromStopsAt(finals, 0, n);
  }

  lemma ScheduledRunsThrough(finals: seq<Status>)
    requires |finals| > 0 && forall k | 0 <= k < |finals| :: finals[k] == Passed
    ensures Scheduled(finals) == |finals|
  {
  }

  /** Each check starts after the one before it has completed, so start times strictly increase. */
  lemma {:induction false} StartsIncrease(checks: seq<Check>, i: nat, j: nat)
    requires i < j < |checks|
    ensures Elapsed(checks, i) + Delay(checks[i]) + Duration(checks[i]) <= Elapsed(checks, j)
    ensures Elapsed(checks, i) + Delay(checks[i]) < Elapsed(checks, j) + Delay(checks[j])
    decreases j - i
  {
    if i + 1 < j {
      StartsIncrease(checks, i, j - 1);
    }
  }

  /** At most one check is ever shown failed, and it is the last one played. */
  lemma AtMostOneShownFailed(finals: seq<Status>, i: nat)
    requires |finals| > 0 && i < Scheduled(finals) && finals[i] == Failed
    ensures i == Scheduled(finals) - 1
  {
  }

  /** With every check passing, the last check completes at 5,600, so the done marker fires at 6,100. */
  lemma FullScheduleLength()
    ensures |Checks| == 5 && SlotOf(Checks, 4).complete == 5600
  {
    var c := Checks;
    assert c[0] == DocumentAuth && c[1] == FaceMatch && c[2] == Liveness && c[3] == Sanctions && c[4] == RiskScore;
    assert Elapsed(c, 1) == 1200;
    assert Elapsed(c, 2) == 2500;
    assert Elapsed(c, 3) == 3500;
    assert Elapsed(c, 4) == 4700;
    assert Elapsed(c, 5) == 5600;
  }

  /** A reason blaming both the document and the face fails both checks, yet only the document check is played as failed. */
  lemma TwoBlamedOneShown(reason: string)
    requires reason != "" && Contains(Lower(reason), "document") && Contains(Lower(reason), "face")
    ensures FinalStatus(DocumentAuth, Rejected, Some(reason)) == Failed
    ensures FinalStatus(FaceMatch, Rejected, Some(reason)) == Failed
    ensures Scheduled(FinalStatuses(Rejected, Some(reason))) == 1
  {
    var finals := FinalStatuses(Rejected, Some(reason));
    assert finals[0] == FinalStatus(DocumentAuth, Rejected, Some(reason));
    ScheduledStopsAt(finals, 1);
  }
}

/**
 * The stage mapper of the verification side panel: whatever the backend
 * reports, the panel shows the same seven stages in a fixed order, each with a
 * status merged from the reports, from how far the verification has got, and
 * from the stage the backend says it is working on.
 *
 * The backend's stage names are kept as the three tables of the panel: the
 * names merged into each displayed stage, the index of the displayed stage a
 * name shows progress up to, and the names that mark a displayed stage as the
 * current one.
 */
module StatusPanel {
  import opened Wrappers
  import opened KycTypes

  /** The displayed stages, in display order. */
  const Canonical: seq<string> := [
    "journey_initiation", "consent_authorization", "document_capture",
    "presence_confirmation", "liveness_interaction", "outcome_notification", "completion_confirmation"]

  const StageCount := 7

  /** For each displayed stage, the reported names merged into it (`stageMergeMapping`). */
  const MergeNames: seq<seq<string>> := [
    ["initiated"],
    [],
    ["ocr_processing", "ocr_extraction", "document_uploaded", "documents_uploaded", "data_extracted",
     "pending_ocr", "ocr_failed", "ocr_completed"],
    ["user_review", "data_review", "pending_user_review"],
    ["user_confirmed", "gov_verification", "government_verification", "gov_verification_pending",
     "gov_verification_failed", "gov_verification_passed"],
    ["fraud_detection", "fraud_check", "fraud_check_pending", "fraud_check_failed", "fraud_check_passed"],
    ["decision", "decision_made", "pending_decision", "completed"]]

  /** For each displayed stage, the current-stage values that mark it as being worked on (`stageMapping`). */
  const CurrentNames: seq<seq<string>> := [
    ["initiated"],
    [],
    ["document_uploaded", "documents_uploaded", "ocr_extraction", "ocr_processing", "data_extracted",
     "pending_ocr", "processing", "ocr_failed", "ocr_completed"],
    ["pending_user_review", "user_review", "data_review"],
    ["user_confirmed", "gov_verification", "government_verification", "gov_verification_pending",
     "gov_verification_failed", "gov_verification_passed"],
    ["fraud_check", "fraud_detection", "fraud_check_pending", "fraud_check_failed", "fraud_check_passed"],
    ["decision_made", "decision", "pending_decision", "completed"]]

  /**
   * How far a reported name shows the verification has got
   * (`backendToUIStageIndex`), grouped by index: the names at position `k` map
   * to displayed stage `k`. No name maps to consent.
   */
  const IndexNames: seq<seq<string>> := [
    ["initiated"],
    [],
    ["document_uploaded", "documents_uploaded", "ocr_processing", "ocr_extraction", "data_extracted",
     "pending_ocr", "ocr_failed", "ocr_completed"],
    ["user_review", "data_review", "pending_user_review"],
    ["user_confirmed", "gov_verification", "government_verification", "gov_verification_pending",
     "gov_verification_failed"],
    ["fraud_detection", "fraud_check", "fraud_check_pending", "fraud_check_failed"],
    ["decision", "decision_made", "pending_decision", "completed"]]

  /** The first group, from position `k` on, that holds `name`. */
  function GroupOf(groups: seq<seq<string>>, name: string, k: nat): (r: Option<nat>)
    requires k <= |groups|
    ensures r.Some? ==> k <= r.value < |groups| && name in groups[r.value]
    ensures r.Some? ==> forall l | k <= l < r.value :: name !in groups[l]
    ensures r.None? ==> forall l | k <= l < |groups| :: name !in groups[l]
    decreases |groups| - k
  {
    if k == |groups| then None
    else if name in groups[k] then Some(k)
    else GroupOf(groups, name, k + 1)
  }

  /** `backendToUIStageIndex[name]`, undefined (None) for names not in the table. */
  function StageIndex(name: string): (r: Option<nat>)
    ensures r.Some? ==> r.value < StageCount && name in IndexNames[r.value]
    ensures r.None? ==> forall k | 0 <= k < StageCount :: name !in IndexNames[k]
  {
    GroupOf(IndexNames, name, 0)
  }

  /** A current stage counts only when it is a non-empty string. */
  predicate Truthy(currentStage: Option<string>) {
    currentStage.Some? && currentStage.value != ""
  }

  // ---------------------------------------------------------------------------
  // How far the verification has got

  /** The index of each report's name, in report order. */
  function Indices(stages: seq<Stage>): (r: seq<Option<nat>>)
    ensures |r| == |stages|
    ensures forall j | 0 <= j < |stages| :: r[j] == StageIndex(stages[j].name)
  {
    seq(|stages|, j requires 0 <= j < |stages| => StageIndex(stages[j].name))
  }

  /** The fold of `forEach`: the running highest index, raised by each report that has one. */
  function RaiseOver(h: int, idx: seq<Option<nat>>): (r: int)
    decreases |idx|
  {
    if |idx| == 0 then h
    else RaiseOver(if idx[0].Some? && idx[0].value > h then idx[0].value else h, idx[1..])
  }

  /** The fold ends at its start or at some index of the sequence, and at or above every index in it. */
  lemma {:induction false} RaiseOverIsMax(h: int, idx: seq<Option<nat>>)
    ensures var r := RaiseOver(h, idx);
      && h <= r
      && (r == h || exists j | 0 <= j < |idx| :: idx[j] == Some(r))
      && forall j | 0 <= j < |idx| && idx[j].Some? :: idx[j].value <= r
    decreases |idx|
  {
    if |idx| > 0 {
      var h1 := if idx[0].Some? && idx[0].value > h then idx[0].value else h;
      RaiseOverIsMax(h1, idx[1..]);
      var r := RaiseOver(h, idx);
      if r != h1 {
        var j :| 0 <= j < |idx[1..]| && idx[1..][j] == Some(r);
        assert idx[j + 1] == Some(r);
      }
      forall j | 1 <= j < |idx| && idx[j].Some?
        ensures idx[j].value <= r
      {
        assert idx[j] == idx[1..][j - 1];
      }
    }
  }

  /** The index the current stage shows, when it is truthy and has one. */
  function StartIndex(currentStage: Option<string>): int {
    if Truthy(currentStage) && StageIndex(currentStage.value).Some? then StageIndex(currentStage.value).value else -1
  }

  /** `highestStageIndex`: from the current stage, then from every report; -1 when nothing has an index. */
  function Highest(stages: seq<Stage>, currentStage: Option<string>): (r: int)
    ensures -1 <= r < StageCount
  {
    var idx := Indices(stages);
    RaiseOverIsMax(StartIndex(currentStage), idx);
    RaiseOver(StartIndex(currentStage), idx)
  }

  /** Index `k` is shown to be reached by the current stage or by some report. */
  predicate Reached(k: int, stages: seq<Stage>, currentStage: Option<string>) {
    || (Truthy(currentStage) && StageIndex(currentStage.value) == Some(k))
    || (exists j | 0 <= j < |stages| :: StageIndex(stages[j].name) == Some(k))
  }

  /** `highestStageIndex` is the largest index reached, or -1 when no index is reached. */
  lemma HighestIsMax(stages: seq<Stage>, currentStage: Option<string>)
    ensures var h := Highest(stages, currentStage);
      && (h == -1 <==> forall k :: !Reached(k, stages, currentStage))
      && (h >= 0 ==> Reached(h, stages, currentStage))
      && forall k | Reached(k, stages, currentStage) :: k <= h
  {
    var idx := Indices(stages);
    var start := StartIndex(currentStage);
    RaiseOverIsMax(start, idx);
    var h := Highest(stages, currentStage);
    if h >= 0 {
      if h != start {
        var j :| 0 <= j < |idx| && idx[j] == Some(h);
      }
      assert Reached(h, stages, currentStage);
    }
    forall k | Reached(k, stages, currentStage)
      ensures k <= h
    {
      if !(Truthy(currentStage) && StageIndex(currentStage.value) == Some(k)) {
        var j :| 0 <= j < |stages| && StageIndex(stages[j].name) == Some(k);
        assert idx[j] == Some(k);
      }
    }
  }

  // ---------------------------------------------------------------------------
  // The displayed stages

  /** One displayed stage. */
  datatype Display = Display(name: string, status: string, message: Option<string>)

  /** `stages.find`: the first report whose name is among `names`. */
  function FindReport(stages: seq<Stage>, names: seq<string>): (r: Option<nat>)
    ensures r.Some? ==> r.value < |stages| && stages[r.value].name in names
    ensures r.Some? ==> forall j | 0 <= j < r.value :: stages[j].name !in names
    ensures r.None? ==> forall j | 0 <= j < |stages| :: stages[j].name !in names
    decreases |stages|
  {
    if |stages| == 0 then None
    else if stages[0].name in names then Some(0)
    else
      var r := FindReport(stages[1..], names);
      if r.Some? then
        assert forall j | 1 <= j < r.value + 1 :: stages[j] == stages[1..][j - 1];
        Some(r.value + 1)
      else None
  }

  /** Displayed stage `i`: the first matching report, else completed when passed, else pending. */
  function Merge(i: nat, stages: seq<Stage>, highest: int): (r: Display)
    requires i < StageCount
    ensures r.name == Canonical[i]
  {
    var found := FindReport(stages, MergeNames[i]);
    if found.Some? then Display(Canonical[i], stages[found.value].status, stages[found.value].message)
    else if highest > i then Display(Canonical[i], "completed", None)
    else Display(Canonical[i], "pending", None)
  }

  /** `displayStages`. */
  function DisplayStages(stages: seq<Stage>, currentStage: Option<string>): (r: seq<Display>)
    ensures |r| == StageCount
    ensures forall i | 0 <= i < StageCount :: r[i].name == Canonical[i]
  {
    var h := Highest(stages, currentStage);
    seq(StageCount, i requires 0 <= i < StageCount => Merge(i, stages, h))
  }

  /**
   * A displayed stage adopts the status and message of the first report merged
   * into it; without one it is completed exactly when the verification has got
   * past it, and pending otherwise.
   */
  lemma DisplayedStatus(stages: seq<Stage>, currentStage: Option<string>, i: nat)
    requires i < StageCount
    ensures var d := DisplayStages(stages, currentStage)[i];
      var h := Highest(stages, currentStage);
      && ((exists j | 0 <= j < |stages| :: stages[j].name in MergeNames[i]) ==>
            exists j | 0 <= j < |stages| ::
              && stages[j].name in MergeNames[i]
              && (forall l | 0 <= l < j :: stages[l].name !in MergeNames[i])
              && d.status == stages[j].status && d.message == stages[j].message)
      && ((forall j | 0 <= j < |stages| :: stages[j].name !in MergeNames[i]) ==>
            (d.status == "completed" <==> h > i) && (d.status == "pending" <==> h <= i) && d.message.None?)
  {
    var found := FindReport(stages, MergeNames[i]);
    if found.Some? {
      var j := found.value;
      assert stages[j].name in MergeNames[i];
    }
  }

  /** Consent has no merged names: it never adopts a report and is completed exactly when index 2 or beyond is reached. */
  lemma ConsentNeverAdopts(stages: seq<Stage>, currentStage: Option<string>)
    ensures var d := DisplayStages(stages, currentStage)[1];
      d.message.None? && (d.status == "completed" <==> Highest(stages, currentStage) >= 2)
      && (d.status == "pending" <==> Highest(stages, currentStage) < 2)
  {
    assert MergeNames[1] == [];
    DisplayedStatus(stages, currentStage, 1);
  }

  // ---------------------------------------------------------------------------
  // In progress

  /** `isStageInProgress` for displayed stage `i`. */
  predicate InProgress(i: nat, currentStage: Option<string>)
    requires i < StageCount
  {
    Truthy(currentStage) && (currentStage.value == Canonical[i] || currentStage.value in CurrentNames[i])
  }

  /** The status a displayed stage is drawn with: a pending stage the backend is working on shows in progress. */
  function EffectiveStatus(d: Display, i: nat, currentStage: Option<string>): (r: string)
    requires i < StageCount
    ensures r == "in_progress" <==> d.status == "in_progress" || (d.status == "pending" && InProgress(i, currentStage))
    ensures d.status != "pending" ==> r == d.status
  {
    var processing := d.status == "in_progress" || InProgress(i, currentStage);
    if processing && d.status == "pending" then "in_progress" else d.status
  }

  /** Completed and failed stages are drawn as they are, whatever the current stage. */
  lemma FinalStatusesKept(d: Display, i: nat, currentStage: Option<string>)
    requires i < StageCount && (d.status == "completed" || d.status == "failed")
    ensures EffectiveStatus(d, i, currentStage) == d.status
  {
  }

  // ---------------------------------------------------------------------------
  // The tables agree

  /** The merged-name lists of different stages share no name. */
  lemma MergeNamesDisjoint()
    ensures forall i, j | 0 <= i < j < StageCount ::
      forall x | x in MergeNames[i] :: x !in MergeNames[j]
  {
  }

  /** The index table names each name once, and every name with index `k` is merged into stage `k`. */
  lemma IndexedNamesMerge()
    ensures forall k | 0 <= k < StageCount :: forall x | x in IndexNames[k] :: x in MergeNames[k]
    ensures forall i, j | 0 <= i < j < StageCount :: forall x | x in IndexNames[i] :: x !in IndexNames[j]
  {
    MergeNamesDisjoint();
  }

  /** Three merged names show no progress. */
  lemma NamesWithoutIndex()
    ensures StageIndex("processing").None?
    ensures StageIndex("gov_verification_passed").None?
    ensures StageIndex("fraud_check_passed").None?
  {
    NotIndexed("processing");
    NotIndexed("gov_verification_passed");
    NotIndexed("fraud_check_passed");
  }

  lemma NotIndexed(name: string)
    requires name in {"processing", "gov_verification_passed", "fraud_check_passed"}
    ensures StageIndex(name).None?
  {
    assert name !in IndexNames[0] && name !in IndexNames[1] && name !in IndexNames[2];
    assert name !in IndexNames[3] && name !in IndexNames[4] && name !in IndexNames[5] && name !in IndexNames[6];
  }

  /** When a report's name sets how far the verification has got, the stage at that index adopts a report. */
  lemma HighestStageAdopts(stages: seq<Stage>, currentStage: Option<string>, j: nat)
    requires j < |stages| && StageIndex(stages[j].name) == Some(Highest(stages, currentStage))
    ensures var k := Highest(stages, currentStage);
      exists l | 0 <= l < |stages| :: DisplayStages(stages, currentStage)[k].status == stages[l].status
  {
    var k := Highest(stages, currentStage);
    IndexedNamesMerge();
    assert stages[j].name in MergeNames[k];
    DisplayedStatus(stages, currentStage, k);
  }

  // ---------------------------------------------------------------------------
  // Overall status

  datatype Outcome = Success | Failure | ManualReview | Processing

  /** The footer's classification of the overall status. */
  function Classify(overallStatus: string): (r: Outcome)
    ensures r == Success <==> overallStatus in {"approved", "completed"}
    ensures r == Failure <==> overallStatus in {"rejected", "failed"}
    ensures r == ManualReview <==> overallStatus == "pending_review"
  {
    if overallStatus == "approved" || overallStatus == "completed" then Success
    else if overallStatus == "rejected" || overallStatus == "failed" then Failure
    else if overallStatus == "pending_review" then ManualReview
    else Processing
  }

  /*
   * The four marked texts are kept exactly as the source file spells them:
   * its emoji and check marks were saved in a mis-decoded form, so the page
   * shows these characters rather than the intended symbols.
   */
  const RejectedHeader := "\U{201A}\U{FA}\U{F3} KYC Rejected"
  const SuccessFooter := "\U{F8FF}\U{FC}\U{E9}\U{E2} Verification Successful!"
  const FailureFooter := "\U{201A}\U{F9}\U{E5} Verification Failed"
  const ReviewFooter := "\U{201A}\U{E8}\U{2265} Manual Review Required"

  /** The footer's text: one text per class of the overall status. */
  function FooterText(overallStatus: string): (r: string)
    ensures r == SuccessFooter <==> overallStatus in {"approved", "completed"}
    ensures r == FailureFooter <==> overallStatus in {"rejected", "failed"}
    ensures r == ReviewFooter <==> overallStatus == "pending_review"
  {
    match Classify(overallStatus)
    case Success => SuccessFooter
    case Failure => FailureFooter
    case ManualReview => ReviewFooter
    case Processing => "Processing..."
  }

  /** The header's line under the title, when any of its conditions holds. */
  function HeaderText(overallStatus: string): (r: Option<string>)
    ensures r == Some("Waiting to start...") <==> overallStatus == "idle"
    ensures r == Some(RejectedHeader) <==> overallStatus in {"rejected", "failed"}
    ensures r.None? <==> overallStatus !in {"idle", "in_progress", "processing", "initiated", "documents_uploaded",
                                            "completed", "approved", "rejected", "failed", "pending_review"}
  {
    if overallStatus == "idle" then Some("Waiting to start...")
    else if overallStatus in {"in_progress", "processing", "initiated", "documents_uploaded"} then Some("Verification in progress")
    else if overallStatus in {"completed", "approved"} then Some("Verification complete!")
    else if overallStatus in {"rejected", "failed"} then Some(RejectedHeader)
    else if overallStatus == "pending_review" then Some("Under manual review")
    else None
  }

  /** Every status the footer does not single out is shown as processing, `idle` included. */
  lemma FooterProcessing(overallStatus: string)
    ensures FooterText(overallStatus) == "Processing..." <==> Classify(overallStatus) == Processing
    ensures Classify("idle") == Processing && Classify("in_progress") == Processing
  {
  }
}

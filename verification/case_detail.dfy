/**
 * The case detail dialog: the two-step decision (choose, then confirm or
 * cancel), the colour of each verification and screening result, and the
 * text of the automated recommendation.
 */
module CaseDetail {
  import opened Wrappers
  import opened Text
  import opened ReviewTypes

  /** The dialog's own state: the notes typed so far and the decision awaiting confirmation. */
  datatype Dialog = Dialog(notes: string, confirm: Option<Action>)

  const Fresh := Dialog("", None)

  /** A decision handed to the page: which case, which decision, which notes. */
  datatype Call = Call(caseId: string, action: Action, notes: string)

  datatype Event = Choose(action: Action) | Confirm | Cancel | EditNotes(text: string)

  /** The decision controls are rendered only while the case is still pending. */
  predicate ControlsShown(c: Case) {
    c.status == Pending
  }

  /** `handleAction`: records the decision, but only for a pending case. */
  function HandleAction(c: Case, d: Dialog, a: Action): (r: Dialog)
    ensures c.status == Pending ==> r == d.(confirm := Some(a))
    ensures c.status != Pending ==> r == d
  {
    if c.status != Pending then d else d.(confirm := Some(a))
  }

  /** `executeAction`: hands the recorded decision and the notes over once, then clears both. */
  function ExecuteAction(c: Case, d: Dialog): (r: (Dialog, Option<Call>))
    ensures d.confirm.None? ==> r == (d, None)
    ensures d.confirm.Some? ==> r == (Fresh, Some(Call(c.id, d.confirm.value, d.notes)))
  {
    match d.confirm
    case None => (d, None)
    case Some(a) => (Fresh, Some(Call(c.id, a, d.notes)))
  }

  function Step(c: Case, d: Dialog, e: Event): (r: (Dialog, Option<Call>))
    ensures r.1.Some? ==> e.Confirm? && d.confirm.Some? && r.1.value.action == d.confirm.value
    ensures e.Cancel? ==> r == (d.(confirm := None), None)
  {
    match e
    case Choose(a) => (HandleAction(c, d, a), None)
    case Confirm => ExecuteAction(c, d)
    case Cancel => (d.(confirm := None), None)
    case EditNotes(t) => (d.(notes := t), None)
  }

  function Run(c: Case, d: Dialog, events: seq<Event>): (Dialog, seq<Call>)
    decreases |events|
  {
    if |events| == 0 then (d, [])
    else
      var (d1, call) := Step(c, d, events[0]);
      var (d2, calls) := Run(c, d1, events[1..]);
      (d2, (if call.Some? then [call.value] else []) + calls)
  }

  function Chooses(events: seq<Event>): nat
    decreases |events|
  {
    if |events| == 0 then 0 else (if events[0].Choose? then 1 else 0) + Chooses(events[1..])
  }

  /** Every decision handed over was chosen first: calls never outnumber choices. */
  lemma {:induction false} CallsNeedChoices(c: Case, d: Dialog, events: seq<Event>)
    ensures var (d2, calls) := Run(c, d, events);
      |calls| + (if d2.confirm.Some? then 1 else 0) <= Chooses(events) + (if d.confirm.Some? then 1 else 0)
    decreases |events|
  {
    if |events| > 0 {
      CallsNeedChoices(c, Step(c, d, events[0]).0, events[1..]);
    }
  }

  /** A case already reviewed never produces a decision, whatever is clicked. */
  lemma {:induction false} ReviewedCaseIsFinal(c: Case, d: Dialog, events: seq<Event>)
    requires c.status != Pending && d.confirm.None?
    ensures Run(c, d, events).1 == []
    decreases |events|
  {
    if |events| > 0 {
      ReviewedCaseIsFinal(c, Step(c, d, events[0]).0, events[1..]);
    }
  }

  /** Choose then confirm hands over exactly that decision with the notes typed, and clears the dialog. */
  lemma ChooseThenConfirm(c: Case, notes: string, a: Action)
    requires c.status == Pending
    ensures Run(c, Dialog(notes, None), [Choose(a), Confirm]) == (Fresh, [Call(c.id, a, notes)])
  {
    var d := Dialog(notes, Some(a));
    assert Step(c, Dialog(notes, None), Choose(a)) == (d, None);
    assert Run(c, d, [Confirm]) == (Fresh, [Call(c.id, a, notes)]) by {
      var events := [Confirm];
      assert events[0] == Confirm && events[1..] == [];
      assert Step(c, d, Confirm) == (Fresh, Some(Call(c.id, a, notes)));
      assert Run(c, Fresh, []) == (Fresh, []);
      assert Run(c, d, events).1 == [Call(c.id, a, notes)] + [];
      assert Run(c, d, events).1 == [Call(c.id, a, notes)];
    }
    assert [Choose(a), Confirm][1..] == [Confirm];
    var r := Run(c, Dialog(notes, None), [Choose(a), Confirm]);
    assert r.1 == [] + [Call(c.id, a, notes)];
    assert r.1 == [Call(c.id, a, notes)];
  }

  /** Cancel between choosing and confirming hands nothing over. */
  lemma CancelDiscards(c: Case, d: Dialog, a: Action)
    ensures Run(c, d, [Choose(a), Cancel, Confirm]).1 == []
  {
    var d1 := Step(c, d, Choose(a)).0;
    var d2 := d1.(confirm := None);
    assert Run(c, d2, [Confirm]).1 == [] by {
      assert [Confirm][1..] == [];
    }
    assert Run(c, d1, [Cancel, Confirm]).1 == [] by {
      assert [Cancel, Confirm][1..] == [Confirm];
    }
    assert [Choose(a), Cancel, Confirm][1..] == [Cancel, Confirm];
  }

  // ---------------------------------------------------------------------------
  // Result colours

  datatype Colour = Emerald | Red | Amber

  function VerificationColour(result: string): (r: Colour)
    ensures r == Emerald <==> result == "Pass" || result == "High"
    ensures r == Red <==> result == "Fail" || result == "Low"
  {
    if result == "Pass" || result == "High" then Emerald
    else if result == "Fail" || result == "Low" then Red
    else Amber
  }

  function ScreeningColour(result: string): (r: Colour)
    ensures r == Emerald <==> result == "No Hit" || result == "Clear" || result == "No"
    ensures r == Red <==> result == "Hit" || result == "Yes"
  {
    if result == "No Hit" || result == "Clear" || result == "No" then Emerald
    else if result == "Hit" || result == "Yes" then Red
    else Amber
  }

  /** Unrecognised results are amber in both tables. */
  lemma UnknownResultsAreAmber(result: string)
    requires result !in {"Pass", "High", "Fail", "Low", "No Hit", "Clear", "No", "Hit", "Yes"}
    ensures VerificationColour(result) == Amber && ScreeningColour(result) == Amber
  {
  }

  /** The face-match cell: emerald from 0.75 up, amber below. */
  function FaceMatchColour(confidence: real): (r: Colour)
    ensures r == Amber <==> confidence < 0.75
  {
    if confidence >= 0.75 then Emerald else Amber
  }

  // ---------------------------------------------------------------------------
  // Recommendation text

  const ProceedText := "PROCEED" + " – All verification checks passed with acceptable confidence levels"
  const HoldText := "HOLD" + " – " + "Additional" + " verification required before final decision"
  const RejectText := "REJECT" + " – Multiple risk indicators detected requiring rejection"

  /** The face-match variant; `percent` is the confidence as a whole percentage, formatted outside the model. */
  function FaceMatchHoldText(percent: string): string {
    "HOLD" + " – Face match confidence (" + percent + "%) below auto-approval threshold"
  }

  function RecommendationText(c: Case, percent: string): (r: string)
    ensures c.recommendation == Proceed ==> r == ProceedText
    ensures c.recommendation == RejectCase ==> r == RejectText
    ensures c.recommendation == HoldCase ==>
      r == (if c.faceMatchConfidence < 0.75 then FaceMatchHoldText(percent) else HoldText)
  {
    match c.recommendation
    case Proceed => ProceedText
    case HoldCase => if c.faceMatchConfidence < 0.75 then FaceMatchHoldText(percent) else HoldText
    case RejectCase => RejectText
  }

  /** The face-match variant begins like the generic hold text and then differs. */
  lemma FaceMatchTextShape(percent: string)
    ensures var r := FaceMatchHoldText(percent);
      |r| > 7 && r[..4] == "HOLD" && r[7] == 'F'
  {
    var rest := " – Face match confidence (" + percent + "%) below auto-approval threshold";
    var r := FaceMatchHoldText(percent);
    assert r == "HOLD" + rest;
    assert r[7] == rest[3];
  }

  lemma TextShapes()
    ensures ProceedText[..7] == "PROCEED" && ProceedText[0] == 'P'
    ensures HoldText[..4] == "HOLD" && HoldText[0] == 'H' && HoldText[7] == 'A'
    ensures RejectText[0] == 'R'
  {
    assert HoldText[7] == "Additional"[0];
  }

  /** The text starts with the recommendation's word, so the three verdicts never read alike. */
  lemma RecommendationWord(c: Case, percent: string)
    ensures StartsWith(RecommendationText(c, percent), "HOLD") <==> c.recommendation == HoldCase
    ensures StartsWith(RecommendationText(c, percent), "PROCEED") <==> c.recommendation == Proceed
  {
    var r := RecommendationText(c, percent);
    FaceMatchTextShape(percent);
    TextShapes();
    if c.recommendation == HoldCase {
      assert r[0] == 'H';
    }
  }

  /** On hold, the face-match variant appears exactly when the face-match cell is amber. */
  lemma FaceMatchVariantIffAmber(c: Case, percent: string)
    requires c.recommendation == HoldCase
    ensures RecommendationText(c, percent) != HoldText <==> FaceMatchColour(c.faceMatchConfidence) == Amber
  {
    FaceMatchTextShape(percent);
    TextShapes();
  }
}

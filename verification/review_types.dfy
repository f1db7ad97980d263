/** The records of the compliance review dashboard. */
module ReviewTypes {
  import opened Wrappers

  datatype Status = Pending | Approved | Rejected | Hold

  /** The three decisions a reviewer can take. */
  datatype Action = Approve | Reject | PutOnHold

  datatype Recommendation = Proceed | HoldCase | RejectCase

  /** The status a decision gives a case. */
  function StatusOf(a: Action): (s: Status)
    ensures s != Pending
  {
    match a
    case Approve => Approved
    case Reject => Rejected
    case PutOnHold => Hold
  }

  /** A flagged application, with the fields the dashboard computes with. */
  datatype Case = Case(
    id: string, status: Status, riskScore: real, recommendation: Recommendation,
    faceMatchConfidence: real, reviewedBy: Option<string>, reviewNotes: Option<string>)
}

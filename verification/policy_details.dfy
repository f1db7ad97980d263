/**
 * The policy page's premium and renewal panels: the annual premium for a
 * payment frequency, and how a day count until renewal is shown.
 */
module PolicyDetails {
  import opened Text
  import opened PolicyTypes

  /** Payments in a year at each frequency. */
  function PaymentsPerYear(f: Frequency): (r: nat)
    ensures r == 1 <==> f == Yearly
    ensures r == 12 <==> f == Monthly
  {
    match f
    case Monthly => 12
    case Quarterly => 4
    case Yearly => 1
  }

  /** The premium shown as annual: twelve monthly or four quarterly payments, else the amount itself. */
  function AnnualPremium(f: Frequency, premium: real): (r: real)
    ensures r == premium * PaymentsPerYear(f) as real
    ensures premium >= 0.0 ==> r >= premium
  {
    if f == Monthly then premium * 12.0
    else if f == Quarterly then premium * 4.0
    else premium
  }

  /** The "Renewal Coming Up" card: within the next thirty days, not overdue. */
  predicate RenewalAlert(days: int) {
    days <= 30 && days > 0
  }

  /** The amber highlight on the day count, which also covers overdue policies. */
  predicate Amber(days: int) {
    days <= 30
  }

  /** The day count shown in the dates panel. */
  function DaysLabel(days: int): (r: string)
    ensures days > 0 ==> r == IntToString(days) + " days"
    ensures days <= 0 ==> r == "Due for renewal"
  {
    if days > 0 then IntToString(days) + " days" else "Due for renewal"
  }

  /** The label counts days exactly when the renewal is still ahead. */
  lemma DaysLabelIff(days: int)
    ensures DaysLabel(days) != "Due for renewal" <==> days > 0
  {
    if days > 0 {
      var r := IntToString(days) + " days";
      assert r[|r| - 1] == 's';
      assert "Due for renewal"[14] == 'l';
    }
  }

  /** Every alerted renewal is highlighted; a highlighted one without the alert is overdue and says so. */
  lemma AlertAndHighlight(days: int)
    ensures RenewalAlert(days) ==> Amber(days)
    ensures Amber(days) && !RenewalAlert(days) ==> DaysLabel(days) == "Due for renewal"
    ensures RenewalAlert(days) <==> Amber(days) && DaysLabel(days) != "Due for renewal"
  {
    DaysLabelIff(days);
  }
}

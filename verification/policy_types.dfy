/** The policy records the dashboard and the policy page show. */
module PolicyTypes {

  datatype PolicyStatus = Active | Expired | Pending | Cancelled

  datatype Frequency = Monthly | Quarterly | Yearly

  /** A policy as the dashboard lists it; amounts are exact reals. */
  datatype Summary = Summary(
    id: string, status: PolicyStatus, coverageAmount: real,
    premiumAmount: real, premiumFrequency: Frequency, memberCount: nat)

  /** A person covered by a policy. */
  datatype Member = Member(id: string, firstName: string, lastName: string, isPrimaryMember: bool)
}

/**
 * The banner above the dashboard that asks the user to complete verification:
 * when it shows, which configuration it shows, and what happens for a status
 * the configuration table has no entry for.
 */
module KycBanner {
  import opened Wrappers
  import AuthStore
  import KycTypes
  import KycStore

  /** The parts of a configuration entry that decide what the banner says and offers. */
  datatype Config = Config(title: string, message: string, showAction: bool)

  /** The configuration table, keyed by the three statuses of the user type. */
  function ConfigFor(status: string): (r: Option<Config>)
    ensures r.Some? <==> AuthStore.KnownStatus(status)
  {
    if status == "pending" then
      Some(Config("Complete Your KYC Verification",
        "Verify your identity to unlock all features and ensure secure transactions.", true))
    else if status == "rejected" then
      Some(Config("KYC Verification Failed",
        "Your verification was unsuccessful. Please try again with valid documents.", true))
    else if status == "verified" then
      Some(Config("KYC Verified", "Your identity has been verified successfully.", false))
    else None
  }

  /**
   * What the component renders: nothing, the banner for a configuration entry,
   * or a TypeError from reading the icon of a missing entry.
   */
  datatype View = Nothing | Banner(config: Config) | Crash

  function Render(user: Option<AuthStore.User>, dismissed: bool): (r: View)
    ensures r.Nothing? <==> user.None? || user.value.kycStatus == "verified" || dismissed
    ensures r.Crash? <==> !r.Nothing? && !AuthStore.KnownStatus(user.value.kycStatus)
  {
    if user.None? || user.value.kycStatus == "verified" || dismissed then Nothing
    else
      match ConfigFor(user.value.kycStatus)
      case None => Crash
      case Some(config) => Banner(config)
  }

  /** The "Start Verification" button is offered exactly for pending and rejected users. */
  lemma StartActionShown(user: AuthStore.User)
    ensures var v := Render(Some(user), false);
      v.Banner? && v.config.showAction <==> user.kycStatus == "pending" || user.kycStatus == "rejected"
  {
    var status := user.kycStatus;
    if status == "pending" || status == "rejected" {
      assert status != "verified" by { assert status[0] != 'v'; }
      assert ConfigFor(status).Some? && ConfigFor(status).value.showAction;
    } else if status == "verified" {
      assert Render(Some(user), false).Nothing?;
    } else {
      assert ConfigFor(status).None?;
    }
  }

  /** The component's view of the world: the store's user and its own dismissed flag. */
  datatype BannerState = BannerState(user: Option<AuthStore.User>, dismissed: bool)

  /** The close button, or a change of the store's user. */
  datatype Event = Close | UserChanged(user: Option<AuthStore.User>)

  function Step(b: BannerState, e: Event): (r: BannerState)
    ensures r.dismissed == (b.dismissed || e.Close?)
    ensures r.user == (if e.UserChanged? then e.user else b.user)
  {
    match e
    case Close => b.(dismissed := true)
    case UserChanged(u) => b.(user := u)
  }

  function Run(b: BannerState, events: seq<Event>): BannerState
    decreases |events|
  {
    if |events| == 0 then b else Run(Step(b, events[0]), events[1..])
  }

  /** Dismissal is one-way: once closed, no later events bring the banner back. */
  lemma {:induction false} DismissalIsOneWay(b: BannerState, events: seq<Event>)
    requires b.dismissed
    ensures Run(b, events).dismissed
    ensures Render(Run(b, events).user, Run(b, events).dismissed).Nothing?
    decreases |events|
  {
    if |events| > 0 {
      DismissalIsOneWay(Step(b, events[0]), events[1..]);
    }
  }

  /** The banner can only be hidden for good by a close: other events leave the flag as it was. */
  lemma {:induction false} OnlyCloseDismisses(b: BannerState, events: seq<Event>)
    requires !b.dismissed
    ensures Run(b, events).dismissed <==> exists k | 0 <= k < |events| :: events[k].Close?
    decreases |events|
  {
    if |events| > 0 {
      if events[0].Close? {
        DismissalIsOneWay(Step(b, events[0]), events[1..]);
      } else {
        OnlyCloseDismisses(Step(b, events[0]), events[1..]);
        assert forall k | 1 <= k < |events| :: events[k] == events[1..][k - 1];
      }
    }
  }

  /**
   * A completed verification writes `approved` for the signed-in user; a banner
   * that was not dismissed then reads the icon of a missing entry.
   */
  lemma CompletionCrashesBanner(auth: AuthStore.State, kyc: KycStore.State, p: KycTypes.KycProgress, handle: nat)
    requires auth.user.Some? && p.status == "completed"
    ensures Render(AuthStore.Perform(auth, KycStore.WriteKycStatus("approved")).user, false) == Crash
    ensures KycStore.WriteKycStatus("approved") in KycStore.OnProgress(kyc, p, handle).1
  {
    KycStore.CompletedWritesApproved(kyc, p, handle);
  }
}

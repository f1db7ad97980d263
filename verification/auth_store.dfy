/**
 * The signed-in user, the token and the loading flag, with the store's
 * transitions and the slice it keeps across page loads. The user's KYC status is
 * a plain string because `updateKycStatus` casts whatever it is given.
 */
module AuthStore {
  import opened Wrappers
  import KycTypes
  import KycStore

  datatype User = User(id: string, memberId: string, email: string, firstName: string, lastName: string, kycStatus: string)

  datatype State = State(user: Option<User>, token: Option<string>, isAuthenticated: bool, isLoading: bool)

  /** A fresh store is signed out and still loading. */
  const Initial := State(None, None, false, true)

  /** The statuses the user type allows. */
  predicate KnownStatus(s: string) {
    s == "pending" || s == "verified" || s == "rejected"
  }

  /** The status of a stored user is one the user type allows. */
  predicate Valid(st: State) {
    st.user.Some? ==> KnownStatus(st.user.value.kycStatus)
  }

  function SetAuth(st: State, user: User, token: string): (r: State)
    ensures r.user == Some(user) && r.token == Some(token)
    ensures r.isAuthenticated && !r.isLoading
  {
    State(Some(user), Some(token), true, false)
  }

  function Logout(st: State): (r: State)
    ensures r.user.None? && r.token.None?
    ensures !r.isAuthenticated && !r.isLoading
  {
    State(None, None, false, false)
  }

  /** Writes the status into the stored user, unchecked; with no user there is nothing to write to. */
  function UpdateKycStatus(st: State, kycStatus: string): (r: State)
    ensures st.user.None? ==> r == st
    ensures st.user.Some? ==> r.user == Some(st.user.value.(kycStatus := kycStatus))
    ensures r.token == st.token && r.isAuthenticated == st.isAuthenticated && r.isLoading == st.isLoading
  {
    st.(user := if st.user.Some? then Some(st.user.value.(kycStatus := kycStatus)) else None)
  }

  function SetLoading(st: State, loading: bool): (r: State)
    ensures r == st.(isLoading := loading)
  {
    st.(isLoading := loading)
  }

  /** Signing out forgets everything a sign-in stored. */
  lemma LogoutForgets(st: State, user: User, token: string)
    ensures Logout(SetAuth(st, user, token)) == Logout(st)
    ensures Logout(UpdateKycStatus(st, user.kycStatus)) == Logout(st)
  {
  }

  /** A second write of the same status changes nothing. */
  lemma UpdateKycStatusIdempotent(st: State, kycStatus: string)
    ensures UpdateKycStatus(UpdateKycStatus(st, kycStatus), kycStatus) == UpdateKycStatus(st, kycStatus)
  {
  }

  /** Every transition given an allowed status keeps the stored status allowed. */
  lemma TransitionsKeepValid(st: State, user: User, token: string, kycStatus: string, loading: bool)
    requires Valid(st)
    ensures KnownStatus(user.kycStatus) ==> Valid(SetAuth(st, user, token))
    ensures Valid(Logout(st)) && Valid(SetLoading(st, loading))
    ensures KnownStatus(kycStatus) ==> Valid(UpdateKycStatus(st, kycStatus))
  {
  }

  /** Nothing checks the cast: writing `approved` to a signed-in user leaves the allowed statuses. */
  lemma ApprovedBreaksValid(st: State)
    requires st.user.Some?
    ensures !Valid(UpdateKycStatus(st, "approved"))
  {
  }

  /** What the session store's effects do to this store: only status writes touch it. */
  function Perform(st: State, e: KycStore.Effect): (r: State)
    ensures e.WriteKycStatus? ==> r == UpdateKycStatus(st, e.status)
    ensures !e.WriteKycStatus? ==> r == st
  {
    if e.WriteKycStatus? then UpdateKycStatus(st, e.status) else st
  }

  /** A completed verification reaches this store as the status `approved`, outside the user type. */
  lemma CompletionBreaksValid(auth: State, kyc: KycStore.State, p: KycTypes.KycProgress, handle: nat)
    requires auth.user.Some? && p.status == "completed"
    ensures exists e | e in KycStore.OnProgress(kyc, p, handle).1 :: !Valid(Perform(auth, e))
  {
    KycStore.CompletedWritesApproved(kyc, p, handle);
    var e := KycStore.WriteKycStatus("approved");
    ApprovedBreaksValid(auth);
    assert !Valid(Perform(auth, e));
  }

  // ---------------------------------------------------------------------------
  // Persistence

  /** The part of the state kept across page loads: everything but the loading flag. */
  datatype Saved = Saved(user: Option<User>, token: Option<string>, isAuthenticated: bool)

  function Partialize(st: State): (r: Saved)
    ensures r.user == st.user && r.token == st.token && r.isAuthenticated == st.isAuthenticated
  {
    Saved(st.user, st.token, st.isAuthenticated)
  }

  /** What reading the storage gave: a saved slice, nothing, or an error. */
  datatype Read = Found(saved: Saved) | Empty | ReadFailed

  /**
   * Rehydration merges a saved slice over the current state; on success the
   * callback clears the loading flag, and on a failed read it is handed no
   * state and does nothing.
   */
  function Rehydrate(st: State, read: Read): (r: State)
    ensures read.ReadFailed? ==> r == st
    ensures read.Empty? ==> r == st.(isLoading := false)
    ensures read.Found? ==> Partialize(r) == read.saved && !r.isLoading
  {
    match read
    case Found(saved) => SetLoading(State(saved.user, saved.token, saved.isAuthenticated, st.isLoading), false)
    case Empty => SetLoading(st, false)
    case ReadFailed => st
  }

  /** A page load restores exactly what was saved, and loading is over once it has been read. */
  lemma RehydrateRestores(before: State, loaded: State)
    ensures var r := Rehydrate(loaded, Found(Partialize(before)));
      r == before.(isLoading := false)
    ensures Rehydrate(Initial, Empty) == Logout(Initial)
  {
  }
}

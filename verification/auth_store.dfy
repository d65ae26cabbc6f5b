/**
 The auth store: who is logged in (four nullable identity fields) and whether
 the persisted copy has been read back (`_hasHydrated`), with its three actions.
 */
module AuthStore {
  import opened Optional

  datatype AuthState = AuthState(
    memberId: Option<int>,
    username: Option<string>,
    profileImageUrl: Option<string>,
    realName: Option<string>,
    hasHydrated: bool)

  /**
   The argument of `setAuth`, as it arrives at run time. Its declared type makes
   all four fields non-null, but the login form fills it from an untyped JSON
   response, so any field may be `null` or `undefined` (both `None`).
   */
  datatype AuthData = AuthData(
    memberId: Option<int>,
    username: Option<string>,
    profileImageUrl: Option<string>,
    realName: Option<string>)

  /** Nobody logged in, nothing read back yet. */
  const Initial: AuthState := AuthState(None, None, None, None, false)

  /** Two states with the same four identity fields (the hydration flag may differ). */
  predicate SameIdentityFields(s: AuthState, t: AuthState) {
    s.(hasHydrated := t.hasHydrated) == t
  }

  /** `setAuth(data)`: the four identity fields take the given values, nulls included; the hydration flag is kept. */
  function SetAuth(s: AuthState, d: AuthData): (r: AuthState)
    ensures r.memberId == d.memberId && r.username == d.username
    ensures r.profileImageUrl == d.profileImageUrl && r.realName == d.realName
    ensures r.hasHydrated == s.hasHydrated
  {
    AuthState(d.memberId, d.username, d.profileImageUrl, d.realName, s.hasHydrated)
  }

  /** `resetAuth()`: the four identity fields become null; the hydration flag is kept. */
  function ResetAuth(s: AuthState): (r: AuthState)
    ensures r.memberId.None? && r.username.None? && r.profileImageUrl.None? && r.realName.None?
    ensures r.hasHydrated == s.hasHydrated
    ensures SameIdentityFields(Initial, r)
  {
    s.(memberId := None, username := None, profileImageUrl := None, realName := None)
  }

  /** `setHasHydrated(b)`: only the hydration flag changes, to `b`. */
  function SetHasHydrated(s: AuthState, b: bool): (r: AuthState)
    ensures r.hasHydrated == b
    ensures SameIdentityFields(s, r)
  {
    s.(hasHydrated := b)
  }

  /** The initial state: all four identity fields null, not hydrated. */
  lemma InitialState()
    ensures Initial.memberId.None? && Initial.username.None? && Initial.profileImageUrl.None? && Initial.realName.None?
    ensures !Initial.hasHydrated
  {
  }

  /** Logging in and then out restores the initial identity fields, whatever the state before. */
  lemma SetThenResetRestoresInitialIdentity(s: AuthState, d: AuthData)
    ensures SameIdentityFields(Initial, ResetAuth(SetAuth(s, d)))
    ensures ResetAuth(SetAuth(s, d)) == ResetAuth(s)
  {
  }

  /** The last `setAuth` wins: an earlier identity leaves no trace. */
  lemma SetAuthOverwrites(s: AuthState, d1: AuthData, d2: AuthData)
    ensures SetAuth(SetAuth(s, d1), d2) == SetAuth(s, d2)
  {
  }

  /** Hydration and identity are independent: setting the flag commutes with both identity actions. */
  lemma HydrationCommutes(s: AuthState, d: AuthData, b: bool)
    ensures SetHasHydrated(SetAuth(s, d), b) == SetAuth(SetHasHydrated(s, b), d)
    ensures SetHasHydrated(ResetAuth(s), b) == ResetAuth(SetHasHydrated(s, b))
  {
  }
}

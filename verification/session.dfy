/**
  The navbar's session state and the effect that re-derives it from the
  browser stores on mount and on every pathname change.
 */
module Session {
  import opened Text
  import opened Stores

  /** The three roles the demo selector offers. */
  datatype Role = Freelancer | Business | JobPoster

  /** The string each role is stored and compared as. */
  function Tag(r: Role): (t: string)
    ensures t != ""
  {
    match r
    case Freelancer => "freelancer"
    case Business => "business"
    case JobPoster => "job-poster"
  }

  const DefaultRole: string := Tag(Freelancer)

  /**
    JavaScript's `v || "freelancer"` on a string-or-null: null and the empty
    string are falsy and give the default; every other string is kept.
   */
  function OrFreelancer(v: Option<string>): (t: string)
    ensures t != ""
    ensures v.Some? && v.value != "" ==> t == v.value
    ensures v.None? || v == Some("") ==> t == DefaultRole
  {
    match v
    case Some(s) => if s != "" then s else DefaultRole
    case None => DefaultRole
  }

  /**
    The component's three pieces of state. `userType` holds any string: the
    value read from `localStorage` is cast, not checked, so a stored string
    outside the three roles flows through unchanged.
   */
  datatype NavState = NavState(isAuthenticated: bool, userType: Option<string>, isMenuOpen: bool)

  /** The state before the first effect run. */
  const Initial: NavState := NavState(false, None, false)

  /**
    The effect run on mount and on every pathname change. It sets
    `isAuthenticated` to the OR of the two indicators; only when that is true
    does it also set `userType`, from the stored `user_type` or the default.
   */
  function Resolve(b: Browser, st: NavState): (r: NavState)
    ensures r.isAuthenticated <==> exists i :: Indicates(i, b)
    ensures r.isAuthenticated ==>
              r.userType.Some? && r.userType.value != "" &&
              (b.local.userType.Some? && b.local.userType.value != "" ==> r.userType == b.local.userType) &&
              (b.local.userType.None? || b.local.userType == Some("") ==> r.userType == Some(DefaultRole))
    ensures !r.isAuthenticated ==> r.userType == st.userType
    ensures r.isMenuOpen == st.isMenuOpen
  {
    var hasAuthToken := Contains(CookieString(b.cookies), AuthTokenKey);
    var hasLocalAuth := b.local.authToken == Some("true");
    var st' := st.(isAuthenticated := hasAuthToken || hasLocalAuth);
    assert hasAuthToken ==> Indicates(CookieIndicator, b);
    assert hasLocalAuth ==> Indicates(LocalStorageIndicator, b);
    if hasAuthToken || hasLocalAuth then
      st'.(userType := Some(OrFreelancer(b.local.userType)))
    else
      st'
  }

  /** Either indicator alone is enough to be authenticated. */
  lemma EitherIndicatorSuffices(b: Browser, st: NavState, i: Indicator)
    requires Indicates(i, b)
    ensures Resolve(b, st).isAuthenticated
  {
  }

  /** Running the effect again with no store write in between changes nothing. */
  lemma ResolveIdempotent(b: Browser, st: NavState)
    ensures Resolve(b, Resolve(b, st)) == Resolve(b, st)
  {
  }

  /**
    When the stores report a session, the resolved state depends on the
    stores alone (and the untouched menu flag), not on what came before.
   */
  lemma ResolveForgetsPriorSession(b: Browser, st1: NavState, st2: NavState)
    requires HasSession(b) && st1.isMenuOpen == st2.isMenuOpen
    ensures Resolve(b, st1) == Resolve(b, st2)
  {
  }

  /**
    When neither indicator fires the effect leaves `userType` alone, so a role
    from an earlier session survives next to `isAuthenticated == false`.
   */
  lemma ResolveKeepsStaleRole(b: Browser, role: string)
    requires !HasSession(b)
    ensures Resolve(b, NavState(true, Some(role), false)) == NavState(false, Some(role), false)
  {
  }
}

/**
  The navbar's event handlers that write state: logout, the demo role
  switch, and the mobile-menu flag. Each handler is a pure function from the
  browser stores and the component state to new stores, a new state and the
  one outward effect it requests.
 */
module Mutators {
  import opened Text
  import opened Stores
  import opened Session

  /** What a handler asks of the outside world once it has run. */
  datatype Effect = NoEffect | Navigate(path: string) | Reload

  /** The stores and state after a handler, and the effect it requested. */
  datatype Step = Step(browser: Browser, state: NavState, effect: Effect)

  /**
    The jar after setting `name=; max-age=0`: every cookie of that name is
    gone and every other cookie is kept, in order.
   */
  function ExpireCookie(jar: seq<Cookie>, name: string): (r: seq<Cookie>)
    ensures forall c :: c in r <==> c in jar && c.name != name
    ensures |r| <= |jar|
    decreases |jar|
  {
    if |jar| == 0 then []
    else
      var rest := ExpireCookie(jar[1..], name);
      assert forall c :: c in jar <==> c == jar[0] || c in jar[1..];
      if jar[0].name == name then rest else [jar[0]] + rest
  }

  /** Expiring a cookie that is already gone changes nothing. */
  lemma {:induction false} ExpireCookieIdempotent(jar: seq<Cookie>, name: string)
    ensures ExpireCookie(ExpireCookie(jar, name), name) == ExpireCookie(jar, name)
    decreases |jar|
  {
    if |jar| != 0 {
      ExpireCookieIdempotent(jar[1..], name);
      var rest := ExpireCookie(jar[1..], name);
      if jar[0].name != name {
        assert ([jar[0]] + rest)[1..] == rest;
      }
    }
  }

  /**
    `handleLogout`: expire the `auth_token` cookie, remove both
    `localStorage` keys, set the state to anonymous with no role, and
    navigate to `/`. The menu flag is left as it was.
   */
  function HandleLogout(b: Browser, st: NavState): (r: Step)
    ensures forall c :: c in r.browser.cookies <==> c in b.cookies && c.name != AuthTokenKey
    ensures r.browser.local == LocalStore(None, None)
    ensures !r.state.isAuthenticated && r.state.userType == None
    ensures r.state.isMenuOpen == st.isMenuOpen
    ensures r.effect == Navigate("/")
  {
    Step(
      Browser(ExpireCookie(b.cookies, AuthTokenKey), LocalStore(None, None)),
      st.(isAuthenticated := false, userType := None),
      Navigate("/"))
  }

  /** Logging out a second time reaches the same stores, state and effect. */
  lemma LogoutIdempotent(b: Browser, st: NavState)
    ensures var once := HandleLogout(b, st);
            HandleLogout(once.browser, once.state) == once
  {
    ExpireCookieIdempotent(b.cookies, AuthTokenKey);
  }

  /** No cookie other than the session cookie mentions `auth_token`. */
  predicate NoLookalikes(b: Browser) {
    forall c :: c in b.cookies ==> !Lookalike(c)
  }

  /**
    After logout, with no lookalike cookie, neither indicator fires, so the
    next run of the effect keeps the state anonymous.
   */
  lemma ResolveAfterLogout(b: Browser, st: NavState)
    requires NoLookalikes(b)
    ensures var r := HandleLogout(b, st);
            !HasSession(r.browser) && Resolve(r.browser, r.state) == r.state
  {
    var r := HandleLogout(b, st);
    CookieIndicatorMeaning(r.browser);
  }

  /**
    The cookie test is a substring search over the whole cookie string, while
    logout expires only the cookie named `auth_token`: any lookalike survives
    logout, and the next run of the effect finds the user authenticated
    again, with the default role since `user_type` is gone.
   */
  lemma LookalikeSurvivesLogout(b: Browser, st: NavState, c: Cookie)
    requires c in b.cookies && Lookalike(c)
    ensures var r := HandleLogout(b, st);
            !r.state.isAuthenticated && HasSession(r.browser) &&
            Resolve(r.browser, r.state) == r.state.(isAuthenticated := true, userType := Some(DefaultRole))
  {
    var r := HandleLogout(b, st);
    assert c in r.browser.cookies;
    CookieIndicatorMeaning(r.browser);
  }

  /** A cookie named `old_auth_token` is such a lookalike. */
  lemma OldTokenIsLookalike()
    ensures Lookalike(Cookie("old_auth_token", "1"))
  {
    assert "old_" + AuthTokenKey == "old_auth_token";
    assert StartsWith(AuthTokenKey, AuthTokenKey);
    ContainsAppendLeft("old_", AuthTokenKey, AuthTokenKey);
  }

  /**
    `setDemoUserType`: store the role under `user_type`, set it in the
    state, and request a full page reload. Neither authentication flag is
    touched.
   */
  function SetDemoUserType(b: Browser, st: NavState, role: Role): (r: Step)
    ensures r.browser.cookies == b.cookies
    ensures r.browser.local.authToken == b.local.authToken
    ensures r.browser.local.userType == Some(Tag(role))
    ensures r.state.userType == Some(Tag(role))
    ensures r.state.isAuthenticated == st.isAuthenticated && r.state.isMenuOpen == st.isMenuOpen
    ensures r.effect == Reload
  {
    Step(b.(local := b.local.(userType := Some(Tag(role)))), st.(userType := Some(Tag(role))), Reload)
  }

  /**
    The role switch never changes whether there is a session: the next run
    of the effect decides `isAuthenticated` exactly as it would have before,
    and when authenticated it reads back the chosen role.
   */
  lemma DemoSwitchThenResolve(b: Browser, st: NavState, role: Role)
    ensures var r := SetDemoUserType(b, st, role);
            HasSession(r.browser) == HasSession(b) &&
            Resolve(r.browser, r.state).isAuthenticated == Resolve(b, st).isAuthenticated &&
            (HasSession(b) ==> Resolve(r.browser, r.state).userType == Some(Tag(role)))
  {
  }

  /** The menu button: flip `isMenuOpen`, nothing else. */
  function ToggleMenu(st: NavState): (r: NavState)
    ensures r.isMenuOpen != st.isMenuOpen
    ensures r.isAuthenticated == st.isAuthenticated && r.userType == st.userType
  {
    st.(isMenuOpen := !st.isMenuOpen)
  }

  /** Pressing the menu button twice restores the state. */
  lemma ToggleTwice(st: NavState)
    ensures ToggleMenu(ToggleMenu(st)) == st
  {
  }

  /** The `setIsMenuOpen(false)` every mobile control runs. */
  function CloseMenu(st: NavState): (r: NavState)
    ensures !r.isMenuOpen
    ensures r.isAuthenticated == st.isAuthenticated && r.userType == st.userType
  {
    st.(isMenuOpen := false)
  }
}

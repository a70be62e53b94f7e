/**
  The `Navbar` component as a state machine: the events its rendered
  controls and its pathname effect produce, the handler each event runs, and
  the invariants that hold over any sequence of events.
 */
module Navbar {
  import Text
  import opened Stores
  import opened Session
  import opened Visibility
  import opened Mutators

  /** Everything the component observes or owns between two events. */
  datatype Config = Config(browser: Browser, state: NavState)

  /**
    The events of the component. `RouteEffect` is the effect run on mount
    and whenever the pathname changes; the others are activations of a
    rendered control.
   */
  datatype Event =
    | RouteEffect
    | LogoClick
    | MenuToggle
    | DesktopLinkClick(item: NavItem)
    | MobileLinkClick(item: NavItem)
    | DesktopActionClick(action: Action)
    | MobileActionClick(action: Action)
    | DemoRoleSelect(role: Role)

  /** Events raised by a control inside the mobile menu. */
  predicate IsMobile(ev: Event) {
    ev.MobileLinkClick? || ev.MobileActionClick?
  }

  /** Activations of a Logout button. */
  predicate IsLogout(ev: Event) {
    (ev.DesktopActionClick? || ev.MobileActionClick?) && ev.action == Logout
  }

  /**
    Whether the control behind `ev` is rendered in `st`: a link or action is
    clickable only when the decision table shows it, and mobile controls
    only while the menu is open. The selector's `onChange` fires only when
    the chosen role differs from its current `value`.
   */
  predicate Enabled(st: NavState, ev: Event) {
    match ev
    case RouteEffect => true
    case LogoClick => true
    case MenuToggle => true
    case DesktopLinkClick(item) => item in DesktopItems(st.isAuthenticated, st.userType)
    case MobileLinkClick(item) => item in MenuItems(st)
    case DesktopActionClick(a) => a in ActionCluster(st, Desktop) && a != DemoSelector
    case MobileActionClick(a) => st.isMenuOpen && a in ActionCluster(st, Mobile)
    case DemoRoleSelect(role) => DemoSelector in ActionCluster(st, Desktop) && Tag(role) != SelectorValue(st)
  }

  /** Following a call-to-action link; Logout and the selector are not links. */
  function Follow(a: Action): (e: Effect)
    ensures e != Reload
    ensures e == NoEffect <==> a == Logout || a == DemoSelector
    ensures e.Navigate? ==> ActionTarget(a) == Some(e.path)
  {
    match ActionTarget(a)
    case Some(path) => Navigate(path)
    case None => NoEffect
  }

  /**
    One event. The brand logo and a desktop link only navigate; every mobile control also runs
    `setIsMenuOpen(false)`, the mobile Logout after `handleLogout`. An event
    whose control is not rendered does nothing.
   */
  function Dispatch(b: Browser, st: NavState, ev: Event): (r: Step)
    ensures !Enabled(st, ev) ==> r == Step(b, st, NoEffect)
    ensures Enabled(st, ev) && IsMobile(ev) ==> !r.state.isMenuOpen
    ensures r.state.isAuthenticated && !st.isAuthenticated ==> ev == RouteEffect
    ensures !r.state.isAuthenticated && st.isAuthenticated ==> ev == RouteEffect || IsLogout(ev)
    ensures r.browser != b ==> Enabled(st, ev) && (IsLogout(ev) || ev.DemoRoleSelect?)
    ensures r.effect == Reload <==> Enabled(st, ev) && ev.DemoRoleSelect?
    ensures Enabled(st, ev) && IsLogout(ev) ==> r.effect == Navigate("/")
  {
    if !Enabled(st, ev) then Step(b, st, NoEffect)
    else
      match ev
      case RouteEffect => Step(b, Resolve(b, st), NoEffect)
      case LogoClick => Step(b, st, Navigate("/"))
      case MenuToggle => Step(b, ToggleMenu(st), NoEffect)
      case DesktopLinkClick(item) => Step(b, st, Navigate(Href(item)))
      case MobileLinkClick(item) => Step(b, CloseMenu(st), Navigate(Href(item)))
      case DesktopActionClick(a) =>
        if a == Logout then HandleLogout(b, st) else Step(b, st, Follow(a))
      case MobileActionClick(a) =>
        if a == Logout then
          var s := HandleLogout(b, st);
          s.(state := CloseMenu(s.state))
        else
          Step(b, CloseMenu(st), Follow(a))
      case DemoRoleSelect(role) => SetDemoUserType(b, st, role)
  }

  /** The configuration after a sequence of events. */
  function Run(c: Config, evs: seq<Event>): (e: Config)
    decreases |evs|
  {
    if |evs| == 0 then c
    else
      var s := Dispatch(c.browser, c.state, evs[0]);
      Run(Config(s.browser, s.state), evs[1..])
  }

  // ---------------------------------------------------------------------
  // Invariant 1: an authenticated state always carries a non-empty role.

  predicate WellFormed(st: NavState) {
    st.isAuthenticated ==> st.userType.Some? && st.userType.value != ""
  }

  lemma DispatchPreservesWellFormed(b: Browser, st: NavState, ev: Event)
    requires WellFormed(st)
    ensures WellFormed(Dispatch(b, st, ev).state)
  {
  }

  lemma {:induction false} RunPreservesWellFormed(c: Config, evs: seq<Event>)
    requires WellFormed(c.state)
    ensures WellFormed(Run(c, evs).state)
    decreases |evs|
  {
    if |evs| != 0 {
      var s := Dispatch(c.browser, c.state, evs[0]);
      DispatchPreservesWellFormed(c.browser, c.state, evs[0]);
      RunPreservesWellFormed(Config(s.browser, s.state), evs[1..]);
    }
  }

  /**
    Along any run from the initial state, the demo selector shows the
    current role itself: its `|| "freelancer"` fallback never applies.
   */
  lemma SelectorShowsRole(b: Browser, evs: seq<Event>)
    ensures var st := Run(Config(b, Initial), evs).state;
            st.isAuthenticated ==> Some(SelectorValue(st)) == st.userType
  {
    RunPreservesWellFormed(Config(b, Initial), evs);
  }

  // ---------------------------------------------------------------------
  // Invariant 2: the state agrees with what the stores say.

  /** The state is what running the effect on `b` would produce. */
  predicate Synced(b: Browser, st: NavState) {
    && st.isAuthenticated == HasSession(b)
    && (st.isAuthenticated ==> st.userType == Some(OrFreelancer(b.local.userType)))
  }

  /** Running the effect brings the state in line with the stores. */
  lemma ResolveSyncs(b: Browser, st: NavState)
    ensures Synced(b, Resolve(b, st))
  {
  }

  /** A pathname change with no store write in between changes nothing. */
  lemma RouteChangeKeepsSyncedState(b: Browser, st: NavState)
    requires Synced(b, st)
    ensures Dispatch(b, st, RouteEffect) == Step(b, st, NoEffect)
  {
  }

  lemma DispatchPreservesSynced(b: Browser, st: NavState, ev: Event)
    requires Synced(b, st) && NoLookalikes(b)
    ensures var r := Dispatch(b, st, ev);
            Synced(r.browser, r.state) && NoLookalikes(r.browser)
  {
    if Enabled(st, ev) && IsLogout(ev) {
      ResolveAfterLogout(b, st);
    }
  }

  /**
    Without lookalike cookies, every handler leaves the state exactly where
    a fresh read of the stores would put it: the bar never shows a session
    the stores no longer hold, nor hides one they do.
   */
  lemma {:induction false} RunPreservesSynced(c: Config, evs: seq<Event>)
    requires Synced(c.browser, c.state) && NoLookalikes(c.browser)
    ensures var e := Run(c, evs);
            Synced(e.browser, e.state) && NoLookalikes(e.browser)
    decreases |evs|
  {
    if |evs| != 0 {
      var s := Dispatch(c.browser, c.state, evs[0]);
      DispatchPreservesSynced(c.browser, c.state, evs[0]);
      RunPreservesSynced(Config(s.browser, s.state), evs[1..]);
    }
  }

  // ---------------------------------------------------------------------
  // Scenarios.

  /** Only the `localStorage` flag, with the role `business`. */
  lemma LocalFlagBusinessScenario()
    ensures var b := Browser([], LocalStore(Some("true"), Some("business")));
            var st := Resolve(b, Initial);
            st == NavState(true, Some("business"), false) &&
            DesktopItems(st.isAuthenticated, st.userType) == [Dashboard, Marketplace, SearchTalent, HireTalent] &&
            ActionCluster(st, Desktop) == [MyProfile, Logout, DemoSelector]
  {
  }

  /** Neither flag: anonymous. */
  lemma NoFlagsScenario()
    ensures var b := Browser([], LocalStore(None, None));
            var st := Resolve(b, Initial);
            st == Initial &&
            DesktopItems(st.isAuthenticated, st.userType) == [Home, ForBusiness, AboutUs] &&
            ActionCluster(st, Desktop) == [ConnectWallet, Login, Register]
  {
    EmptyCookieStringIsAnonymous();
  }

  /** The session cookie alone, no stored role: the default role, no gated links. */
  lemma CookieOnlyScenario(value: string)
    ensures var b := Browser([Cookie(AuthTokenKey, value)], LocalStore(None, None));
            var st := Resolve(b, Initial);
            st == NavState(true, Some(DefaultRole), false) &&
            DesktopItems(st.isAuthenticated, st.userType) == [Dashboard, Marketplace, SearchTalent]
  {
    var b := Browser([Cookie(AuthTokenKey, value)], LocalStore(None, None));
    CookieIndicatorMeaning(b);
    assert Cookie(AuthTokenKey, value) in b.cookies;
  }

  lemma EmptyCookieStringIsAnonymous()
    ensures !Indicates(CookieIndicator, Browser([], LocalStore(None, None)))
  {
    Text.EmptyContainsNothing(AuthTokenKey);
  }
}

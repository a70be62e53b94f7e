/**
  The navbar's decision table: which links and which call-to-action controls
  are rendered for a given `(isAuthenticated, userType)`, on the desktop bar
  and in the mobile menu, and which desktop link is highlighted.
 */
module Visibility {
  import opened Stores
  import opened Session

  /** The fixed catalogue of navigation links. */
  datatype NavItem =
    | Home | ForBusiness | AboutUs
    | Dashboard | Marketplace | SearchTalent
    | PostJob | HireTalent

  /** The text of a link. */
  function Label(item: NavItem): (s: string)
    ensures s != ""
  {
    match item
    case Home => "Home"
    case ForBusiness => "For Business"
    case AboutUs => "About Us"
    case Dashboard => "Dashboard"
    case Marketplace => "Marketplace"
    case SearchTalent => "Search Talent"
    case PostJob => "Post Job"
    case HireTalent => "Hire Talent"
  }

  /** Distinct links carry distinct texts. */
  lemma LabelInjective(x: NavItem, y: NavItem)
    requires Label(x) == Label(y)
    ensures x == y
  {
  }

  /** The target of a link: a site-absolute path. */
  function Href(item: NavItem): (s: string)
    ensures 0 < |s| && s[0] == '/'
  {
    match item
    case Home => "/"
    case ForBusiness => "/for-business"
    case AboutUs => "/about"
    case Dashboard => "/dashboard"
    case Marketplace => "/marketplace"
    case SearchTalent => "/talent"
    case PostJob => "/dashboard/post-job"
    case HireTalent => "/hire-talent"
  }

  /** No two links share a target, so a pathname picks out at most one. */
  lemma HrefInjective(x: NavItem, y: NavItem)
    requires Href(x) == Href(y)
    ensures x == y
  {
  }

  const AnonymousItems: seq<NavItem> := [Home, ForBusiness, AboutUs]
  const MemberItems: seq<NavItem> := [Dashboard, Marketplace, SearchTalent]

  /**
    The desktop `<nav>`: one block guarded by `!isAuthenticated`, one by
    `isAuthenticated`; inside the second, Post Job is guarded by
    `userType === "job-poster"` and Hire Talent by `userType === "business"`.
   */
  function DesktopItems(isAuthenticated: bool, userType: Option<string>): (r: seq<NavItem>)
    ensures !isAuthenticated ==> r == AnonymousItems
    ensures isAuthenticated ==> 3 <= |r| <= 4 && r[..3] == MemberItems
    ensures isAuthenticated ==> |r| == 3 + (if PostJob in r then 1 else 0) + (if HireTalent in r then 1 else 0)
    ensures PostJob in r <==> isAuthenticated && userType == Some(Tag(JobPoster))
    ensures HireTalent in r <==> isAuthenticated && userType == Some(Tag(Business))
    ensures !(PostJob in r && HireTalent in r)
  {
    (if !isAuthenticated then AnonymousItems else [])
    + (if isAuthenticated then
         MemberItems
         + (if userType == Some(Tag(JobPoster)) then [PostJob] else [])
         + (if userType == Some(Tag(Business)) then [HireTalent] else [])
       else [])
  }

  /**
    The mobile menu's link list: a single `!isAuthenticated ? … : …` choice,
    with the same role guards in the authenticated branch.
   */
  function MobileItems(isAuthenticated: bool, userType: Option<string>): (r: seq<NavItem>)
    ensures !isAuthenticated ==> r == AnonymousItems
    ensures isAuthenticated ==> 3 <= |r| <= 4 && r[..3] == MemberItems
    ensures isAuthenticated ==> |r| == 3 + (if PostJob in r then 1 else 0) + (if HireTalent in r then 1 else 0)
    ensures PostJob in r <==> isAuthenticated && userType == Some(Tag(JobPoster))
    ensures HireTalent in r <==> isAuthenticated && userType == Some(Tag(Business))
  {
    if !isAuthenticated then
      [Home, ForBusiness, AboutUs]
    else
      [Dashboard, Marketplace, SearchTalent]
      + (if userType == Some(Tag(JobPoster)) then [PostJob] else [])
      + (if userType == Some(Tag(Business)) then [HireTalent] else [])
  }

  /** The links the mobile menu renders: none while it is closed. */
  function MenuItems(st: NavState): (r: seq<NavItem>)
    ensures !st.isMenuOpen ==> r == []
  {
    if st.isMenuOpen then MobileItems(st.isAuthenticated, st.userType) else []
  }

  /** An open mobile menu lists exactly the desktop links, in the same order. */
  lemma MobileMatchesDesktop(st: NavState)
    requires st.isMenuOpen
    ensures MenuItems(st) == DesktopItems(st.isAuthenticated, st.userType)
  {
  }

  // An independent reading of the decision table: the catalogue in
  // declaration order, each entry with its own visibility condition.

  const Catalog: seq<NavItem> :=
    [Home, ForBusiness, AboutUs, Dashboard, Marketplace, SearchTalent, PostJob, HireTalent]

  predicate VisibleWhen(item: NavItem, isAuthenticated: bool, userType: Option<string>) {
    match item
    case Home | ForBusiness | AboutUs => !isAuthenticated
    case Dashboard | Marketplace | SearchTalent => isAuthenticated
    case PostJob => isAuthenticated && userType == Some(Tag(JobPoster))
    case HireTalent => isAuthenticated && userType == Some(Tag(Business))
  }

  /** The entries of `items` whose condition holds, in their original order. */
  function Select(items: seq<NavItem>, isAuthenticated: bool, userType: Option<string>): (r: seq<NavItem>)
    ensures |r| <= |items|
    decreases |items|
  {
    if |items| == 0 then []
    else
      var rest := Select(items[1..], isAuthenticated, userType);
      if VisibleWhen(items[0], isAuthenticated, userType) then [items[0]] + rest else rest
  }

  /** `Select` keeps exactly the entries whose condition holds. */
  lemma {:induction false} SelectMembers(items: seq<NavItem>, isAuthenticated: bool, userType: Option<string>, x: NavItem)
    ensures x in Select(items, isAuthenticated, userType) <==> x in items && VisibleWhen(x, isAuthenticated, userType)
    decreases |items|
  {
    if |items| != 0 {
      assert x in items <==> x == items[0] || x in items[1..];
      SelectMembers(items[1..], isAuthenticated, userType, x);
    }
  }

  /** `Select` distributes over concatenation. */
  lemma {:induction false} SelectAppend(a: seq<NavItem>, b: seq<NavItem>, isAuthenticated: bool, userType: Option<string>)
    ensures Select(a + b, isAuthenticated, userType)
         == Select(a, isAuthenticated, userType) + Select(b, isAuthenticated, userType)
    decreases |a|
  {
    if |a| == 0 {
      assert a + b == b;
    } else {
      assert (a + b)[0] == a[0];
      assert (a + b)[1..] == a[1..] + b;
      SelectAppend(a[1..], b, isAuthenticated, userType);
    }
  }

  /** A block whose entries share one condition is kept or dropped whole. */
  lemma {:induction false} SelectUniform(items: seq<NavItem>, isAuthenticated: bool, userType: Option<string>, keep: bool)
    requires forall x :: x in items ==> (VisibleWhen(x, isAuthenticated, userType) <==> keep)
    ensures Select(items, isAuthenticated, userType) == if keep then items else []
    decreases |items|
  {
    if |items| != 0 {
      assert items[0] in items;
      assert forall x :: x in items[1..] ==> x in items;
      SelectUniform(items[1..], isAuthenticated, userType, keep);
      if keep {
        assert [items[0]] + items[1..] == items;
      }
    }
  }

  /** Filtering the catalogue filters its three blocks separately. */
  lemma SelectCatalogBlocks(isAuthenticated: bool, userType: Option<string>)
    ensures Select(Catalog, isAuthenticated, userType)
         == Select(AnonymousItems + MemberItems, isAuthenticated, userType)
          + Select([PostJob], isAuthenticated, userType)
          + Select([HireTalent], isAuthenticated, userType)
  {
    var head := AnonymousItems + MemberItems;
    assert Catalog == head + [PostJob] + [HireTalent];
    SelectAppend(head + [PostJob], [HireTalent], isAuthenticated, userType);
    SelectAppend(head, [PostJob], isAuthenticated, userType);
  }

  /** Of the two unconditional blocks exactly one survives. */
  lemma SelectFixedBlocks(isAuthenticated: bool, userType: Option<string>)
    ensures Select(AnonymousItems + MemberItems, isAuthenticated, userType)
         == if isAuthenticated then MemberItems else AnonymousItems
  {
    SelectAppend(AnonymousItems, MemberItems, isAuthenticated, userType);
    SelectUniform(AnonymousItems, isAuthenticated, userType, !isAuthenticated);
    SelectUniform(MemberItems, isAuthenticated, userType, isAuthenticated);
  }

  /** The desktop links are exactly the catalogue filtered by its table. */
  lemma DesktopMatchesCatalog(isAuthenticated: bool, userType: Option<string>)
    ensures DesktopItems(isAuthenticated, userType) == Select(Catalog, isAuthenticated, userType)
  {
    var a, u := isAuthenticated, userType;
    SelectCatalogBlocks(a, u);
    SelectFixedBlocks(a, u);
    SelectUniform([PostJob], a, u, a && u == Some(Tag(JobPoster)));
    SelectUniform([HireTalent], a, u, a && u == Some(Tag(Business)));
  }

  /** No link appears twice in the desktop bar. */
  lemma DesktopItemsDistinct(isAuthenticated: bool, userType: Option<string>)
    ensures var r := DesktopItems(isAuthenticated, userType);
            forall i, j :: 0 <= i < j < |r| ==> r[i] != r[j]
  {
  }

  /** A desktop link as rendered: its item and whether it is highlighted. */
  datatype DesktopLink = DesktopLink(item: NavItem, active: bool)

  /**
    The desktop links with highlighting: each is styled as active exactly
    when the current pathname equals its href.
   */
  function DesktopLinks(isAuthenticated: bool, userType: Option<string>, pathname: string): (r: seq<DesktopLink>)
    ensures var items := DesktopItems(isAuthenticated, userType);
            |r| == |items| &&
            forall k :: 0 <= k < |r| ==> r[k].item == items[k] && (r[k].active <==> pathname == Href(items[k]))
  {
    var items := DesktopItems(isAuthenticated, userType);
    seq(|items|, k requires 0 <= k < |items| => DesktopLink(items[k], pathname == Href(items[k])))
  }

  /** At most one desktop link is highlighted, whatever the pathname. */
  lemma AtMostOneActive(isAuthenticated: bool, userType: Option<string>, pathname: string)
    ensures var r := DesktopLinks(isAuthenticated, userType, pathname);
            forall i, j :: 0 <= i < |r| && 0 <= j < |r| && r[i].active && r[j].active ==> i == j
  {
    var r := DesktopLinks(isAuthenticated, userType, pathname);
    var items := DesktopItems(isAuthenticated, userType);
    DesktopItemsDistinct(isAuthenticated, userType);
    forall i, j | 0 <= i < |r| && 0 <= j < |r| && r[i].active && r[j].active
      ensures i == j
    {
      HrefInjective(items[i], items[j]);
    }
  }

  /** The call-to-action controls beside the links. */
  datatype Action = ConnectWallet | Login | Register | MyProfile | Logout | DemoSelector

  /** Where a control links to; Logout and the selector are not links. */
  function ActionTarget(a: Action): (t: Option<string>)
    ensures t.None? <==> a == Logout || a == DemoSelector
    ensures t.Some? ==> 1 < |t.value| && t.value[0] == '/'
  {
    match a
    case ConnectWallet => Some("/connect-wallet")
    case Login => Some("/login")
    case Register => Some("/register")
    case MyProfile => Some("/dashboard/profile")
    case Logout => None
    case DemoSelector => None
  }

  /** The four call-to-action links lead to four different pages. */
  lemma ActionTargetInjective(x: Action, y: Action)
    requires ActionTarget(x).Some? && ActionTarget(x) == ActionTarget(y)
    ensures x == y
  {
  }

  /** The desktop bar and the mobile menu render the cluster differently. */
  datatype Surface = Desktop | Mobile

  /**
    The action cluster: the anonymous trio, or My Profile and Logout, with
    the demo role selector after them on the desktop bar only.
   */
  function ActionCluster(st: NavState, surface: Surface): (r: seq<Action>)
    ensures !st.isAuthenticated ==> r == [ConnectWallet, Login, Register]
    ensures st.isAuthenticated ==> 2 <= |r| && r[..2] == [MyProfile, Logout]
    ensures st.isAuthenticated ==> |r| == if surface == Desktop then 3 else 2
    ensures DemoSelector in r <==> st.isAuthenticated && surface == Desktop
    ensures Logout in r <==> st.isAuthenticated
  {
    if !st.isAuthenticated then
      [ConnectWallet, Login, Register]
    else
      [MyProfile, Logout] + (if surface == Desktop then [DemoSelector] else [])
  }

  /** The cluster is chosen by `isAuthenticated` alone, never by the role. */
  lemma ActionClusterIgnoresRole(st1: NavState, st2: NavState, surface: Surface)
    requires st1.isAuthenticated == st2.isAuthenticated
    ensures ActionCluster(st1, surface) == ActionCluster(st2, surface)
  {
  }

  /** The selector's `value` prop: `userType`, or the default when it is null or empty. */
  function SelectorValue(st: NavState): (v: string)
    ensures v != ""
    ensures st.userType.None? ==> v == Tag(Freelancer)
    ensures st.userType == Some("") ==> v == Tag(Freelancer)
    ensures st.userType.Some? && st.userType.value != "" ==> v == st.userType.value
  {
    OrFreelancer(st.userType)
  }
}

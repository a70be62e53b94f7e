# NexaWork navbar: session and visibility model

This project models the logic of the `Navbar` component in
`src/components/navbar.tsx`, the top navigation bar of the NexaWork web
application. The component does four things:

1. **Resolve the session.** The effect runs on mount and on every pathname
   change. It reads two indicators: the cookie string contains `auth_token`,
   or `localStorage.auth_token` is exactly `"true"`. It ORs them into
   `isAuthenticated`. When that is true, it sets `userType` to the stored
   `user_type`, or to `"freelancer"` when the stored value is missing or empty.
2. **Map the session onto what is shown.** This is a fixed decision table.
   Anonymous users see Home, For Business and About Us. Authenticated users see
   Dashboard, Marketplace and Search Talent, plus Post Job for `job-poster` and
   Hire Talent for `business`. Beside the links sits an action cluster chosen by
   `isAuthenticated` alone. The desktop bar adds the demo role selector. A
   desktop link is highlighted when the pathname equals its href.
3. **Handle the mutators.** `handleLogout` clears the cookie and both
   `localStorage` keys, makes the state anonymous and navigates to `/`.
   `setDemoUserType` stores a role and requests a full page reload.
4. **Drive the mobile menu flag.** The menu button flips `isMenuOpen`. Every
   control inside the mobile menu clears it.

Everything is pure. The browser stores are a value: `Browser`, made of a
cookie jar and the two `localStorage` keys. The component state is a value:
`NavState`, holding `isAuthenticated`, `userType` and `isMenuOpen`. Each
handler is a function that returns new stores, a new state and one requested
effect: navigate to a path, or reload. `Navbar.Dispatch` ties the handlers to
the events that the rendered controls and the pathname effect raise.
`Navbar.Run` folds a sequence of events.

Modules, in dependency order:

- `Text` (`text.dfy`): substring search, the model of `String.prototype.includes`.
- `Stores` (`stores.dfy`): cookies, the `document.cookie` string, `localStorage`,
  and the two indicators.
- `Session` (`session.dfy`): roles, `NavState`, and the resolve effect.
- `Visibility` (`visibility.dfy`): the link and action decision table, and highlighting.
- `Mutators` (`mutators.dfy`): logout, the demo role switch, and the menu flag.
- `Navbar` (`navbar.dfy`): events, dispatch, runs, and the invariants over runs.

## Behaviour the code has and a plain reading might not expect

- **Stale role.** When no indicator fires, the effect sets `isAuthenticated`
  to false but does not touch `userType`. A role from an earlier session can
  therefore remain in state (`Session.ResolveKeepsStaleRole`). It is never
  shown, because the role-gated links sit inside the authenticated block
  (`Visibility.DesktopItems`). A design that resets the role to absent when
  unauthenticated would differ here. The model follows the code.
- **Unchecked role.** The stored role is cast, not checked. Any non-empty
  string, for example `"admin"`, becomes `userType`, and the user then sees
  only the three base links. The model keeps `userType` as an arbitrary string
  for this reason.
- **Cookie test by substring.** The cookie test searches the whole cookie
  string for `auth_token`. A cookie that merely mentions it counts as a
  session, for example one named `old_auth_token`. Logout expires only the
  cookie named `auth_token`, so such a lookalike survives logout. The next
  resolve then finds the user authenticated again, with the default role
  (`Mutators.LookalikeSurvivesLogout`, `Mutators.OldTokenIsLookalike`). The
  logout properties that need it assume there are no lookalikes
  (`Mutators.NoLookalikes`).

## Model

| member | source | states |
|---|---|---|
| `Text.ContainsIffOccurs` | src/components/navbar.tsx:20 | the recursive substring test used for `includes` holds exactly when the pattern occurs at some index |
| `Stores.CookieStringMentions` | src/components/navbar.tsx:20 | for a pattern without `=`, `;` or space, searching the joined `document.cookie` string finds it iff some single cookie's name or value contains it |
| `Stores.CookieIndicatorMeaning` | src/components/navbar.tsx:20 | the cookie indicator fires iff some cookie mentions `auth_token`: the cookie named `auth_token` or any lookalike |
| `Session.Resolve` | src/components/navbar.tsx:18-37 | `isAuthenticated` is the OR of the two indicators (`Stores.Indicates`: the cookie string contains `auth_token`, or `localStorage.auth_token` is `"true"`); when it is true, `userType` is the stored role if present and non-empty, else `"freelancer"`; when it is false, `userType` is left as it was; the menu flag is untouched |
| `Session.Tag` | src/components/navbar.tsx:235-237 | each role is stored and compared as a non-empty string |
| `Session.OrFreelancer` | src/components/navbar.tsx:35 | `v \|\| "freelancer"`: never empty; keeps any non-empty stored string; a missing or empty value gives `"freelancer"` |
| `Session.EitherIndicatorSuffices` | src/components/navbar.tsx:25-26 | either indicator alone makes the resolved state authenticated |
| `Session.ResolveIdempotent` | src/components/navbar.tsx:18-37 | resolving twice with no store write in between gives the same state as resolving once |
| `Session.ResolveForgetsPriorSession` | src/components/navbar.tsx:29-36 | when the stores report a session, the resolved state does not depend on the prior state, except for the untouched menu flag |
| `Session.ResolveKeepsStaleRole` | src/components/navbar.tsx:29-36 | when no indicator fires, a previous role survives next to `isAuthenticated == false` |
| `Visibility.DesktopItems` | src/components/navbar.tsx:69-165 | anonymous users get exactly Home, For Business, About Us; authenticated users get Dashboard, Marketplace, Search Talent, then nothing but the gated links that apply; Post Job iff authenticated with `job-poster`; Hire Talent iff authenticated with `business`; never both gated links |
| `Visibility.DesktopMatchesCatalog` | src/components/navbar.tsx:69-165 | the desktop link list equals the fixed eight-link catalogue filtered by its per-link visibility table, in catalogue order |
| `Visibility.MobileItems` | src/components/navbar.tsx:261-330 | the mobile menu lists exactly Home, For Business, About Us when anonymous; Dashboard, Marketplace, Search Talent when authenticated, then nothing but the gated links that apply; Post Job iff authenticated with `job-poster`; Hire Talent iff authenticated with `business` |
| `Visibility.MenuItems` | src/components/navbar.tsx:257-330 | a closed mobile menu renders no link |
| `Visibility.MobileMatchesDesktop` | src/components/navbar.tsx:257-330 | an open mobile menu lists the same links in the same order as the desktop bar |
| `Visibility.DesktopItemsDistinct` | src/components/navbar.tsx:69-165 | no link appears twice in the desktop bar |
| `Visibility.Label` | src/components/navbar.tsx:69-165 | every link has a non-empty text (Home, For Business, About Us, Dashboard, Marketplace, Search Talent, Post Job, Hire Talent) |
| `Visibility.LabelInjective` | src/components/navbar.tsx:69-165 | no two links share a text |
| `Visibility.Href` | src/components/navbar.tsx:69-165 | every link target is a site-absolute path |
| `Visibility.HrefInjective` | src/components/navbar.tsx:69-165 | no two links share an href |
| `Visibility.DesktopLinks` | src/components/navbar.tsx:71-163 | each rendered desktop link is highlighted iff the pathname equals its href |
| `Visibility.AtMostOneActive` | src/components/navbar.tsx:71-163 | whatever the pathname, at most one desktop link is highlighted |
| `Visibility.ActionTarget` | src/components/navbar.tsx:170-392 | Connect Wallet, Login, Register and My Profile link to a path (`/connect-wallet`, `/login`, `/register`, `/dashboard/profile`, the same in the desktop cluster at 170-241 and the mobile one at 333-392); Logout and the selector link nowhere |
| `Visibility.ActionTargetInjective` | src/components/navbar.tsx:170-392 | no two call-to-action links share a target |
| `Visibility.ActionCluster` | src/components/navbar.tsx:170-392 | for the desktop cluster (170-241) and the mobile one (333-392): anonymous, exactly Connect Wallet, Login, Register; authenticated, exactly My Profile and Logout, followed on the desktop bar only by the demo selector |
| `Visibility.ActionClusterIgnoresRole` | src/components/navbar.tsx:170-392 | on the desktop surface (170-241) and the mobile one (333-392) the cluster is the same for any two states with equal `isAuthenticated` |
| `Visibility.SelectorValue` | src/components/navbar.tsx:224 | the selector's `value` prop is never empty: it is `userType` when that is non-empty, and `"freelancer"` when it is null or empty |
| `Mutators.ExpireCookie` | src/components/navbar.tsx:42 | after expiring a name, a cookie remains iff it was there and has another name |
| `Mutators.ExpireCookieIdempotent` | src/components/navbar.tsx:42 | expiring the same cookie twice equals expiring it once |
| `Mutators.HandleLogout` | src/components/navbar.tsx:40-48 | removes the `auth_token` cookie and both `localStorage` keys, keeps every other cookie, sets the state to anonymous with no role, navigates to `/` |
| `Mutators.LogoutIdempotent` | src/components/navbar.tsx:40-48 | logging out twice gives the same stores, state and navigation as logging out once |
| `Mutators.ResolveAfterLogout` | src/components/navbar.tsx:40-48 | without lookalike cookies, no indicator fires after logout and the next resolve keeps the state anonymous |
| `Mutators.LookalikeSurvivesLogout` | src/components/navbar.tsx:18-48 | a lookalike cookie survives logout, and the next resolve makes the user authenticated with the default role |
| `Mutators.OldTokenIsLookalike` | src/components/navbar.tsx:20 | a cookie named `old_auth_token` is a lookalike |
| `Mutators.SetDemoUserType` | src/components/navbar.tsx:51-56 | stores and sets the chosen role, leaves the cookies, `localStorage.auth_token` and `isAuthenticated` unchanged, requests a reload |
| `Mutators.DemoSwitchThenResolve` | src/components/navbar.tsx:51-56 | the role switch never changes whether there is a session; with a session, the next resolve reads back the chosen role |
| `Mutators.ToggleMenu` | src/components/navbar.tsx:246 | the menu button flips `isMenuOpen` and changes nothing else |
| `Mutators.ToggleTwice` | src/components/navbar.tsx:246 | pressing the menu button twice restores the state |
| `Mutators.CloseMenu` | src/components/navbar.tsx:263-265 | a mobile control leaves the menu closed and the session untouched |
| `Navbar.Follow` | src/components/navbar.tsx:170-392 | activating a call-to-action link navigates to its target; Logout and the selector are not links, and no link reloads |
| `Navbar.Dispatch` | src/components/navbar.tsx:62-392 | an event whose control is not rendered (`Navbar.Enabled`: the decision table hides it, the mobile menu is closed, or the selector is set to the role it already has) leaves stores and state unchanged and requests no effect; every rendered mobile control leaves the menu closed; only the effect can authenticate; only the effect or a Logout can de-authenticate; only Logout and the demo selector write the stores; a reload is requested exactly by the demo selector; Logout navigates to `/` |
| `Navbar.DispatchPreservesWellFormed` | src/components/navbar.tsx:18-56 | every event keeps "authenticated implies a non-empty role" |
| `Navbar.RunPreservesWellFormed` | src/components/navbar.tsx:18-56 | any sequence of events keeps "authenticated implies a non-empty role" |
| `Navbar.SelectorShowsRole` | src/components/navbar.tsx:223-224 | on any run from the initial state (`Session.Initial`: anonymous, no role, menu closed, the `useState` values at lines 11-17), an authenticated selector's `value` is the current role itself |
| `Navbar.ResolveSyncs` | src/components/navbar.tsx:18-37 | after the effect, the state is exactly what the stores say |
| `Navbar.RouteChangeKeepsSyncedState` | src/components/navbar.tsx:37 | a pathname change with no store write in between changes neither stores nor state |
| `Navbar.DispatchPreservesSynced` | src/components/navbar.tsx:18-56 | without lookalike cookies, every event keeps the state in line with the stores |
| `Navbar.RunPreservesSynced` | src/components/navbar.tsx:18-56 | without lookalike cookies, any sequence of events keeps the state in line with the stores |
| `Navbar.LocalFlagBusinessScenario` | src/components/navbar.tsx:20-35 | no cookie, the `localStorage` flag and role `business`: authenticated as business, links Dashboard, Marketplace, Search Talent, Hire Talent, the authenticated cluster |
| `Navbar.NoFlagsScenario` | src/components/navbar.tsx:20-35 | neither flag: anonymous, the three public links, the anonymous cluster |
| `Navbar.CookieOnlyScenario` | src/components/navbar.tsx:20-35 | the session cookie alone and no stored role: authenticated as freelancer, no role-gated link |

## Left out

- Markup, CSS classes, icons, `Button` and `ModeToggle`: presentation only. Labels and hrefs are kept.
- Next.js `Link`, `useRouter` and `usePathname`. Navigation is a returned `Navigate(path)` effect. The pathname is a parameter of the highlighting.
- React scheduling. Each run of the pathname effect is an explicit `RouteEffect` event. The caller decides when the pathname changed, and so when to raise it.
- `window.location.reload()` is a returned `Reload` effect. The model does not re-initialise the page.
- Cookie attributes. The model ignores path, domain and `max-age` expiry. Expiring `auth_token` removes every cookie of that name.
- Cookies with an empty name. Browsers print such a cookie without `=`, and the model does not.
- `localStorage` keys other than `auth_token` and `user_type`.
- External writes to the stores, such as a login flow elsewhere in the application. There is no event for them. `Navbar.RunPreservesSynced` covers only runs without such writes.
- The viewport. Both the desktop and the mobile controls count as rendered. Mobile controls additionally need the menu to be open.
- Which `<option>` the browser shows when the selector's `value` is a stored role that matches none of the three options, such as `"admin"`. The model computes the `value` prop only, and the selector fires only for a role different from that value.
- The demo selector's `onChange` cast of `e.target.value`. The selector's options are exactly the three roles, so the model's `DemoRoleSelect` carries a `Role`.

# Imaging-IQ client state machines in Dafny

Imaging-IQ is a Next.js/React front end for an AI-assisted medical imaging product.
Almost all of it is declarative view code. This project models the small client-side
state machines that carry its logic, and proves what they keep true:

- **Session gates.** The dashboard gate fails closed on a provider error or a missing
  session. The profile gate checks only that a session is present.
- **Dashboard workflow.** A one-shot welcome flag is kept in `sessionStorage`. The
  simulated scan goes idle, then scanning, then result shown. A random-walk pulse
  read-out runs beside it.
- **Welcome toast.** Its 4000 ms auto-close timer depends on the identity of its
  `onClose` closure.
- **Navigation bar.** A single info-overlay selector, the mobile menu, the user fed by
  the provider, and the sign-out confirmation with its success and failure branches.
- **Demo-request form.** A two-stage email check (an `includes("@")` test, then a regex),
  then a 500 ms simulated request.
- **Theme toggle.** Guarded by a `mounted` flag.
- **Demo patient selector.** A single selection over a fixed list of mock patients.

Each stateful component is a `class` whose fields are its `useState` variables. Its event
handlers and timer callbacks are methods with `modifies` frames. Each method states the
fields it changes and the fields it keeps, and the invariants are kept as `Valid()`. Each
dashboard event states the render counter; the toast child's props are stated through
`Valid()`, which ties them to the page's fields. Values that are derived
without state (the gates, name fallbacks, the email check, the icons) are functions, and
lemmas state their properties.

Everything outside the program is an input:

- **Authentication provider.** Its answers (`getSession`, auth-change events, `signOut`)
  are method parameters.
- **Timers and the clock.** Timers are explicit fire and tick events at a time `now`, in
  milliseconds. The dashboard's `CanStep(now)` forbids an event that would skip a due
  timer. `Math.random()` is the boolean `up` of a pulse tick.
- **Side effects.** Router calls, `window.location`, `alert` and `console` are logs kept
  in fields. `sessionStorage` is a shared `TabStorage` object.

React rules the model follows:

- A state update after unmount is dropped. Router, storage and console effects still happen.
- The updates of one handler are applied in one render.
- An effect re-runs when a dependency differs by identity. A closure's identity is a number.

Modules, one per source file:

| module | source |
|---|---|
| `Auth` | shared values: the user, the session reply, routes, the `fullName \|\| fallback` idiom |
| `Toast` | components/success-toast.tsx |
| `Dashboard` | app/dashboard/page.tsx |
| `Navbar` | components/navbar.tsx |
| `Hero` | components/hero-section.tsx |
| `Profile` | app/profile/page.tsx |
| `Theme` | components/mode-toggle.tsx |
| `Demo` | components/interactive-demo.tsx |

Behaviours of the code worth knowing before reading the contracts:

- **Sign-out failure.** A failed sign-out keeps the user and does not redirect: the
  catch branch only logs the error and raises an alert (components/navbar.tsx:56-59).
  `Navbar.Navbar.SignOutResolved` keeps the user and navigates nowhere.
- **Welcome toast.** The dashboard passes the toast a new inline `onClose` on every
  render (app/dashboard/page.tsx:247), so every render of the open toast restarts its
  4000 ms timer, and the pulse re-renders it every 2000 ms (see Findings). The page
  class has a constructor flag `stableClose`: `false` is the code as written, `true` the
  corrected page with one closure for its lifetime.
- **Profile gate.** The profile page ignores the provider's `error` field
  (app/profile/page.tsx:33-34), where the dashboard redirects on it.
- **Cancellation.** These asynchronous steps are neither cancelled on unmount nor
  guarded against it: the dashboard's session query (app/dashboard/page.tsx:50-67) and its
  6000 ms scan timer (lines 71-74), the profile's session query
  (app/profile/page.tsx:31-42), the navbar's initial session query
  (components/navbar.tsx:30-34) and the hero's 500 ms timer
  (components/hero-section.tsx:41-46). Their state updates after unmount are dropped.
  The pulse interval (app/dashboard/page.tsx:47), the toast timer
  (components/success-toast.tsx:17) and the navbar's auth subscription and scroll listener
  (components/navbar.tsx:43-46) are cleaned up on unmount.

## Model

| member | source | states |
|---|---|---|
| Auth.NameOr | app/dashboard/page.tsx:56 | `name \|\| fallback`: the name when present and non-empty, otherwise the fallback; never empty when the fallback is not |
| Toast.AfterEffect | components/success-toast.tsx:14-19 | after a render, the pending timer belongs to the new props; it is kept iff `[isOpen, onClose]` is unchanged; otherwise one is armed at `now` iff open |
| Toast.ClosureChangeRestartsCountdown | components/success-toast.tsx:19 | a new `onClose` identity while open replaces the timer with one due 4000 ms from now |
| Toast.SuccessToast.Mount | components/success-toast.tsx:14-19 | the first effect run arms a 4000 ms timer calling `onClose` iff `isOpen` |
| Toast.SuccessToast.Rerender | components/success-toast.tsx:14-19 | a re-render clears and re-arms the timer exactly when `isOpen` or `onClose` changed; at most one timer is pending, only while open |
| Toast.SuccessToast.Fire | components/success-toast.tsx:16 | at its due time the timer calls the current `onClose` and leaves nothing pending |
| Toast.SuccessToast.Dismiss | components/success-toast.tsx:49-50 | the X button calls the current `onClose`; it requires `Visible`, the `isOpen &&` of line 23, which draws the toast only while mounted and open |
| Toast.SuccessToast.Unmount | components/success-toast.tsx:17 | the last cleanup clears any pending timer |
| Toast.ClosureChurnStarvesAutoClose | components/success-toast.tsx:14-19 | if each re-render passes a new closure less than 4000 ms after the last arming, the auto-close never fires |
| Toast.StableClosureKeepsDeadline | components/success-toast.tsx:14-19 | re-renders with unchanged props leave the deadline: the toast closes exactly 4000 ms after arming |
| Dashboard.DashboardGate | app/dashboard/page.tsx:52-54 | admit iff there is no error and there is a session, with that session's user; otherwise redirect to "/login" |
| Dashboard.FirstWord | app/dashboard/page.tsx:131 | the greeting (`DashboardPage.Greeting`, the first word of `userName`) is a prefix of the name with no space, ending at the first space or at the end |
| Dashboard.PulseStep | app/dashboard/page.tsx:45 | one tick moves the pulse by exactly +1 or -1 |
| Dashboard.PulseAfterSnoc | app/dashboard/page.tsx:45 | each further tick applies one more step to the pulse so far |
| Dashboard.PulseDrift | app/dashboard/page.tsx:40-46 | after n ticks from 72 the pulse is within n of 72 and has the parity of 72 + n |
| Dashboard.StorageAfter | app/dashboard/page.tsx:53-63 | a redirect leaves storage untouched. An admission with the flag unset (`ArmsWelcome`: `WelcomeAlreadyShown`, a present non-empty "welcomeShown", is false) writes exactly "welcomeShown" = "true". Storage that already has the flag is untouched; no other key changes |
| Dashboard.WelcomeArmsAtMostOnce | app/dashboard/page.tsx:60-63 | over any sequence of mounts sharing one tab storage the welcome is armed at most once, and never if the tab already showed it |
| Dashboard.InlineRendersRestart | app/dashboard/page.tsx:43-46 | pulse re-renders every 2000 ms with the inline closure satisfy the restart-before-due condition |
| Dashboard.InlineOnCloseStarvesWelcomeToast | app/dashboard/page.tsx:247 | as written, the open welcome toast never closes itself, whatever the number of pulse ticks (`InlineOnClose`: render r passes closure r) |
| Dashboard.StableRendersKeepClosure | app/dashboard/page.tsx:43-46 | pulse re-renders with a stable closure keep the toast open with the same closure |
| Dashboard.StableOnCloseClosesWelcomeToast | app/dashboard/page.tsx:247 | with a stable closure the welcome toast closes itself exactly 4000 ms after it opened (`StableOnClose`: the same closure on every render) |
| Dashboard.DashboardPage.Mount | app/dashboard/page.tsx:35-48 | mount shows the loading screen with pulse 72, an empty name and no flags, and arms the pulse interval; `stableClose` picks the closure passed at line 247 |
| Dashboard.DashboardPage.Commit | app/dashboard/page.tsx:247 | a render passes `showWelcome`, the closure of this render and the name to the toast. The toast exists only off the loading screen. As written, a re-render of the open toast passes a new closure and re-arms its timer at `now`; with a stable closure an unchanged flag keeps the pending timer. The first render after loading arms the timer iff `showWelcome`. The closure of render r is `DashboardPage.OnClose(r)`: `InlineOnClose` as written, `StableOnClose` when `stableClose` |
| Dashboard.DashboardPage.SessionResolved | app/dashboard/page.tsx:50-67 | the gate's verdict. A redirect to "/login" leaves loading on. An admission sets the name with its fallback and ends loading, and arms the welcome iff `ArmsWelcome` (the tab storage lacks the flag), then writes it. A late answer still navigates and still writes storage; while loading stays on the name is unchanged; the render counter moves by one iff mounted |
| Dashboard.DashboardPage.Admitted | app/dashboard/page.tsx:55-63 | the admitting branch: the name with its "Doctor" fallback, loading off while mounted, the welcome armed and the flag written iff the tab storage lacked it, no navigation; after unmount the name is unchanged |
| Dashboard.DashboardPage.StartScan | app/dashboard/page.tsx:69-71 | from the upload zone only: scanning starts, the 6000 ms timer is armed, and the upload zone disappears; as written the render re-arms the open welcome toast at `now` (`RenderRearmsToast`), with a stable closure its timer is kept. It requires `UploadZoneShown`, lines 142-150: mounted, past loading, not scanning |
| Dashboard.DashboardPage.ScanFinished | app/dashboard/page.tsx:71-74 | 6000 ms later, in one batch, scanning ends and the result shows, with the upload zone back; after unmount nothing changes; as written the render re-arms the open welcome toast at `now`, with a stable closure its timer is kept |
| Dashboard.DashboardPage.PulseTick | app/dashboard/page.tsx:43-46 | every 2000 ms the pulse moves by one and no other page state changes; as written the render re-arms the open welcome toast at `now`, with a stable closure its timer is kept |
| Dashboard.DashboardPage.WelcomeTimerFired | app/dashboard/page.tsx:247 | the toast's timer clears `showWelcome` and nothing else |
| Dashboard.DashboardPage.DismissWelcome | app/dashboard/page.tsx:247 | a manual dismissal clears `showWelcome` only and cancels the pending auto-close |
| Dashboard.DashboardPage.CloseResult | app/dashboard/page.tsx:248 | closing the result clears `showResult` and no other page state; as written the render re-arms the open welcome toast at `now`, with a stable closure its timer is kept. It requires `ContentShown`, the non-loading branch of line 77 |
| Dashboard.DashboardPage.Unmount | app/dashboard/page.tsx:47 | unmount stops the pulse interval and the toast timer; the scan timer and the gate query stay pending |
| Dashboard.ContentOnlyWhenAdmitted | app/dashboard/page.tsx:77-82 | content is on screen only after an admission; after a redirect the page stays on the loading screen with one navigation to "/login" (`ContentShown`: mounted and past the `if (loading)` of line 77) |
| Dashboard.TwoMountsOneWelcome | app/dashboard/page.tsx:60-63 | two mounts in one tab never both show the welcome |
| Dashboard.WelcomeStaysOpenAsWritten | app/dashboard/page.tsx:247 | as written, a first mount admitted at 100 with pulse ticks at 2000 and 4000 still shows the welcome at 4000, with its auto-close pushed back to 8000 |
| Dashboard.WelcomeClosesWhenStable | app/dashboard/page.tsx:247 | with a stable closure, the same events leave the timer armed at 100; it fires at 4100 and hides the welcome |
| Dashboard.AsWrittenWelcomeTimerNeverDue | app/dashboard/page.tsx:247 | as written, in every valid state of a mounted page with a pending welcome timer, any event allowed at `now` comes before the welcome timer is due: the next pulse tick, whose render re-arms the timer, always comes first, so the timer never fires |
| Navbar.AtMostOneOverlay | components/navbar.tsx:213-276 | at most one info overlay is open; none when the selector is null, exactly the named one otherwise (`OverlayOpen`: `activeModal === key`, lines 214, 228, 251, 274) |
| Navbar.NavKeysDistinct | components/navbar.tsx:14-19 | the four overlay keys are pairwise distinct |
| Navbar.DesktopLabel | components/navbar.tsx:105 | the desktop label is the full name when it is present and non-empty, otherwise "Doctor"; never empty |
| Navbar.MobileLabel | components/navbar.tsx:179 | the mobile label has no fallback: a missing name shows as empty |
| Navbar.MenuRoutes | components/navbar.tsx:170-202 | a signed-in user gets the profile link; otherwise log in and sign up |
| Navbar.Navbar.Mount | components/navbar.tsx:21-47 | on mount everything is closed, there is no user, and the session query is pending |
| Navbar.Navbar.InitialSessionResolved | components/navbar.tsx:30-34 | the initial query only ever sets the user, never clears it, and only while mounted |
| Navbar.Navbar.AuthStateChanged | components/navbar.tsx:36-38 | an auth change sets the user to the session's user or null |
| Navbar.Navbar.Scroll | components/navbar.tsx:40 | `scrolled` is exactly `ScrolledAt(scrollY)`, that is `scrollY > 20` |
| Navbar.Navbar.OpenOverlay | components/navbar.tsx:81 | a desktop link opens its overlay and replaces any other |
| Navbar.Navbar.OpenOverlayFromMenu | components/navbar.tsx:159-162 | a mobile link closes the menu and opens exactly its overlay |
| Navbar.Navbar.CloseOverlay | components/navbar.tsx:213-276 | every overlay's close sets the selector to null, so no overlay is open; it requires that overlay to be open (`OverlayOpen`) |
| Navbar.Navbar.ToggleMenu | components/navbar.tsx:139 | the menu button flips `isOpen` |
| Navbar.ToggleMenuTwice | components/navbar.tsx:139 | two presses restore `isOpen` |
| Navbar.Navbar.FollowMenuLink | components/navbar.tsx:172-198 | a mobile route link closes the menu and navigates to its route |
| Navbar.Navbar.FollowDesktopLink | components/navbar.tsx:72-129 | a desktop link navigates to the home, profile, login or sign-up route shown for the current user |
| Navbar.Navbar.RequestSignOut | components/navbar.tsx:112 | the desktop logout button opens the confirmation; it requires `AccountControlsShown`, the `user ?` of line 94 |
| Navbar.Navbar.RequestSignOutFromMenu | components/navbar.tsx:184-187 | mobile "Sign Out" closes the menu and opens the confirmation; it requires the open menu and `AccountControlsShown` (line 94) |
| Navbar.Navbar.DismissSignOut | components/navbar.tsx:210 | cancel or backdrop closes the confirmation; it requires `LogoutModalOpen`, the `isOpen={showLogoutModal}` of line 210 |
| Navbar.Navbar.ConfirmSignOut | components/navbar.tsx:49-52 | confirming first closes the confirmation, then sends `signOut()`; it requires `LogoutModalOpen` (line 210) |
| Navbar.Navbar.SignOutResolved | components/navbar.tsx:52-59 | success clears the user and loads "/". An error keeps the user, navigates nowhere, logs the message and raises the fixed alert |
| Navbar.Navbar.Unmount | components/navbar.tsx:43-46 | unmount ends the subscription and the scroll listener |
| Hero.RegexHasShape | components/hero-section.tsx:32 | every string the regex `/^[^\s@]+@[^\s@]+\.[^\s@]+$/` accepts (`RegexAccepts`, with `\s` the JavaScript whitespace set `IsJsSpace`) has no whitespace and one '@' with text before it, followed by an inner '.' |
| Hero.ShapeMatchesRegex | components/hero-section.tsx:32 | every string of that shape is accepted by the regex |
| Hero.RegexIsEmailShape | components/hero-section.tsx:32 | the regex accepts exactly the strings of that shape (both directions) |
| Hero.RegexImpliesAt | components/hero-section.tsx:26-36 | every accepted string contains '@', so the first check only selects the message |
| Hero.CheckEmail | components/hero-section.tsx:26-36 | accepted iff the regex accepts. No '@' gives the short message. '@' with a regex failure gives the "(e.g., name@example.com)" message |
| Hero.HeroSection.Mount | components/hero-section.tsx:16-19 | the form starts empty, without error, not loading, not submitted |
| Hero.HeroSection.Type | components/hero-section.tsx:147-150 | typing, possible only while the input is enabled, sets the email and clears the error (`FormEnabled`: `FormShown`, the `isSubmitted ?` of line 111, and the `disabled={isLoading}` of lines 153 and 168) |
| Hero.HeroSection.Submit | components/hero-section.tsx:21-47 | possible only while the form is enabled. A rejection sets the message and starts nothing. An acceptance clears the error, starts loading, and arms the 500 ms timer with the email (`FormEnabled`, lines 111, 153, 168) |
| Hero.HeroSection.SubmitTimerFired | components/hero-section.tsx:41-46 | 500 ms after the submit the captured email is logged; while mounted, the form is submitted and no longer loading, with the email unchanged |
| Hero.HeroSection.ResetForm | components/hero-section.tsx:49-53 | reset returns the form to its initial state, whatever the email and error were |
| Hero.HeroSection.Unmount | components/hero-section.tsx:41-46 | unmount changes nothing else; a pending 500 ms timer is not cancelled |
| Hero.ResetIsIdempotent | components/hero-section.tsx:49-53 | resetting twice gives the state one reset gives |
| Hero.AcceptedRequestSucceeds | components/hero-section.tsx:21-46 | an accepted submit followed by its timer ends on the success panel, with the submitted email logged once; the form (`FormShown`, line 111) is gone |
| Profile.ProfileGate | app/profile/page.tsx:32-40 | admit iff a session is present, with its user; otherwise redirect to "/login" |
| Profile.ProfileGateIgnoresError | app/profile/page.tsx:33-34 | the provider's error never changes the profile gate's decision |
| Profile.GatesDisagreeOnError | app/profile/page.tsx:33-34 | a session that comes with an error is admitted by the profile and redirected by the dashboard |
| Profile.DashboardAdmitsProfileAdmits | app/profile/page.tsx:33-39 | what the dashboard admits, the profile admits with the same user |
| Profile.HeadingName | app/profile/page.tsx:99 | the heading is the full name, or "Medical Professional" when it is absent or empty |
| Profile.ProfilePage.Mount | app/profile/page.tsx:27-42 | the page starts loading with no user and sends the query |
| Profile.ProfilePage.SessionResolved | app/profile/page.tsx:32-41 | no session: one replace to "/login", loading stays on. A session: the user is set and loading ends while mounted |
| Profile.ProfilePage.BackToDashboard | app/profile/page.tsx:45-47 | the back button always replaces with "/dashboard"; it requires the page to render (`!RendersNothing`, line 49) |
| Profile.ProfilePage.Unmount | app/profile/page.tsx:31-42 | unmount changes nothing else; the session query is not cancelled |
| Profile.RedirectedPageStaysBlank | app/profile/page.tsx:49 | after a redirect the page renders nothing; content implies a user (`RendersNothing`: the `if (loading) return null` of line 49) |
| Theme.Toggled | components/mode-toggle.tsx:18 | "dark" becomes "light", and any other value, or none, becomes "dark" |
| Theme.ToggleTwice | components/mode-toggle.tsx:18 | two toggles restore "dark" or "light"; from any other value they give "light" |
| Theme.IconFor | components/mode-toggle.tsx:23-43 | the moon shows iff the theme is "dark" |
| Theme.ToggleSwapsIcon | components/mode-toggle.tsx:18-43 | every click changes the icon |
| Theme.ModeToggle.constructor | components/mode-toggle.tsx:10 | the first render is not mounted |
| Theme.ModeToggle.MountEffect | components/mode-toggle.tsx:13 | the mount effect sets `mounted` |
| Theme.ModeToggle.Draw | components/mode-toggle.tsx:14-43 | before mount only the placeholder; after mount, the button with the icon of the current theme |
| Theme.ModeToggle.Click | components/mode-toggle.tsx:18 | possible only after mount: the provider's theme becomes the toggled one and the button's icon changes |
| Demo.MockIdsUnique | components/interactive-demo.tsx:16-20 | the mock patients' ids are distinct |
| Demo.ExactlyOneHighlighted | components/interactive-demo.tsx:97 | with distinct ids, selecting a listed patient highlights (`Highlighted`: same id as the selection) its row and no other |
| Demo.ConfidencePanel | components/interactive-demo.tsx:244-258 | the score shows iff confidence is truthy (`Truthy`: not null and not 0); otherwise "Processing..." |
| Demo.ProgressFor | components/interactive-demo.tsx:261-272 | the bar shows iff confidence is truthy, with its value as width; a confidence of 0 prints "0" instead |
| Demo.BarMatchesScore | components/interactive-demo.tsx:244-272 | the bar shows exactly when the score does, with the score's value |
| Demo.MockPatientsNeverPrintZero | components/interactive-demo.tsx:16-20 | no mock patient triggers the stray "0" |
| Demo.StatusMark | components/interactive-demo.tsx:116-120 | "Analyzed" shows the check; any other status the clock |
| Demo.StepMark | components/interactive-demo.tsx:292-296 | a step shows a check iff complete, otherwise a spinner |
| Demo.OnlyReportStepSpins | components/interactive-demo.tsx:22-28 | only the last pipeline step, "Report Generation", spins |
| Demo.InteractiveDemo.constructor | components/interactive-demo.tsx:31 | the initial selection is the first mock patient, and only its row is highlighted |
| Demo.InteractiveDemo.Select | components/interactive-demo.tsx:95-97 | a click on a row selects that patient, and only its row is highlighted |

## Left out

- The authentication provider (`getSession`, `onAuthStateChange`, `signOut`) is foreign. Its answers are inputs, and its behaviour is not modelled.
- Timers are explicit events at a time in milliseconds. Timer drift, the browser's clamping of timer delays and tab throttling are not modelled.
- Asynchronous interleaving is modelled only where the source leaves it open: an answer may arrive after unmount, and auth changes may come before the initial query answers. Each event is atomic.
- Framer-motion animation, CSS classes, layout, copy and the `AnimatePresence` exit transitions are not modelled.
- The result modal (app/dashboard/page.tsx:14) is not part of this model. Only its visibility flag and its `onClose` are.
- The presentational logout and info modals are modelled only as their close and confirm events inside the navbar.
- Events on controls that are not rendered are excluded by `requires`, since the browser cannot deliver them. Examples: a scan click while scanning, typing while the input is disabled.
- `window.scrollY` is an unbounded integer here, not a floating-point number.
- `confidence` is a Dafny `real`, not a JavaScript double, so NaN, which is also falsy, is not representable.
- The theme provider's persistence and the system theme are not modelled. The provider is a `ThemeStore` holding an optional string.
- Strings are sequences of Unicode scalar values. JavaScript's regex without the `u` flag reads UTF-16 code units. No whitespace character and no '@' lies outside the basic plane, so acceptance is the same.
- Hero.HeroSection.ResetForm: requires only `!isLoading`, not that the success panel is shown. Its button exists only in that panel (components/hero-section.tsx:111-132), but `resetForm` itself has no guard, so the model allows a reset from the form too.
- Dashboard.DashboardPage.StartScan: the upload zone leaves under `AnimatePresence mode="wait"` (app/dashboard/page.tsx:141-158), and during its exit animation it may still take a click, which would arm a second 6000 ms timer. The model requires `UploadZoneShown()` and does not capture that double click.
- Hero.HeroSection.Submit: the browser's own validation of the `type="email"` input (components/hero-section.tsx:145) inside a form without `noValidate` (lines 138-141) is not modelled, nor its value sanitization (newlines and surrounding whitespace stripped). The browser does not fire `submit` for a non-empty value that is not a valid HTML e-mail address, so only "" reaches the first message and only HTML-valid addresses the regex rejects reach the second. The model lets `Type` set any string and `Submit` run on it, so its properties hold over a larger set of inputs than the browser lets through.
- Hero.HeroSection: the `#technology` "Learn More" anchor and the trust-indicator list are static and not modelled.
- Demo.InteractiveDemo: the scan label `ID: #{id}72849` and the other static panels are not modelled.
- The pulse read-out is not bounded below or above. The source has no clamp, so the model proves only the drift bound and the parity.

## Findings

| source | as written | input that shows it | evidently intended | confidence | as-written member | corrected member |
|---|---|---|---|---|---|---|
| app/dashboard/page.tsx:247 | The welcome toast gets a new inline `onClose` arrow on every render. The pulse interval re-renders the page every 2000 ms (lines 43-46), and the toast effect depends on `onClose` (components/success-toast.tsx:19). So each tick clears and re-arms the 4000 ms timer before it is due. | An admitted first mount in a fresh tab, left alone: the toast opens at t, ticks re-render at t+2000, t+4000, and so on, and the auto-close never fires (on the page class, for every valid state: `Dashboard.AsWrittenWelcomeTimerNeverDue`, and one run: `Dashboard.WelcomeStaysOpenAsWritten`; the stable closure closes it at 4100: `Dashboard.WelcomeClosesWhenStable`) | The toast closes itself 4000 ms after opening, as with an `onClose` wrapped in `useCallback` | high; not executed | Dashboard.InlineOnCloseStarvesWelcomeToast | Dashboard.StableOnCloseClosesWelcomeToast |

/** The protected dashboard page (app/dashboard/page.tsx): the session gate, the
    one-shot welcome flag kept in the tab's `sessionStorage`, the simulated scan, the
    pulse read-out, and the welcome toast the page renders. */
module Dashboard {
  import opened Auth
  import opened Toast

  const DoctorFallback := "Doctor"
  const WelcomeKey := "welcomeShown"
  const InitialPulse: int := 72
  const PulseIntervalMs: nat := 2000
  const ScanMs: nat := 6000

  // ---------------------------------------------------------------------------
  // Session gate (lines 50-67)

  /** Fail closed: a provider error or a missing session redirects to the sign-in page;
      only an error-free reply with a session admits its user. */
  function DashboardGate(reply: SessionReply): (g: GateOutcome)
    ensures g.Admit? <==> reply.error.None? && reply.session.Some?
    ensures g.Admit? ==> g.user == reply.session.value
    ensures g.Redirect? ==> g.target == LoginRoute
  {
    match reply
    case SessionReply(Some(user), None) => Admit(user)
    case _ => Redirect(LoginRoute)
  }

  /** `userName.split(' ')[0]` (line 131): the name up to its first space, or all of it. */
  function FirstWord(s: string): (w: string)
    ensures w <= s
    ensures ' ' !in w
    ensures |w| < |s| ==> s[|w|] == ' '
    decreases |s|
  {
    if s == [] || s[0] == ' ' then [] else [s[0]] + FirstWord(s[1..])
  }

  // ---------------------------------------------------------------------------
  // Pulse (lines 40, 43-48); the random choice is the input `up`.

  function PulseStep(p: int, up: bool): (q: int)
    ensures q == p + 1 || q == p - 1
  {
    if up then p + 1 else p - 1
  }

  /** The pulse after the given ticks, oldest first. */
  function PulseAfter(start: int, ups: seq<bool>): int
    decreases |ups|
  {
    if ups == [] then start else PulseStep(PulseAfter(start, ups[..|ups| - 1]), ups[|ups| - 1])
  }

  /** One more tick applies one more step. */
  lemma PulseAfterSnoc(start: int, ups: seq<bool>, up: bool)
    ensures PulseAfter(start, ups + [up]) == PulseStep(PulseAfter(start, ups), up)
  {
    assert (ups + [up])[..|ups + [up]| - 1] == ups;
  }

  /** After n ticks the pulse is at most n away from where it started, and it has the
      parity of the start plus n. */
  lemma {:induction false} PulseDrift(start: int, ups: seq<bool>)
    ensures -|ups| <= PulseAfter(start, ups) - start <= |ups|
    ensures (PulseAfter(start, ups) - start + |ups|) % 2 == 0
    decreases |ups|
  {
    if ups != [] {
      PulseDrift(start, ups[..|ups| - 1]);
    }
  }

  // ---------------------------------------------------------------------------
  // Welcome flag (lines 60-63)

  /** `sessionStorage.getItem("welcomeShown")` is truthy: present and non-empty. */
  predicate WelcomeAlreadyShown(items: map<string, string>) {
    WelcomeKey in items && items[WelcomeKey] != ""
  }

  /** An admitted session arms the welcome flag iff the tab has not shown it yet. */
  function ArmsWelcome(items: map<string, string>, admitted: bool): bool {
    admitted && !WelcomeAlreadyShown(items)
  }

  /** The tab's storage after one gate resolution. */
  function StorageAfter(items: map<string, string>, admitted: bool): (after: map<string, string>)
    ensures admitted ==> WelcomeAlreadyShown(after)
    ensures !admitted ==> after == items
    ensures WelcomeAlreadyShown(items) ==> after == items
    ensures ArmsWelcome(items, admitted) ==> after == items[WelcomeKey := "true"]
    ensures after.Keys == items.Keys || after.Keys == items.Keys + {WelcomeKey}
    ensures forall k | k in items && k != WelcomeKey :: after[k] == items[k]
  {
    if ArmsWelcome(items, admitted) then items[WelcomeKey := "true"] else items
  }

  /** How many of successive mounts sharing one tab storage arm the welcome flag, given
      whether each mount's gate admits. */
  function TimesArmed(items: map<string, string>, admissions: seq<bool>): nat
    decreases |admissions|
  {
    if admissions == [] then 0
    else (if ArmsWelcome(items, admissions[0]) then 1 else 0)
         + TimesArmed(StorageAfter(items, admissions[0]), admissions[1..])
  }

  /** Across any number of mounts in one tab the welcome flag is armed at most once,
      and never once the tab has shown it. */
  lemma {:induction false} WelcomeArmsAtMostOnce(items: map<string, string>, admissions: seq<bool>)
    ensures TimesArmed(items, admissions) <= 1
    ensures WelcomeAlreadyShown(items) ==> TimesArmed(items, admissions) == 0
    decreases |admissions|
  {
    if admissions != [] {
      WelcomeArmsAtMostOnce(StorageAfter(items, admissions[0]), admissions[1..]);
    }
  }

  // ---------------------------------------------------------------------------
  // The toast's onClose closure (line 247)

  /** As written: the inline arrow `() => setShowWelcome(false)` is a new closure on
      every render, so render number r passes closure r. */
  function InlineOnClose(render: nat): nat {
    render
  }

  /** Corrected: one closure for the page's lifetime, as `useCallback` with no
      dependencies would give. */
  function StableOnClose(render: nat): nat {
    0
  }

  /** The page's renders caused by n pulse ticks, the first at `first`, while the
      welcome toast is open; they are numbered after render `render`. */
  function PulseRenders(first: nat, render: nat, n: nat, identity: nat -> nat): seq<Render>
    decreases n
  {
    if n == 0 then []
    else [Render(first, true, identity(render + 1))]
         + PulseRenders(first + PulseIntervalMs, render + 1, n - 1, identity)
  }

  lemma {:induction false} InlineRendersRestart(armedAt: nat, render: nat, first: nat, n: nat)
    requires first < armedAt + AutoCloseMs
    ensures RestartsBeforeDue(armedAt, InlineOnClose(render),
                              PulseRenders(first, render, n, InlineOnClose), first + n * PulseIntervalMs)
    decreases n
  {
    if n > 0 {
      InlineRendersRestart(first, render + 1, first + PulseIntervalMs, n - 1);
    }
  }

  /** As written, the welcome toast never closes itself: each pulse tick re-renders the
      page less than 4000 ms after the last arming and passes a new closure, which
      restarts the countdown. This holds for every number n of ticks. */
  lemma InlineOnCloseStarvesWelcomeToast(openedAt: nat, render: nat, first: nat, n: nat)
    requires first <= openedAt + PulseIntervalMs
    ensures FiresAt(true, InlineOnClose(render), Some(Timer(openedAt, InlineOnClose(render))),
                    PulseRenders(first, render, n, InlineOnClose), first + n * PulseIntervalMs) == None
  {
    InlineRendersRestart(openedAt, render, first, n);
    ClosureChurnStarvesAutoClose(openedAt, InlineOnClose(render),
                                 PulseRenders(first, render, n, InlineOnClose), first + n * PulseIntervalMs);
  }

  lemma {:induction false} StableRendersKeepClosure(render: nat, first: nat, n: nat)
    ensures SameClosure(StableOnClose(render), PulseRenders(first, render, n, StableOnClose))
    decreases n
  {
    if n > 0 {
      var rest := PulseRenders(first + PulseIntervalMs, render + 1, n - 1, StableOnClose);
      StableRendersKeepClosure(render + 1, first + PulseIntervalMs, n - 1);
      var all := PulseRenders(first, render, n, StableOnClose);
      assert all == [Render(first, true, 0)] + rest;
      forall k | 0 <= k < |all|
        ensures all[k].isOpen && all[k].onClose == StableOnClose(render)
      {
        if k > 0 {
          assert all[k] == rest[k - 1];
        }
      }
    }
  }

  /** Corrected, the pulse re-renders leave the countdown alone: the toast closes itself
      exactly 4000 ms after it opened. */
  lemma StableOnCloseClosesWelcomeToast(openedAt: nat, render: nat, first: nat, n: nat)
    requires openedAt + AutoCloseMs <= first + n * PulseIntervalMs
    ensures FiresAt(true, StableOnClose(render), Some(Timer(openedAt, StableOnClose(render))),
                    PulseRenders(first, render, n, StableOnClose), first + n * PulseIntervalMs)
            == Some(openedAt + AutoCloseMs)
  {
    StableRendersKeepClosure(render, first, n);
    StableClosureKeepsDeadline(Timer(openedAt, StableOnClose(render)),
                               PulseRenders(first, render, n, StableOnClose), first + n * PulseIntervalMs);
  }

  // ---------------------------------------------------------------------------
  // The page

  /** The tab's `sessionStorage`, shared by every mount of the page in one tab. */
  class TabStorage {
    var items: map<string, string>

    constructor ()
      ensures items == map[]
    {
      items := map[];
    }
  }

  class DashboardPage {
    var mounted: bool
    var loading: bool
    var isScanning: bool
    var userName: string
    var showWelcome: bool
    var showResult: bool
    var pulse: int
    /** The clock, in milliseconds, at the last event. */
    var clock: nat
    /** When the pulse interval fires next. */
    var nextPulse: nat
    /** When the pending scan timer was armed; it is never cleared (lines 71-74). */
    var scanStartedAt: Option<nat>
    var renders: nat
    /** `router.replace` calls. */
    var navigations: seq<Navigation>
    /** The `SuccessToast` child. */
    const toast: SuccessToast
    /** False for the page as written (line 247), which passes a new inline closure on
        every render; true for the corrected page, whose closure never changes. */
    const stableClose: bool
    /** The pulse ticks so far, oldest first. */
    ghost var ticks: seq<bool>
    /** The gate's decision, or None while the session query is outstanding. */
    ghost var verdict: Option<GateOutcome>

    /** Invariants of the page's own state. */
    ghost predicate PageValid()
      reads this, toast
    {
      && toast.Valid()
      && pulse == PulseAfter(InitialPulse, ticks)
      && (verdict.None? ==> loading && !showWelcome && userName == "")
      && navigations == (if verdict.Some? && verdict.value.Redirect? then [Replace(LoginRoute)] else [])
      && (!loading ==> verdict.Some? && verdict.value.Admit?
                       && userName == NameOr(verdict.value.user.fullName, DoctorFallback))
      && (loading ==> !isScanning && !showResult && !showWelcome && scanStartedAt.None?)
      && (mounted ==> (isScanning <==> scanStartedAt.Some?))
      && (mounted ==> clock <= nextPulse <= clock + PulseIntervalMs)
      && (scanStartedAt.Some? ==> clock <= scanStartedAt.value + ScanMs)
      && (toast.pending.Some? ==> clock <= Due(toast.pending.value))
    }

    /** The toast child shows what the last render passed it. As written, the pending
        auto-close is always due after the next pulse tick, whose render re-arms it. */
    ghost predicate Synced()
      reads this, toast
    {
      && toast.mounted == (mounted && !loading)
      && (toast.mounted ==> && toast.isOpen == showWelcome
                            && toast.onClose == OnClose(renders)
                            && toast.userName == userName
                            && !toast.expired)
      && (mounted && !stableClose && toast.pending.Some? ==> nextPulse < Due(toast.pending.value))
    }

    ghost predicate Valid()
      reads this, toast
    {
      PageValid() && Synced()
    }

    /** An event at `now` skips no timer that is due earlier. */
    ghost predicate CanStep(now: nat)
      reads this, toast
    {
      && clock <= now
      && (mounted ==> now <= nextPulse)
      && (scanStartedAt.Some? ==> now <= scanStartedAt.value + ScanMs)
      && (toast.pending.Some? ==> now <= Due(toast.pending.value))
    }

    /** Dashboard content, as opposed to the loading screen of lines 77-82. */
    predicate ContentShown()
      reads this
    {
      mounted && !loading
    }

    /** The upload zone, the only trigger of a scan, is rendered (lines 142-150). */
    predicate UploadZoneShown()
      reads this
    {
      mounted && !loading && !isScanning
    }

    /** The `onClose` closure passed to the toast by render number `render`. */
    function OnClose(render: nat): nat {
      if stableClose then StableOnClose(render) else InlineOnClose(render)
    }

    /** A render of the page re-arms the open toast's timer: as written, every render
        passes a new closure while the toast is open. */
    predicate RenderRearmsToast()
      reads this
    {
      mounted && showWelcome && !stableClose
    }

    /** `Dr. {userName.split(' ')[0]}` (line 131). */
    function Greeting(): string
      reads this
    {
      FirstWord(userName)
    }

    /** Mount: the loading screen, the pulse interval armed, the session query sent. */
    constructor Mount(now: nat, stableClose: bool)
      ensures Valid() && fresh(toast) && this.stableClose == stableClose
      ensures mounted && loading && !isScanning && !showWelcome && !showResult
      ensures userName == "" && pulse == InitialPulse && navigations == []
      ensures verdict == None && clock == now && nextPulse == now + PulseIntervalMs
      ensures !toast.mounted
    {
      mounted, loading, isScanning, userName := true, true, false, "";
      showWelcome, showResult, pulse := false, false, InitialPulse;
      clock, nextPulse, scanStartedAt, renders := now, now + PulseIntervalMs, None, 0;
      navigations := [];
      toast := new SuccessToast();
      this.stableClose := stableClose;
      ticks, verdict := [], None;
    }

    /** One render after a batch of state updates. React renders nothing for an
        unmounted page; the toast exists only on the non-loading branch (line 247). */
    method Commit(now: nat)
      requires PageValid() && clock == now
      requires toast.mounted ==> mounted && !loading
      requires toast.mounted ==> toast.onClose == OnClose(renders) && toast.userName == userName
      requires toast.expired ==> !showWelcome
      modifies this`renders, toast
      ensures Valid()
      ensures renders == old(renders) + (if mounted then 1 else 0)
      ensures old(toast.mounted) && stableClose && old(toast.isOpen) == showWelcome ==> toast.pending == old(toast.pending)
      ensures old(toast.mounted) && !stableClose && showWelcome ==> toast.pending == Some(Timer(now, OnClose(renders)))
      ensures !old(toast.mounted) && toast.mounted && showWelcome ==> toast.pending == Some(Timer(now, OnClose(renders)))
      ensures !toast.mounted ==> toast.pending == old(toast.pending)
    {
      if mounted {
        renders := renders + 1;
        if !loading {
          if toast.mounted {
            toast.Rerender(showWelcome, OnClose(renders), userName, now);
          } else {
            toast.Mount(showWelcome, OnClose(renders), userName, now);
          }
        }
      }
    }

    /** The session query answers (lines 52-64). With no unmount guard, a late answer
        still navigates and still writes the tab storage; React drops its state updates. */
    method SessionResolved(reply: SessionReply, storage: TabStorage, now: nat)
      requires Valid() && CanStep(now) && verdict.None?
      modifies this, toast, storage
      ensures Valid() && clock == now
      ensures renders == old(renders) + (if mounted then 1 else 0)
      ensures loading ==> userName == old(userName)
      ensures verdict == Some(DashboardGate(reply))
      ensures storage.items == StorageAfter(old(storage.items), DashboardGate(reply).Admit?)
      ensures navigations == (if DashboardGate(reply).Redirect? then [Replace(LoginRoute)] else [])
      ensures loading == !(mounted && DashboardGate(reply).Admit?)
      ensures !loading ==> userName == NameOr(reply.session.value.fullName, DoctorFallback)
      ensures showWelcome == (mounted && ArmsWelcome(old(storage.items), DashboardGate(reply).Admit?))
      ensures showWelcome ==> toast.Visible() && toast.pending == Some(Timer(now, OnClose(renders)))
      ensures mounted == old(mounted) && isScanning == old(isScanning) && showResult == old(showResult)
      ensures pulse == old(pulse) && ticks == old(ticks) && nextPulse == old(nextPulse)
      ensures scanStartedAt == old(scanStartedAt)
    {
      var outcome := DashboardGate(reply);
      match outcome {
        case Redirect(target) =>
          verdict, clock, navigations := Some(outcome), now, navigations + [Replace(target)];
          Commit(now);
        case Admit(user) =>
          Admitted(outcome, storage, now);
      }
    }

    /** The admitting arm of `SessionResolved`. */
    method Admitted(outcome: GateOutcome, storage: TabStorage, now: nat)
      requires Valid() && CanStep(now) && verdict.None? && outcome.Admit?
      modifies this, toast, storage
      ensures Valid() && clock == now && verdict == Some(outcome)
      ensures renders == old(renders) + (if mounted then 1 else 0)
      ensures loading ==> userName == old(userName)
      ensures storage.items == StorageAfter(old(storage.items), true)
      ensures navigations == []
      ensures loading == !mounted
      ensures !loading ==> userName == NameOr(outcome.user.fullName, DoctorFallback)
      ensures showWelcome == (mounted && ArmsWelcome(old(storage.items), true))
      ensures showWelcome ==> toast.Visible() && toast.pending == Some(Timer(now, OnClose(renders)))
      ensures mounted == old(mounted) && isScanning == old(isScanning) && showResult == old(showResult)
      ensures pulse == old(pulse) && ticks == old(ticks) && nextPulse == old(nextPulse)
      ensures scanStartedAt == old(scanStartedAt)
    {
      var firstInTab := !WelcomeAlreadyShown(storage.items);
      if mounted {
        verdict, clock, userName, loading, showWelcome :=
          Some(outcome), now, NameOr(outcome.user.fullName, DoctorFallback), false, firstInTab;
      } else {
        verdict, clock := Some(outcome), now;
      }
      if firstInTab {
        storage.items := storage.items[WelcomeKey := "true"];
      }
      Commit(now);
    }

    /** `handleUploadClick` (lines 69-75): a click on the upload zone starts the scan and
        arms the 6000 ms timer. */
    method StartScan(now: nat)
      requires Valid() && CanStep(now) && UploadZoneShown()
      modifies this, toast
      ensures Valid() && clock == now
      ensures renders == old(renders) + (if mounted then 1 else 0)
      ensures isScanning && scanStartedAt == Some(now) && !UploadZoneShown()
      ensures mounted && !loading && showResult == old(showResult) && showWelcome == old(showWelcome)
      ensures pulse == old(pulse) && ticks == old(ticks) && nextPulse == old(nextPulse)
      ensures userName == old(userName) && navigations == old(navigations) && verdict == old(verdict)
      ensures toast.pending == if RenderRearmsToast() then Some(Timer(now, OnClose(renders))) else old(toast.pending)
    {
      isScanning, scanStartedAt, clock := true, Some(now), now;
      Commit(now);
    }

    /** The scan timer fires 6000 ms after the click: scanning ends and the result is
        shown, in one batch. After unmount its updates are dropped. */
    method ScanFinished(now: nat)
      requires Valid() && CanStep(now) && scanStartedAt.Some? && now == scanStartedAt.value + ScanMs
      modifies this, toast
      ensures Valid() && clock == now && scanStartedAt == None
      ensures renders == old(renders) + (if mounted then 1 else 0)
      ensures old(mounted) ==> !isScanning && showResult && UploadZoneShown()
      ensures !old(mounted) ==> isScanning == old(isScanning) && showResult == old(showResult)
      ensures mounted == old(mounted) && loading == old(loading) && showWelcome == old(showWelcome)
      ensures pulse == old(pulse) && ticks == old(ticks) && nextPulse == old(nextPulse)
      ensures userName == old(userName) && navigations == old(navigations) && verdict == old(verdict)
      ensures toast.pending == if RenderRearmsToast() then Some(Timer(now, OnClose(renders))) else old(toast.pending)
    {
      scanStartedAt, clock := None, now;
      if mounted {
        isScanning, showResult := false, true;
      }
      Commit(now);
    }

    /** The pulse interval fires every 2000 ms and moves the pulse by one. */
    method PulseTick(up: bool, now: nat)
      requires Valid() && CanStep(now) && mounted && now == nextPulse
      modifies this, toast
      ensures Valid() && clock == now
      ensures renders == old(renders) + (if mounted then 1 else 0)
      ensures pulse == PulseStep(old(pulse), up) && ticks == old(ticks) + [up]
      ensures nextPulse == now + PulseIntervalMs
      ensures mounted && loading == old(loading) && isScanning == old(isScanning)
      ensures showResult == old(showResult) && showWelcome == old(showWelcome)
      ensures scanStartedAt == old(scanStartedAt) && userName == old(userName)
      ensures navigations == old(navigations) && verdict == old(verdict)
      ensures toast.pending == if RenderRearmsToast() then Some(Timer(now, OnClose(renders))) else old(toast.pending)
    {
      PulseAfterSnoc(InitialPulse, ticks, up);
      ticks, pulse, clock, nextPulse := ticks + [up], PulseStep(pulse, up), now, now + PulseIntervalMs;
      assert PageValid();
      Commit(now);
    }

    /** The toast's 4000 ms timer fires and calls the page's closure, which clears
        `showWelcome` and nothing else. */
    method WelcomeTimerFired(now: nat)
      requires Valid() && CanStep(now) && toast.pending.Some? && now == Due(toast.pending.value)
      modifies this, toast
      ensures Valid() && clock == now
      ensures renders == old(renders) + (if mounted then 1 else 0)
      ensures !showWelcome && !toast.Visible() && toast.pending == None
      ensures mounted == old(mounted) && loading == old(loading) && isScanning == old(isScanning)
      ensures showResult == old(showResult) && pulse == old(pulse) && ticks == old(ticks)
      ensures nextPulse == old(nextPulse) && scanStartedAt == old(scanStartedAt)
      ensures userName == old(userName) && navigations == old(navigations) && verdict == old(verdict)
    {
      var _ := toast.Fire(now);
      showWelcome, clock := false, now;
      Commit(now);
    }

    /** The toast's X button calls the same closure; the re-render cancels the pending
        auto-close. */
    method DismissWelcome(now: nat)
      requires Valid() && CanStep(now) && toast.Visible()
      modifies this, toast
      ensures Valid() && clock == now
      ensures renders == old(renders) + (if mounted then 1 else 0)
      ensures !showWelcome && !toast.Visible() && toast.pending == None
      ensures mounted == old(mounted) && loading == old(loading) && isScanning == old(isScanning)
      ensures showResult == old(showResult) && pulse == old(pulse) && ticks == old(ticks)
      ensures nextPulse == old(nextPulse) && scanStartedAt == old(scanStartedAt)
      ensures userName == old(userName) && navigations == old(navigations) && verdict == old(verdict)
    {
      var _ := toast.Dismiss();
      showWelcome, clock := false, now;
      Commit(now);
    }

    /** The result modal's close (line 248) clears `showResult` and nothing else. */
    method CloseResult(now: nat)
      requires Valid() && CanStep(now) && ContentShown() && showResult
      modifies this, toast
      ensures Valid() && clock == now && !showResult
      ensures renders == old(renders) + (if mounted then 1 else 0)
      ensures mounted && loading == old(loading) && isScanning == old(isScanning)
      ensures showWelcome == old(showWelcome) && pulse == old(pulse) && ticks == old(ticks)
      ensures nextPulse == old(nextPulse) && scanStartedAt == old(scanStartedAt)
      ensures userName == old(userName) && navigations == old(navigations) && verdict == old(verdict)
      ensures toast.pending == if RenderRearmsToast() then Some(Timer(now, OnClose(renders))) else old(toast.pending)
    {
      showResult, clock := false, now;
      Commit(now);
    }

    /** Unmount clears the pulse interval and the toast's timer; the session query and the
        scan timer are not cancelled. */
    method Unmount()
      requires Valid() && mounted
      modifies this, toast
      ensures Valid() && !mounted && toast.pending == None && !toast.Visible()
      ensures loading == old(loading) && isScanning == old(isScanning) && showResult == old(showResult)
      ensures showWelcome == old(showWelcome) && pulse == old(pulse) && ticks == old(ticks)
      ensures scanStartedAt == old(scanStartedAt) && clock == old(clock)
      ensures nextPulse == old(nextPulse) && renders == old(renders)
      ensures userName == old(userName) && navigations == old(navigations) && verdict == old(verdict)
    {
      mounted := false;
      if toast.mounted {
        toast.Unmount();
      }
    }
  }

  /** The gate fails closed: dashboard content is on screen only for an admitted session,
      and only after the query has answered. */
  lemma ContentOnlyWhenAdmitted(d: DashboardPage)
    requires d.Valid()
    ensures d.ContentShown() ==> d.verdict.Some? && d.verdict.value.Admit?
    ensures d.verdict.Some? && d.verdict.value.Redirect? ==> !d.ContentShown() && d.navigations == [Replace(LoginRoute)]
  {
  }

  /** As written, the welcome toast's own timer never fires while the page is mounted:
      the next pulse tick, which re-arms it, is always due first. */
  lemma AsWrittenWelcomeTimerNeverDue(d: DashboardPage, now: nat)
    requires d.Valid() && !d.stableClose && d.mounted && d.toast.pending.Some?
    requires d.CanStep(now)
    ensures now < Due(d.toast.pending.value)
  {
  }

  /** Two mounts in one tab: the second never shows the welcome if the first did. */
  method TwoMountsOneWelcome(storage: TabStorage, first: SessionReply, second: SessionReply, now: nat,
                             stableClose: bool)
    returns (shownFirst: bool, shownSecond: bool)
    modifies storage
    ensures !(shownFirst && shownSecond)
    ensures shownFirst == ArmsWelcome(old(storage.items), DashboardGate(first).Admit?)
    ensures shownSecond == ArmsWelcome(StorageAfter(old(storage.items), DashboardGate(first).Admit?),
                                       DashboardGate(second).Admit?)
  {
    var a := new DashboardPage.Mount(now, stableClose);
    a.SessionResolved(first, storage, now);
    shownFirst := a.showWelcome;
    a.Unmount();
    var b := new DashboardPage.Mount(now, stableClose);
    b.SessionResolved(second, storage, now);
    shownSecond := b.showWelcome;
  }

  /** As written: a first mount in a fresh tab at 0, admitted at 100, opens the welcome.
      The pulse ticks at 2000 and 4000 each re-render the page with a new closure, so at
      4000 the toast is still open and its auto-close is now due at 8000, not at 4100. */
  method WelcomeStaysOpenAsWritten(reply: SessionReply) returns (visible: bool, due: nat)
    requires DashboardGate(reply).Admit?
    ensures visible && due == 8000
  {
    var storage := new TabStorage();
    var page := new DashboardPage.Mount(0, false);
    page.SessionResolved(reply, storage, 100);
    page.PulseTick(true, 2000);
    page.PulseTick(false, 4000);
    visible, due := page.toast.Visible(), Due(page.toast.pending.value);
  }

  /** Corrected: the same events with a stable closure leave the timer armed at 100, and
      it fires at 4100 and closes the welcome. */
  method WelcomeClosesWhenStable(reply: SessionReply) returns (visibleBefore: bool, visibleAfter: bool)
    requires DashboardGate(reply).Admit?
    ensures visibleBefore && !visibleAfter
  {
    var storage := new TabStorage();
    var page := new DashboardPage.Mount(0, true);
    page.SessionResolved(reply, storage, 100);
    page.PulseTick(true, 2000);
    page.PulseTick(false, 4000);
    visibleBefore := page.toast.Visible();
    page.WelcomeTimerFired(4100);
    visibleAfter := page.toast.Visible();
  }
}

/** The site navigation bar (components/navbar.tsx): the single "which info overlay is
    open" selector, the mobile menu, the signed-in user fed by the provider, the scroll
    style and the sign-out confirmation. */
module Navbar {
  import opened Auth

  /** The keys of `navLinks` (lines 14-19), one per info overlay. */
  const NavKeys: seq<string> := ["features", "tech", "evidence", "about"]
  const ScrollThreshold: int := 20
  const UserFallback := "Doctor"
  const SignOutAlert := "Error signing out. Please try again."

  /** The overlay with this key is open (`isOpen={activeModal === key}`). */
  predicate OverlayOpen(active: Option<string>, key: string) {
    active == Some(key)
  }

  /** All info overlays that are open. */
  function OpenOverlays(active: Option<string>): set<string> {
    set k | k in NavKeys && OverlayOpen(active, k)
  }

  /** One selector opens at most one overlay, and exactly the one it names. */
  lemma AtMostOneOverlay(active: Option<string>)
    ensures |OpenOverlays(active)| <= 1
    ensures active.None? ==> OpenOverlays(active) == {}
    ensures active.Some? && active.value in NavKeys ==> OpenOverlays(active) == {active.value}
  {
    if active.Some? {
      if active.value in NavKeys {
        assert OpenOverlays(active) == {active.value};
      } else {
        assert OpenOverlays(active) == {};
      }
    } else {
      assert OpenOverlays(active) == {};
    }
  }

  /** The nav-link keys are pairwise distinct, so open-ness by key is unambiguous. */
  lemma NavKeysDistinct()
    ensures forall i, j | 0 <= i < j < |NavKeys| :: NavKeys[i] != NavKeys[j]
  {
  }

  /** `setScrolled(window.scrollY > 20)` (line 40). */
  predicate ScrolledAt(scrollY: int) {
    scrollY > ScrollThreshold
  }

  /** The desktop user label (line 105): the full name, or "Doctor". */
  function DesktopLabel(user: User): (shown: string)
    ensures shown != ""
    ensures shown == UserFallback || user.fullName == Some(shown)
    ensures user.fullName.Some? && user.fullName.value != "" ==> shown == user.fullName.value
  {
    NameOr(user.fullName, UserFallback)
  }

  /** The mobile profile label (line 179) has no fallback: a missing name shows nothing. */
  function MobileLabel(user: User): (shown: string)
    ensures user.fullName.Some? ==> shown == user.fullName.value
    ensures user.fullName.None? ==> shown == ""
  {
    match user.fullName
    case Some(name) => name
    case None => ""
  }

  /** The routes the mobile menu links to: profile when signed in, else log in and sign up. */
  function MenuRoutes(user: Option<User>): (routes: set<string>)
    ensures user.Some? ==> routes == {ProfileRoute}
    ensures user.None? ==> routes == {LoginRoute, SignupRoute}
  {
    if user.Some? then {ProfileRoute} else {LoginRoute, SignupRoute}
  }

  class Navbar {
    var mounted: bool
    var isOpen: bool
    var scrolled: bool
    var user: Option<User>
    var showLogoutModal: bool
    var activeModal: Option<string>
    /** `signOut()` calls awaiting their answer. */
    var signOutsInFlight: nat
    var navigations: seq<Navigation>
    var alerts: seq<string>
    /** `console.error` messages. */
    var errorLog: seq<string>
    /** The initial `getSession()` has not answered yet. */
    ghost var sessionQueryPending: bool

    ghost predicate Valid()
      reads this
    {
      && (activeModal.Some? ==> activeModal.value in NavKeys)
      && |alerts| == |errorLog|
      && (forall k | 0 <= k < |alerts| :: alerts[k] == SignOutAlert)
      && (forall k | 0 <= k < |navigations| :: navigations[k].Load? ==> navigations[k].href == HomeRoute)
    }

    /** Profile and logout controls are shown iff a user is set (line 94). */
    predicate AccountControlsShown()
      reads this
    {
      user.Some?
    }

    predicate LogoutModalOpen()
      reads this
    {
      mounted && showLogoutModal
    }

    /** Mount: nothing open, no user yet; the session query is sent and the auth-change
        subscription and scroll listener are installed (lines 29-47). */
    constructor Mount()
      ensures Valid() && mounted && sessionQueryPending
      ensures !isOpen && !scrolled && user == None && !showLogoutModal && activeModal == None
      ensures signOutsInFlight == 0 && navigations == [] && alerts == [] && errorLog == []
    {
      mounted, isOpen, scrolled, user := true, false, false, None;
      showLogoutModal, activeModal, signOutsInFlight := false, None, 0;
      navigations, alerts, errorLog := [], [], [];
      sessionQueryPending := true;
    }

    /** The initial query answers (lines 31-32): it only ever sets the user, never clears it. */
    method InitialSessionResolved(session: Option<User>)
      requires Valid() && sessionQueryPending
      modifies this
      ensures Valid() && !sessionQueryPending
      ensures user == (if mounted && session.Some? then session else old(user))
      ensures old(user).Some? ==> user.Some?
      ensures mounted == old(mounted) && isOpen == old(isOpen) && scrolled == old(scrolled)
      ensures showLogoutModal == old(showLogoutModal) && activeModal == old(activeModal)
      ensures signOutsInFlight == old(signOutsInFlight) && navigations == old(navigations)
      ensures alerts == old(alerts) && errorLog == old(errorLog)
    {
      sessionQueryPending := false;
      if mounted && session.Some? {
        user := session;
      }
    }

    /** An auth-change event (lines 36-38) sets the user to the session's user or null. */
    method AuthStateChanged(session: Option<User>)
      requires Valid() && mounted
      modifies this`user
      ensures Valid()
      ensures user == session
    {
      user := session;
    }

    method Scroll(scrollY: int)
      requires Valid() && mounted
      modifies this`scrolled
      ensures Valid()
      ensures scrolled == ScrolledAt(scrollY)
    {
      scrolled := scrollY > ScrollThreshold;
    }

    /** A desktop nav link (line 81) opens its overlay, replacing any other. */
    method OpenOverlay(key: string)
      requires Valid() && mounted && key in NavKeys
      modifies this`activeModal
      ensures Valid()
      ensures activeModal == Some(key) && OpenOverlays(activeModal) == {key}
    {
      activeModal := Some(key);
      AtMostOneOverlay(activeModal);
    }

    /** A mobile nav link (lines 159-162) closes the menu and opens its overlay. */
    method OpenOverlayFromMenu(key: string)
      requires Valid() && mounted && isOpen && key in NavKeys
      modifies this`isOpen, this`activeModal
      ensures Valid()
      ensures !isOpen && activeModal == Some(key) && OpenOverlays(activeModal) == {key}
    {
      isOpen, activeModal := false, Some(key);
      AtMostOneOverlay(activeModal);
    }

    /** Every info overlay's close (lines 215, 229, 252, 275) clears the selector. */
    method CloseOverlay(key: string)
      requires Valid() && mounted && OverlayOpen(activeModal, key)
      modifies this`activeModal
      ensures Valid()
      ensures activeModal == None && OpenOverlays(activeModal) == {}
    {
      activeModal := None;
      AtMostOneOverlay(activeModal);
    }

    /** The menu button (line 139) toggles the mobile menu. */
    method ToggleMenu()
      requires Valid() && mounted
      modifies this`isOpen
      ensures Valid()
      ensures isOpen == !old(isOpen)
    {
      isOpen := !isOpen;
    }

    /** A route link in the mobile menu (lines 174, 195, 198) closes the menu and navigates. */
    method FollowMenuLink(href: string)
      requires Valid() && mounted && isOpen && href in MenuRoutes(user)
      modifies this`isOpen, this`navigations
      ensures Valid()
      ensures !isOpen && navigations == old(navigations) + [Push(href)]
    {
      isOpen := false;
      navigations := navigations + [Push(href)];
    }

    /** A desktop link (the logo, line 72; profile or log in and sign up, lines 96-129)
        navigates; the menu is left as it was. */
    method FollowDesktopLink(href: string)
      requires Valid() && mounted && (href == HomeRoute || href in MenuRoutes(user))
      modifies this`navigations
      ensures Valid()
      ensures navigations == old(navigations) + [Push(href)]
    {
      navigations := navigations + [Push(href)];
    }

    /** The desktop logout button (line 112) opens the confirmation. */
    method RequestSignOut()
      requires Valid() && mounted && AccountControlsShown()
      modifies this`showLogoutModal
      ensures Valid()
      ensures showLogoutModal
    {
      showLogoutModal := true;
    }

    /** Mobile "Sign Out" (lines 184-187) closes the menu and opens the confirmation. */
    method RequestSignOutFromMenu()
      requires Valid() && mounted && isOpen && AccountControlsShown()
      modifies this`isOpen, this`showLogoutModal
      ensures Valid()
      ensures !isOpen && showLogoutModal
    {
      isOpen, showLogoutModal := false, true;
    }

    /** The confirmation's cancel button or backdrop (line 210, `onClose`). */
    method DismissSignOut()
      requires Valid() && LogoutModalOpen()
      modifies this`showLogoutModal
      ensures Valid()
      ensures !showLogoutModal
    {
      showLogoutModal := false;
    }

    /** `handleConfirmSignOut`, up to its `await` (lines 49-52): the confirmation closes
        first, then `signOut()` is sent. */
    method ConfirmSignOut()
      requires Valid() && LogoutModalOpen()
      modifies this`showLogoutModal, this`signOutsInFlight
      ensures Valid()
      ensures !showLogoutModal && signOutsInFlight == old(signOutsInFlight) + 1
    {
      showLogoutModal := false;
      signOutsInFlight := signOutsInFlight + 1;
    }

    /** `signOut()` answers (lines 53-58). On success the user is cleared and the browser
        loads "/"; on error the user stays, nothing navigates, the error is logged and an
        alert is raised. */
    method SignOutResolved(error: Option<string>)
      requires Valid() && signOutsInFlight > 0
      modifies this`user, this`signOutsInFlight, this`navigations, this`alerts, this`errorLog
      ensures Valid()
      ensures signOutsInFlight == old(signOutsInFlight) - 1
      ensures error.None? ==> && user == (if mounted then None else old(user))
                              && navigations == old(navigations) + [Load(HomeRoute)]
                              && alerts == old(alerts) && errorLog == old(errorLog)
      ensures error.Some? ==> && user == old(user) && navigations == old(navigations)
                              && alerts == old(alerts) + [SignOutAlert]
                              && errorLog == old(errorLog) + [error.value]
    {
      signOutsInFlight := signOutsInFlight - 1;
      match error {
        case None =>
          if mounted {
            user := None;
          }
          navigations := navigations + [Load(HomeRoute)];
        case Some(message) =>
          errorLog := errorLog + [message];
          alerts := alerts + [SignOutAlert];
      }
    }

    /** Unmount removes the scroll listener and the auth subscription (lines 43-46). */
    method Unmount()
      requires Valid() && mounted
      modifies this`mounted
      ensures Valid() && !mounted
    {
      mounted := false;
    }
  }

  /** Two presses of the menu button leave the menu as it was. */
  method ToggleMenuTwice(nav: Navbar)
    requires nav.Valid() && nav.mounted
    modifies nav`isOpen
    ensures nav.Valid() && nav.isOpen == old(nav.isOpen)
  {
    nav.ToggleMenu();
    nav.ToggleMenu();
  }
}

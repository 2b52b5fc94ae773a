/** The profile page (app/profile/page.tsx): a session gate that renders nothing until the
    signed-in user is known, a name heading with a fallback, and a back button. */
module Profile {
  import opened Auth
  import Dashboard

  const HeadingFallback := "Medical Professional"

  /** `getUser` (lines 32-40): only the presence of a session is checked. */
  function ProfileGate(reply: SessionReply): (g: GateOutcome)
    ensures g.Admit? <==> reply.session.Some?
    ensures g.Admit? ==> g.user == reply.session.value
    ensures g.Redirect? ==> g.target == LoginRoute
  {
    match reply.session
    case Some(user) => Admit(user)
    case None => Redirect(LoginRoute)
  }

  /** The `error` of the provider's answer never influences the profile gate. */
  lemma ProfileGateIgnoresError(session: Option<User>, e1: Option<string>, e2: Option<string>)
    ensures ProfileGate(SessionReply(session, e1)) == ProfileGate(SessionReply(session, e2))
  {
  }

  /** A session that comes with an error is admitted here and turned away by the dashboard. */
  lemma GatesDisagreeOnError(user: User, message: string)
    ensures ProfileGate(SessionReply(Some(user), Some(message))) == Admit(user)
    ensures Dashboard.DashboardGate(SessionReply(Some(user), Some(message))) == Redirect(LoginRoute)
  {
  }

  /** Whatever the dashboard admits, the profile admits with the same user. */
  lemma DashboardAdmitsProfileAdmits(reply: SessionReply)
    requires Dashboard.DashboardGate(reply).Admit?
    ensures ProfileGate(reply) == Dashboard.DashboardGate(reply)
  {
  }

  /** The heading (line 99): the full name, or "Medical Professional" when it is missing
      or empty. */
  function HeadingName(user: User): (h: string)
    ensures h != ""
    ensures h == HeadingFallback || user.fullName == Some(h)
    ensures user.fullName.Some? && user.fullName.value != "" ==> h == user.fullName.value
  {
    NameOr(user.fullName, HeadingFallback)
  }

  class ProfilePage {
    var mounted: bool
    var loading: bool
    var user: Option<User>
    var navigations: seq<Navigation>
    /** The session query sent on mount has answered. */
    ghost var answered: bool

    ghost predicate Valid()
      reads this
    {
      && (loading <==> user.None?)
      && (forall k | 0 <= k < |navigations| ::
            navigations[k] == Replace(LoginRoute) || navigations[k] == Replace(DashboardRoute))
      && (Replace(LoginRoute) in navigations ==> loading)
      && (!answered ==> loading && navigations == [])
    }

    /** While loading, the page renders nothing (line 49). */
    predicate RendersNothing()
      reads this
    {
      loading
    }

    /** Mount sends the session query (lines 31-42). */
    constructor Mount()
      ensures Valid() && mounted && loading && user == None && navigations == [] && !answered
    {
      mounted, loading, user, navigations := true, true, None, [];
      answered := false;
    }

    /** The query answers. No session: `router.replace("/login")` and the page stays
        loading. A session: the user is stored and loading ends, unless the page has
        unmounted, when the updates are dropped. */
    method SessionResolved(reply: SessionReply)
      requires Valid() && !answered
      modifies this
      ensures Valid() && answered && mounted == old(mounted)
      ensures ProfileGate(reply).Redirect? ==>
                && navigations == [Replace(LoginRoute)] && loading && user == None
      ensures ProfileGate(reply).Admit? ==> navigations == []
      ensures ProfileGate(reply).Admit? && mounted ==> !loading && user == Some(ProfileGate(reply).user)
      ensures ProfileGate(reply).Admit? && !mounted ==> loading && user == None
    {
      answered := true;
      match reply.session {
        case None =>
          navigations := navigations + [Replace(LoginRoute)];
        case Some(u) =>
          if mounted {
            user, loading := Some(u), false;
          }
      }
    }

    /** "Back to Analysis" (lines 45-47, 61) always replaces the history entry with the
        dashboard. */
    method BackToDashboard()
      requires Valid() && mounted && !RendersNothing()
      modifies this`navigations
      ensures Valid()
      ensures navigations == old(navigations) + [Replace(DashboardRoute)]
    {
      navigations := navigations + [Replace(DashboardRoute)];
    }

    method Unmount()
      requires Valid() && mounted
      modifies this`mounted
      ensures Valid() && !mounted
    {
      mounted := false;
    }
  }

  /** The page never shows content after redirecting to the login page, and shows content
      only with a user whose heading is defined. */
  lemma RedirectedPageStaysBlank(p: ProfilePage)
    requires p.Valid()
    ensures Replace(LoginRoute) in p.navigations ==> p.RendersNothing()
    ensures !p.RendersNothing() ==> p.user.Some?
  {
  }
}

/** Values the views exchange with the hosted authentication provider and the router.
    The provider itself is foreign: the model never runs it, it only receives its
    answers (`getSession`, the auth-change subscription, `signOut`) as inputs. */
module Auth {

  datatype Option<+T> = None | Some(value: T)

  /** The signed-in user as the views read it: `user_metadata.full_name`, which may
      be missing, and `email`. */
  datatype User = User(fullName: Option<string>, email: string)

  /** The answer of `auth.getSession()`: a session or none, and an error or none. */
  datatype SessionReply = SessionReply(session: Option<User>, error: Option<string>)

  /** What a session gate decides once the provider has answered. */
  datatype GateOutcome = Admit(user: User) | Redirect(target: string)

  /** An observable navigation: a client-side `Link` (`Push`), `router.replace`
      (`Replace`), or an assignment to `window.location.href` (`Load`). */
  datatype Navigation = Push(href: string) | Replace(href: string) | Load(href: string)

  const HomeRoute := "/"
  const LoginRoute := "/login"
  const SignupRoute := "/signup"
  const DashboardRoute := "/dashboard"
  const ProfileRoute := "/profile"

  /** JavaScript's `fullName || fallback`: a missing name and the empty string are
      both falsy, so either yields the fallback. */
  function NameOr(name: Option<string>, fallback: string): (r: string)
    ensures r == fallback || name == Some(r)
    ensures name.Some? && name.value != "" ==> r == name.value
    ensures fallback != "" ==> r != ""
  {
    if name.Some? && name.value != "" then name.value else fallback
  }
}

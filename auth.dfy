/**
 * The `login` callback of hooks/useAuth.ts (where to send the user once signed in) and the
 * role flags the hook returns.
 */
module LoginRouting {
  import opened Common
  import opened JsString
  import opened Roles

  const DefaultRedirect := "/reservas"

  /** What `signInWithPassword` resolved to: an error, or the signed-in user's id. */
  datatype SignIn = SignInError | SignedIn(userId: string)

  /** `login` either rethrows or resolves to `{ user, userType }` after sending the browser to `redirectPath`. */
  datatype LoginOutcome = Rethrown | LoggedIn(userId: string, redirectPath: string, userType: Option<string>)

  /** `redirect || '/reservas'` */
  function Fallback(redirect: Option<string>): (r: string)
    ensures r != ""
    ensures redirect.Some? && redirect.value != "" ==> r == redirect.value
    ensures redirect.None? || redirect.value == "" ==> r == DefaultRedirect
  {
    Or(redirect, Some(DefaultRedirect)).value
  }

  /** The page a normalised role is sent to, when the role is one of the four known ones. */
  function RoleHome(role: Option<string>): Option<string> {
    if role == Some("admin") then Some("/super-admin/dashboard")
    else if role == Some("business_owner") then Some("/admin/dashboard")
    else if role == Some("specialist") then Some("/admin/reservas-especialista")
    else if role == Some("receptionist") then Some("/admin/dashboard")
    else None
  }

  /** The redirect chosen from the profile lookup (a timeout is a lookup that throws). */
  function RedirectFor(redirect: Option<string>, lookup: Attempt<ProfileAnswer>): string {
    if lookup.Raised? || lookup.value.error || lookup.value.data.None? then Fallback(redirect)
    else
      var home := RoleHome(NormalizeRole(lookup.value.data.value.role));
      if home.Some? then home.value else Fallback(redirect)
  }

  /** `login(email, password, redirect)` */
  function Login(signIn: SignIn, redirect: Option<string>, lookup: Attempt<ProfileAnswer>): LoginOutcome {
    if signIn.SignInError? then Rethrown
    else LoggedIn(signIn.userId, RedirectFor(redirect, lookup), None)
  }

  /** A sign-in error is rethrown and no redirect is computed. */
  lemma SignInErrorRethrown(redirect: Option<string>, lookup: Attempt<ProfileAnswer>)
    ensures Login(SignInError, redirect, lookup) == Rethrown
  {
  }

  /** Every successful login resolves with `userType: null` for the signed-in user. */
  lemma SuccessHasNoUserType(userId: string, redirect: Option<string>, lookup: Attempt<ProfileAnswer>)
    ensures var r := Login(SignedIn(userId), redirect, lookup);
      r.LoggedIn? && r.userId == userId && r.userType.None?
  {
  }

  /** A known role decides the page whatever redirect the caller supplied. */
  lemma RoleOverridesRedirect(userId: string, redirect: Option<string>, role: Option<string>)
    requires RoleHome(NormalizeRole(role)).Some?
    ensures Login(SignedIn(userId), redirect, Returned(ProfileAnswer(Some(Profile(role)), false)))
         == LoggedIn(userId, RoleHome(NormalizeRole(role)).value, None)
  {
  }

  /** The four role pages, by normalised role. */
  lemma RoleHomes()
    ensures RoleHome(Some("admin")) == Some("/super-admin/dashboard")
    ensures RoleHome(Some("business_owner")) == Some("/admin/dashboard")
    ensures RoleHome(Some("specialist")) == Some("/admin/reservas-especialista")
    ensures RoleHome(Some("receptionist")) == Some("/admin/dashboard")
    ensures forall r: string :: RoleHome(Some(r)).Some? <==> r in {"admin", "business_owner", "specialist", "receptionist"}
  {
  }

  /**
   * A lookup that throws or times out, reports an error, finds no profile, or finds a role
   * other than the four known ones, falls back to the supplied redirect or `/reservas`.
   */
  lemma FallbackCases(userId: string, redirect: Option<string>, lookup: Attempt<ProfileAnswer>)
    requires || lookup.Raised? || lookup.value.error || lookup.value.data.None?
             || RoleHome(NormalizeRole(lookup.value.data.value.role)).None?
    ensures Login(SignedIn(userId), redirect, lookup) == LoggedIn(userId, Fallback(redirect), None)
  {
  }

  /** A profile whose role is null or empty is an unknown role. */
  lemma NullRoleFallsBack(userId: string, redirect: Option<string>)
    ensures Login(SignedIn(userId), redirect, Returned(ProfileAnswer(Some(Profile(None)), false)))
         == LoggedIn(userId, Fallback(redirect), None)
    ensures Login(SignedIn(userId), redirect, Returned(ProfileAnswer(Some(Profile(Some(""))), false)))
         == LoggedIn(userId, Fallback(redirect), None)
  {
  }

  /** Wherever login sends the user, it is a role page or the fallback. */
  lemma RedirectTargets(redirect: Option<string>, lookup: Attempt<ProfileAnswer>)
    ensures RedirectFor(redirect, lookup) in
      {"/super-admin/dashboard", "/admin/dashboard", "/admin/reservas-especialista", Fallback(redirect)}
  {
  }

  // ---------------------------------------------------------------------------------
  // The values the hook returns.

  datatype Flags = Flags(
    isAuthenticated: bool, isCustomer: bool, isBusinessOwner: bool,
    isAdmin: bool, isSpecialist: bool, isReceptionist: bool)

  /** The derived flags of `useAuth()` for the current user and user type. */
  function HookFlags(user: Option<string>, userType: Option<string>): Flags {
    Flags(
      user.Some?,
      userType == Some("customer"),
      userType == Some("business_owner"),
      userType == Some("admin"),
      userType == Some("specialist"),
      userType == Some("receptionist"))
  }

  function RoleFlagCount(f: Flags): nat {
    (if f.isCustomer then 1 else 0) + (if f.isBusinessOwner then 1 else 0) + (if f.isAdmin then 1 else 0)
    + (if f.isSpecialist then 1 else 0) + (if f.isReceptionist then 1 else 0)
  }

  /** `isAuthenticated` holds exactly when there is a user. */
  lemma AuthenticatedIffUser(user: Option<string>, userType: Option<string>)
    ensures HookFlags(user, userType).isAuthenticated <==> user.Some?
  {
  }

  /** At most one role flag is set, and exactly one when the user type is one of the five. */
  lemma AtMostOneRoleFlag(user: Option<string>, userType: Option<string>)
    ensures RoleFlagCount(HookFlags(user, userType)) <= 1
    ensures RoleFlagCount(HookFlags(user, userType)) == 1 <==>
      userType.Some? && userType.value in {"customer", "business_owner", "admin", "specialist", "receptionist"}
  {
  }
}

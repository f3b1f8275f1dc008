/**
 * The request guard of middleware.ts: a decision on (pathname, session, profile lookups),
 * with the super-admin branch's profile retry loop.
 */
module RouteGuard {
  import opened Common
  import opened JsString
  import opened Roles

  /**
   * `NextResponse.next` or a redirect. A redirect keeps the request's query and, when
   * `redirectParam` is present, sets `redirect` to it.
   */
  datatype Decision = Next | Redirect(path: string, redirectParam: Option<string>)

  const MaxAttempts := 3

  /** `/admin*` except the public `/admin/login*`. */
  predicate AdminArea(p: string) {
    StartsWith(p, "/admin") && !StartsWith(p, "/admin/login")
  }

  predicate SuperAdminArea(p: string) {
    StartsWith(p, "/super-admin")
  }

  /** Roles that may enter `/admin*`, compared on the raw column value. */
  predicate AdminRole(role: Option<string>) {
    role == Some("business_owner") || role == Some("specialist") || role == Some("receptionist")
  }

  /**
   * The role rules of the signed-in `/admin*` branch: Some(decision) when the branch returns,
   * None when it falls through to the later rules.
   */
  function AdminRule(p: string, lookup: Attempt<ProfileAnswer>): Option<Decision> {
    if lookup.Raised? || lookup.value.error || lookup.value.data.None? then Some(Next)
    else
      var role := lookup.value.data.value.role;
      if role == Some("specialist") && !StartsWith(p, "/admin/reservas-especialista") then
        Some(Redirect("/admin/reservas-especialista", None))
      else if role == Some("receptionist") && StartsWith(p, "/admin/configuracion") then
        Some(Redirect("/admin/dashboard", None))
      else if !AdminRole(role) then
        Some(Redirect("/reservas", None))
      else None
  }

  /** Where the retry loop left `profile`, `profileError` and `attempts`, or that a query threw. */
  datatype LoopEnd = Threw | Settled(profile: Option<Profile>, error: bool, attempts: nat)

  /**
   * The retry loop from a given state: query again while fewer than three attempts were made
   * and neither a profile nor an error has come back. `answers[i]` is what attempt i + 1 gets.
   */
  function RetryFrom(answers: seq<Attempt<ProfileAnswer>>, attempts: nat, profile: Option<Profile>, error: bool): LoopEnd
    requires |answers| == MaxAttempts && attempts <= MaxAttempts
    decreases MaxAttempts - attempts
  {
    if attempts < MaxAttempts && profile.None? && !error then
      match answers[attempts]
      case Raised => Threw
      case Returned(a) => RetryFrom(answers, attempts + 1, a.data, a.error)
    else Settled(profile, error, attempts)
  }

  function Retry(answers: seq<Attempt<ProfileAnswer>>): LoopEnd
    requires |answers| == MaxAttempts
  {
    RetryFrom(answers, 0, None, false)
  }

  /** The signed-in `/super-admin*` branch: fail-closed unless the normalised role is 'admin'. */
  function SuperAdminRule(end: LoopEnd): Option<Decision> {
    if end.Threw? || end.error || end.profile.None? then Some(Redirect("/reservas", None))
    else if NormalizeRole(end.profile.value.role) != Some("admin") then Some(Redirect("/reservas", None))
    else None
  }

  /** The guard's decision, rule by rule in source order. */
  function Route(p: string, session: bool, adminLookup: Attempt<ProfileAnswer>,
                 superAnswers: seq<Attempt<ProfileAnswer>>): Decision
    requires |superAnswers| == MaxAttempts
  {
    if AdminArea(p) && !session then Redirect("/admin/login", Some(p))
    else if AdminArea(p) && AdminRule(p, adminLookup).Some? then AdminRule(p, adminLookup).value
    else if SuperAdminArea(p) && !session then Redirect("/login", Some(p))
    else if SuperAdminArea(p) && SuperAdminRule(Retry(superAnswers)).Some? then SuperAdminRule(Retry(superAnswers)).value
    else if StartsWith(p, "/mis-reservas") && !session then Redirect("/login", Some(p))
    else if Includes(p, "/reservar") && !session then Redirect("/login", Some(p))
    else Next
  }

  /** `middleware(request)`, with the super-admin branch's retry loop run step by step. */
  method Middleware(p: string, session: bool, adminLookup: Attempt<ProfileAnswer>,
                    superAnswers: seq<Attempt<ProfileAnswer>>) returns (d: Decision)
    requires |superAnswers| == MaxAttempts
    ensures d == Route(p, session, adminLookup, superAnswers)
  {
    if AdminArea(p) && !session {
      return Redirect("/admin/login", Some(p));
    }
    if AdminArea(p) && session {
      var rule := AdminRule(p, adminLookup);
      if rule.Some? {
        return rule.value;
      }
    }
    if SuperAdminArea(p) && !session {
      return Redirect("/login", Some(p));
    }
    if SuperAdminArea(p) && session {
      var profile: Option<Profile> := None;
      var profileError := false;
      var attempts: nat := 0;
      while attempts < MaxAttempts && profile.None? && !profileError
        invariant attempts <= MaxAttempts
        invariant RetryFrom(superAnswers, attempts, profile, profileError) == Retry(superAnswers)
        decreases MaxAttempts - attempts
      {
        var result := superAnswers[attempts];
        attempts := attempts + 1;
        if result.Raised? {
          return Redirect("/reservas", None);
        }
        profileError := result.value.error;
        profile := result.value.data;
      }
      if profileError || profile.None? {
        return Redirect("/reservas", None);
      }
      if NormalizeRole(profile.value.role) != Some("admin") {
        return Redirect("/reservas", None);
      }
    }
    if StartsWith(p, "/mis-reservas") && !session {
      return Redirect("/login", Some(p));
    }
    if Includes(p, "/reservar") && !session {
      return Redirect("/login", Some(p));
    }
    return Next;
  }

  // ---------------------------------------------------------------------------------
  // The retry loop.

  /**
   * The loop makes between one and three attempts; every attempt but the last got neither a
   * profile nor an error, and it stops early only on an attempt that got one.
   */
  lemma {:induction false} RetryStopsAtFirstAnswer(answers: seq<Attempt<ProfileAnswer>>, attempts: nat)
    requires |answers| == MaxAttempts && attempts < MaxAttempts
    ensures var end := RetryFrom(answers, attempts, None, false);
      end.Settled? ==>
        && attempts < end.attempts <= MaxAttempts
        && (forall j | attempts <= j < end.attempts - 1 :: Skipped(answers, j))
        && answers[end.attempts - 1].Returned?
        && answers[end.attempts - 1] == Returned(ProfileAnswer(end.profile, end.error))
        && (end.attempts < MaxAttempts ==> end.profile.Some? || end.error)
    decreases MaxAttempts - attempts
  {
    match answers[attempts]
    case Raised =>
    case Returned(a) =>
      if a.data.None? && !a.error && attempts + 1 < MaxAttempts {
        RetryStopsAtFirstAnswer(answers, attempts + 1);
      }
  }

  predicate Skipped(answers: seq<Attempt<ProfileAnswer>>, j: nat)
    requires j < |answers|
  {
    answers[j].Returned? && answers[j].value.data.None? && !answers[j].value.error
  }

  /** A query that throws on attempt k + 1, after k empty answers, ends the loop at once. */
  lemma RetryThrowsOnlyOnRaise(answers: seq<Attempt<ProfileAnswer>>)
    requires |answers| == MaxAttempts
    ensures Retry(answers).Threw? <==>
      exists k | 0 <= k < MaxAttempts :: answers[k].Raised? && forall j | 0 <= j < k :: Skipped(answers, j)
  {
    if answers[0].Raised? {
      assert Retry(answers).Threw?;
    } else if !Skipped(answers, 0) {
      assert !Retry(answers).Threw?;
    } else if answers[1].Raised? {
      assert Retry(answers).Threw? && answers[1].Raised? && Skipped(answers, 0);
    } else if !Skipped(answers, 1) {
      assert !Retry(answers).Threw?;
    } else {
      assert Skipped(answers, 0) && Skipped(answers, 1);
      assert Retry(answers).Threw? <==> answers[2].Raised?;
    }
  }

  // ---------------------------------------------------------------------------------
  // The guard's rules.

  /** `/admin*` (not `/admin/login*`) without a session goes to the admin login, remembering the path. */
  lemma AdminNeedsSession(p: string, adminLookup: Attempt<ProfileAnswer>, superAnswers: seq<Attempt<ProfileAnswer>>)
    requires |superAnswers| == MaxAttempts && AdminArea(p)
    ensures Route(p, false, adminLookup, superAnswers) == Redirect("/admin/login", Some(p))
  {
  }

  /** Signed in on `/admin*`, a failed, empty or throwing profile lookup lets the request through. */
  lemma AdminFailsOpen(p: string, adminLookup: Attempt<ProfileAnswer>, superAnswers: seq<Attempt<ProfileAnswer>>)
    requires |superAnswers| == MaxAttempts && AdminArea(p)
    requires adminLookup.Raised? || adminLookup.value.error || adminLookup.value.data.None?
    ensures Route(p, true, adminLookup, superAnswers) == Next
  {
  }

  /** The role rules on `/admin*` for a profile that was found. */
  lemma AdminRoleRules(p: string, role: Option<string>, superAnswers: seq<Attempt<ProfileAnswer>>)
    requires |superAnswers| == MaxAttempts && AdminArea(p)
    ensures var d := Route(p, true, Returned(ProfileAnswer(Some(Profile(role)), false)), superAnswers);
      && (role == Some("specialist") ==>
            d == if StartsWith(p, "/admin/reservas-especialista") then Next
                 else Redirect("/admin/reservas-especialista", None))
      && (role == Some("receptionist") ==>
            d == if StartsWith(p, "/admin/configuracion") then Redirect("/admin/dashboard", None) else Next)
      && (role == Some("business_owner") ==> d == Next)
      && (!AdminRole(role) ==> d == Redirect("/reservas", None))
  {
    PrefixesClash(p, "/admin", "/super-admin", 1);
    PrefixesClash(p, "/admin", "/mis-reservas", 1);
  }

  /** `/super-admin*` without a session goes to the login page, remembering the path. */
  lemma SuperAdminNeedsSession(p: string, adminLookup: Attempt<ProfileAnswer>, superAnswers: seq<Attempt<ProfileAnswer>>)
    requires |superAnswers| == MaxAttempts && SuperAdminArea(p)
    ensures Route(p, false, adminLookup, superAnswers) == Redirect("/login", Some(p))
  {
    PrefixesClash(p, "/super-admin", "/admin", 1);
  }

  /**
   * Signed in on `/super-admin*`, the request passes exactly when the loop settled on a
   * profile without error whose normalised role is 'admin'; otherwise it goes to `/reservas`.
   */
  lemma SuperAdminFailsClosed(p: string, adminLookup: Attempt<ProfileAnswer>, superAnswers: seq<Attempt<ProfileAnswer>>)
    requires |superAnswers| == MaxAttempts && SuperAdminArea(p)
    ensures var end := Retry(superAnswers);
      var d := Route(p, true, adminLookup, superAnswers);
      && (d == Next <==> end.Settled? && !end.error && end.profile.Some?
                         && NormalizeRole(end.profile.value.role) == Some("admin"))
      && (d != Next ==> d == Redirect("/reservas", None))
  {
    PrefixesClash(p, "/super-admin", "/admin", 1);
    PrefixesClash(p, "/super-admin", "/mis-reservas", 1);
  }

  /** `/mis-reservas*` without a session goes to the login page, remembering the path. */
  lemma CustomerAreaNeedsSession(p: string, adminLookup: Attempt<ProfileAnswer>, superAnswers: seq<Attempt<ProfileAnswer>>)
    requires |superAnswers| == MaxAttempts && StartsWith(p, "/mis-reservas")
    ensures Route(p, false, adminLookup, superAnswers) == Redirect("/login", Some(p))
  {
    PrefixesClash(p, "/mis-reservas", "/admin", 1);
    PrefixesClash(p, "/mis-reservas", "/super-admin", 1);
  }

  /** Any path containing `/reservar` outside the admin areas needs a session. */
  lemma BookingNeedsSession(p: string, adminLookup: Attempt<ProfileAnswer>, superAnswers: seq<Attempt<ProfileAnswer>>)
    requires |superAnswers| == MaxAttempts && Includes(p, "/reservar")
    requires !AdminArea(p) && !SuperAdminArea(p)
    ensures Route(p, false, adminLookup, superAnswers) == Redirect("/login", Some(p))
  {
  }

  /** Outside the two admin areas a signed-in request always passes. */
  lemma SessionPassesPublicRoutes(p: string, adminLookup: Attempt<ProfileAnswer>, superAnswers: seq<Attempt<ProfileAnswer>>)
    requires |superAnswers| == MaxAttempts && !AdminArea(p) && !SuperAdminArea(p)
    ensures Route(p, true, adminLookup, superAnswers) == Next
  {
  }

  /** A request no rule matches passes through unchanged. */
  lemma UnmatchedPasses(p: string, session: bool, adminLookup: Attempt<ProfileAnswer>, superAnswers: seq<Attempt<ProfileAnswer>>)
    requires |superAnswers| == MaxAttempts
    requires !AdminArea(p) && !SuperAdminArea(p) && !StartsWith(p, "/mis-reservas") && !Includes(p, "/reservar")
    ensures Route(p, session, adminLookup, superAnswers) == Next
  {
  }

  /** Every redirect the guard issues targets one of five fixed pages. */
  lemma RedirectTargets(p: string, session: bool, adminLookup: Attempt<ProfileAnswer>, superAnswers: seq<Attempt<ProfileAnswer>>)
    requires |superAnswers| == MaxAttempts
    ensures var d := Route(p, session, adminLookup, superAnswers);
      d.Redirect? ==>
        && d.path in {"/admin/login", "/login", "/reservas", "/admin/dashboard", "/admin/reservas-especialista"}
        && (d.redirectParam.Some? <==> d.path in {"/admin/login", "/login"})
        && (d.redirectParam.Some? ==> d.redirectParam == Some(p))
  {
  }
}

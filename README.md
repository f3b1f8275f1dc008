# OnTurn booking core, modelled in Dafny

OnTurn is a multi-tenant booking app. Businesses publish opening hours and customers book
time slots with them. Staff then move each booking through
pending → confirmed → in hall → in progress → completed, or cancel it.

This project models the logic of the app's core and proves what that logic promises:

- **the slot engine** (`getAvailableSlots`): which `HH:mm` starts a day offers;
- **the route guard** (`middleware`): who may enter the admin, super-admin, customer and booking pages;
- **the login redirect** (`useAuth().login`) and the hook's role flags;
- **tenant approval**: slugs, the unique-slug loop, and the writes an approval or a rejection issues;
- **the two setup scripts**: the `.env` parser they share, credential copying, and the setup check;
- **the customer's lists**: the tabs of "mis reservas" and the "next three" card;
- **the staff pages**: the owner's dashboard, the specialist's desk, users, business settings and specialties;
- **the public header's** colour and buttons, and **the profile page's** form and password checks.

Each source file becomes one module:

- pure logic becomes functions and lemmas;
- code that updates page state becomes a class whose methods are proved against those functions;
- loops stay loops, with their invariants;
  - the slot walk;
  - the super-admin retry;
  - the unique-slug search;
  - the `.env` line loop;
  - the setup check's `forEach` loops;
  - the weekly-hours map;
  - the hours save loop.

Calls to Supabase (auth, tables, RPC) and to the clock are not made. They are inputs:

- each query's answer is a parameter, as `Attempt` (`Raised` or `Returned`) or `Option`;
- a write that may fail takes an `ok` flag;
- "now" is a number.

Times in the slot engine are minutes from midnight of the requested date. "Now" is in milliseconds
from that midnight, and `None` means the requested date is not today.

Shared modules:

- `Common`: `Option`, `Attempt` and the `??` fallback;
- `JsString`: the JavaScript string operations the code relies on;
  - `startsWith`, `includes`, `trim`;
  - `toLowerCase` on ASCII;
  - decimal `String(n)` and `parseInt`;
  - `a || b`;
- `AppointmentStatus`: the status names;
- `Roles`: role normalisation.

Behaviour of the code worth knowing:

- **Past dates get slots.** `getAvailableSlots` only drops past slots when the requested date is
  today (`appointments.ts:220-223`). On a date already gone, every free grid point is offered.
- **No error for a zero or missing slot duration.** `slot_duration || 30` turns 0 and null into 30
  (`appointments.ts:132-138`); the code raises nothing. A negative duration would make the slot loop
  run forever, so `GetAvailableSlots` requires a positive effective duration.
- **No error when closing is not after opening.** The loop's guard fails at once and the list
  is empty (`appointments.ts:210-216`).
- **The super-admin "retry" stops at the first answer.** Its loop condition
  (`middleware.ts:111-133`) ends on the first error or the first profile. It retries only after
  empty answers with no error. Modelled as written (`RouteGuard.RetryStopsAtFirstAnswer`).
- **The admin area compares roles raw.** `/admin*` checks the stored role as it is
  (`middleware.ts:71-89`). Only the super-admin branch and login trim and lower-case it.

## Model

| member | source | states |
|---|---|---|
| AppointmentStatus.FromName | types/appointment.ts:4 | Reading a stored status text succeeds only for a text that is that status's name |
| AppointmentStatus.NameRoundTrip | types/appointment.ts:4 | Every one of the seven statuses reads back from its stored name, so the names are distinct |
| Roles.NormalizeIgnoresPadding | middleware.ts:144 | Surrounding white space never changes a normalised role |
| Roles.NormalizeFoldsCase | hooks/useAuth.ts:250 | A stored "ADMIN" normalises to "admin"; an empty role normalises to null |
| Roles.NormalizeIgnoresCase | hooks/useAuth.ts:250 | For every stored role, lower-casing it first does not change its normalised form |
| JsString.TrimLower | hooks/useAuth.ts:250 | `trim()` and `toLowerCase()` commute, so the order of the two calls does not matter |
| JsString.TrimStartShape | hooks/useAuth.ts:250 | trimStart removes exactly a leading run of white space and leaves a suffix not starting with white space |
| JsString.TrimEndShape | app/admin/especialidades/page.tsx:97 | trimEnd removes exactly a trailing run of white space and leaves a prefix not ending with white space |
| JsString.TrimEmpty | app/admin/especialidades/page.tsx:84 | `s.trim()` is empty exactly when every character of s is white space |
| JsString.TrimPadded | hooks/useAuth.ts:250 | One space more on either side never changes what trim returns |
| JsString.ToLower | app/mis-reservas/page.tsx:80-81 | `toLowerCase` keeps the length and lowers each character on its own |
| JsString.NatToStringInjective | app/super-admin/solicitudes/page.tsx:114 | Distinct numbers print as distinct decimal texts |
| JsString.IntToStringRoundTrip | app/admin/configuracion/page.tsx:114 | `parseInt(String(i))` gives back i for every integer i |
| JsString.ParseIntNoDigits | app/admin/especialidades/page.tsx:260 | `parseInt` of a text with no digit in it is NaN |
| Availability.SlotDuration | lib/services/appointments.ts:132-138 | The slot length is the stored duration; it is 30 when that is null or 0; it is positive exactly when the stored value is not negative |
| Availability.RowsFor | lib/services/appointments.ts:155-160 | The hours rows kept are exactly those of the requested weekday |
| Availability.DayHours | lib/services/appointments.ts:155-160 | `.single()` yields only a row of the requested weekday, and null when the table has none for it |
| Availability.DayHoursSingle | lib/services/appointments.ts:155-160 | With exactly one row for the weekday, `.single()` returns that row |
| Availability.DayHoursAmbiguous | lib/services/appointments.ts:155-160 | With two or more rows for the weekday, `.single()` fails and the day reads as having no hours |
| Availability.Blocking | lib/services/appointments.ts:171-183 | The blocking intervals are exactly the pending or confirmed bookings of that day, of the chosen specialist under a specialist filter |
| Availability.FormatRoundTrip | lib/services/appointments.ts:234-236 | Within a day, a start's `HH:mm` label reads back as the same minute |
| Availability.FormatInjective | lib/services/appointments.ts:234-236 | Distinct starts within a day have distinct labels |
| Availability.Render | lib/services/appointments.ts:234-236 | The slot list has one `HH:mm` label per start, in the same order |
| Availability.GetAvailableSlots | lib/services/appointments.ts:125-247 | The method returns the slot list of its specification. That list is empty on a failed read, a missing or closed day, or missing hours. Otherwise it is the labels of the slot walk from open to close |
| Availability.SlotLoop | lib/services/appointments.ts:186-241 | The while loop emits the labels of exactly the grid starts the specification walk emits, in order |
| Availability.StartsSound | lib/services/appointments.ts:210-236 | An emitted start is a grid point from open, ends by closing time, is not past and overlaps no booking |
| Availability.StartsComplete | lib/services/appointments.ts:210-236 | Every grid point that ends by closing time and is neither past nor occupied is emitted |
| Availability.StartsExactly | lib/services/appointments.ts:186-241 | Both directions: a start is emitted exactly when it is on the grid, fits before close, and is free and not past |
| Availability.StartsIncreasing | lib/services/appointments.ts:186-241 | Emitted starts are strictly increasing, so no slot is listed twice |
| Availability.ClosedDayNoSlots | lib/services/appointments.ts:162-164 | A missing row, a closed day or a missing open or close time gives no slots at all |
| Availability.SlotsWithinHours | lib/services/appointments.ts:196-216 | Every start lies at or after opening time, and its slot ends by closing time |
| Availability.ClosingBoundary | lib/services/appointments.ts:210-216 | A free slot ending exactly at closing is offered; one ending after closing never is |
| Availability.NoDoubleBooking | lib/services/appointments.ts:226-232 | No offered slot overlaps a pending or confirmed booking the query selected |
| Availability.NoPastSlots | lib/services/appointments.ts:220-223 | On today's date no offered start lies before now |
| Availability.PastSkipKeepsLaterSlots | lib/services/appointments.ts:220-223 | The past check removes nothing at or after now: such starts are offered with or without it |
| Availability.SlotsInGridOrder | lib/services/appointments.ts:186-241 | The slots come in strictly increasing order, each at open plus a whole number of durations |
| Availability.OnlyHeldBookingsBlock | lib/services/appointments.ts:175-181 | A slot is blocked only by an overlapping pending or confirmed booking, of the chosen specialist when filtered |
| Availability.AdjacentBookingsDoNotBlock | lib/services/appointments.ts:226-232 | A booking ending exactly at a slot's start, or starting at its end, does not block it |
| Availability.StartsAfterBusy | lib/services/appointments.ts:226-232 | Bookings that end by the current grid point block nothing from it on |
| Availability.MorningFreeDay | lib/services/appointments.ts:186-241 | A free 09:00–13:00 day with 30-minute slots lists 09:00, 09:30, … 12:30, the last ending at 13:00 |
| Availability.MorningAtQuarterPastTen | lib/services/appointments.ts:220-223 | At 10:15 on that day the slots from 10:30 on remain |
| Availability.MorningOneBooking | lib/services/appointments.ts:226-232 | A pending 09:30–10:00 booking removes only the 09:30 slot |
| Availability.MorningOverlappingBookings | lib/services/appointments.ts:226-232 | Overlapping bookings 09:00–09:45 and 09:30–10:15 leave 10:30 as the first slot |
| Availability.ShortDayNoSlot | lib/services/appointments.ts:210-216 | A 20-minute opening with 30-minute slots offers nothing |
| RouteGuard.Middleware | middleware.ts:40-181 | The handler, with its retry loop run step by step, makes the decision its rule-by-rule specification gives |
| RouteGuard.RetryStopsAtFirstAnswer | middleware.ts:111-133 | The loop ends at the first error or profile. Every earlier attempt was an empty answer without error. It runs at most three attempts |
| RouteGuard.RetryThrowsOnlyOnRaise | middleware.ts:111-133 | Both directions: the loop throws exactly when a lookup throws after only empty answers |
| RouteGuard.AdminNeedsSession | middleware.ts:47-52 | `/admin*` other than `/admin/login*` without a session redirects to the admin login with the path remembered |
| RouteGuard.AdminFailsOpen | middleware.ts:65-68 | Signed in on `/admin*`, a failed, empty or throwing profile lookup lets the request through |
| RouteGuard.AdminRoleRules | middleware.ts:71-89 | A specialist is kept to the specialist desk; a receptionist is kept out of settings; an owner passes; any other role goes to `/reservas` |
| RouteGuard.SuperAdminNeedsSession | middleware.ts:97-103 | `/super-admin*` without a session redirects to the login with the path remembered |
| RouteGuard.SuperAdminFailsClosed | middleware.ts:106-162 | Both directions: a signed-in request passes exactly when the loop found a profile whose normalised role is admin; otherwise it goes to `/reservas` |
| RouteGuard.CustomerAreaNeedsSession | middleware.ts:165-170 | `/mis-reservas*` without a session redirects to the login with the path remembered |
| RouteGuard.BookingNeedsSession | middleware.ts:173-178 | Any other path containing `/reservar` needs a session |
| RouteGuard.SessionPassesPublicRoutes | middleware.ts:165-180 | Outside the two admin areas a signed-in request always passes |
| RouteGuard.UnmatchedPasses | middleware.ts:180 | A request no rule matches passes whatever the session |
| RouteGuard.RedirectTargets | middleware.ts:40-181 | Every redirect goes to one of five pages, and only the two login pages carry the original path |
| LoginRouting.Fallback | hooks/useAuth.ts:206 | The default target is the given redirect when it is non-empty, else `/reservas` |
| LoginRouting.SignInErrorRethrown | hooks/useAuth.ts:195-199 | A sign-in error is rethrown and nothing is redirected |
| LoginRouting.SuccessHasNoUserType | hooks/useAuth.ts:311 | Every successful login resolves for the signed-in user with `userType: null` |
| LoginRouting.RoleOverridesRedirect | hooks/useAuth.ts:258-273 | A known normalised role decides the target, whatever redirect the caller gave |
| LoginRouting.RoleHomes | hooks/useAuth.ts:258-273 | The four role pages; exactly admin, business owner, specialist and receptionist have one |
| LoginRouting.FallbackCases | hooks/useAuth.ts:243-284 | A lookup error, a timeout, a missing profile or an unknown role falls back to the redirect or `/reservas` |
| LoginRouting.NullRoleFallsBack | hooks/useAuth.ts:250 | A null or empty role counts as unknown |
| LoginRouting.RedirectTargets | hooks/useAuth.ts:206-284 | The target is always a role page or the fallback |
| LoginRouting.AuthenticatedIffUser | hooks/useAuth.ts:331 | Both directions: `isAuthenticated` holds exactly when there is a user |
| LoginRouting.AtMostOneRoleFlag | hooks/useAuth.ts:332-336 | At most one role flag is set, and exactly one when the user type is one of the five |
| TenantApproval.StripMarks | app/super-admin/solicitudes/page.tsx:97-102 | Removing combining marks keeps exactly the characters that are not marks |
| TenantApproval.SlugWellFormed | app/super-admin/solicitudes/page.tsx:97-102 | Every slug has only `a-z`, `0-9` and single inner dashes, with no dash at either end |
| TenantApproval.SlugKeepsLettersAndDigits | app/super-admin/solicitudes/page.tsx:97-102 | The slug keeps every letter and digit of the lower-cased, mark-free name, in order |
| TenantApproval.CollapseShape | app/super-admin/solicitudes/page.tsx:100 | Replacing runs of other characters leaves no two dashes in a row, and keeps whether the text starts with a slug character |
| TenantApproval.CandidateInjective | app/super-admin/solicitudes/page.tsx:114 | Distinct counters give distinct candidate slugs |
| TenantApproval.TriedShape | app/super-admin/solicitudes/page.tsx:105-117 | The first n candidates are n distinct names, and no later candidate is among them |
| TenantApproval.UniqueSlug | app/super-admin/solicitudes/page.tsx:105-117 | The loop returns the first candidate (base, base-1, base-2, …) that no business uses |
| TenantApproval.FreeBaseKept | app/super-admin/solicitudes/page.tsx:105-117 | A free base slug is used unchanged |
| TenantApproval.TakenBaseSuffixed | app/super-admin/solicitudes/page.tsx:105-117 | A taken base gets `base-k` for the least free k of at least 1 |
| TenantApproval.FirstFreeUnique | app/super-admin/solicitudes/page.tsx:105-117 | The first free slug is determined by the base and the slugs in use |
| TenantApproval.HandleApprove | app/super-admin/solicitudes/page.tsx:81-165 | Without confirmation or a fetched request nothing is written. Otherwise the writes are the insert with the first free slug, then its follow-up |
| TenantApproval.ApprovedBusinessDefaults | app/super-admin/solicitudes/page.tsx:119-139 | The new business is active, allows 5 users, uses the slug, belongs to the applicant, and takes the business email or else the applicant's |
| TenantApproval.PromotionOnlyWithApplicant | app/super-admin/solicitudes/page.tsx:142-147 | Both directions: the applicant is promoted exactly when the insert succeeded and the request names a user |
| TenantApproval.ApprovalMarksRequest | app/super-admin/solicitudes/page.tsx:150-159 | After a successful insert the last write marks the request approved by the signed-in super-admin, or by nobody |
| TenantApproval.FailedInsertStops | app/super-admin/solicitudes/page.tsx:137-139 | A failed insert writes nothing after it |
| TenantApproval.HandleReject | app/super-admin/solicitudes/page.tsx:169-184 | Without a reason nothing is written; with one, the request is marked rejected by the signed-in super-admin with that reason |
| TenantApproval.DecisionsMovePendingOnly | app/super-admin/solicitudes/page.tsx:370-379 | A pending request ends approved only after a successful insert, rejected only with a reason, and otherwise stays pending |
| EnvFile.Split | scripts/verify-setup.js:31-34 | `split` gives at least one piece and no piece holds the separator |
| EnvFile.JoinSplit | scripts/copy-supabase-credentials.js:28-30 | Joining the pieces of a split gives the text back |
| EnvFile.SplitJoin | scripts/copy-supabase-credentials.js:67-73 | Splitting the join of separator-free pieces gives those pieces back |
| EnvFile.StripQuotes | scripts/verify-setup.js:37 | At most one quote is removed from each end, and the rest of the value is kept in order |
| EnvFile.BlankAndCommentLines | scripts/verify-setup.js:32-33 | Blank lines and lines whose trimmed text starts with `#` define nothing |
| EnvFile.ParseAtFirstEquals | scripts/verify-setup.js:34-38 | A line splits at its first `=`; later `=` signs stay in the value |
| EnvFile.NoKeyNoEntry | scripts/verify-setup.js:34-35 | A line with no `=`, or nothing before its first `=`, defines nothing |
| EnvFile.EmptyValue | scripts/verify-setup.js:34-38 | `KEY=` defines KEY as the empty string |
| EnvFile.CommentLine | scripts/copy-supabase-credentials.js:26-27 | A line whose first character is `#` is a comment |
| EnvFile.AssignmentLine | scripts/verify-setup.js:34-38 | `KEY=value` with a plain key and value defines exactly that key as that value |
| EnvFile.Entries | scripts/verify-setup.js:31-40 | Each line yields what parsing it alone yields |
| EnvFile.ParseEnv | scripts/verify-setup.js:31-41 | The loop builds the dictionary its fold specification gives for the file's lines |
| EnvFile.LastDefinitionWins | scripts/verify-setup.js:38 | A key holds the value of its last definition |
| EnvFile.DefinedKeys | scripts/verify-setup.js:31-41 | Both directions: a key is defined exactly when some line defines it |
| EnvFile.StoredValueFromEntry | scripts/verify-setup.js:31-41 | Every stored value is the value some line gave that key |
| EnvFile.ValuesHaveNoNewline | scripts/copy-supabase-credentials.js:25-36 | No parsed value contains a newline |
| EnvFile.ParsedValueInLine | scripts/copy-supabase-credentials.js:28-33 | A parsed value is made of characters of its own line |
| CredentialCopy.Pick | scripts/copy-supabase-credentials.js:48-50 | The `VITE_` name wins when it is non-empty, else the plain name |
| CredentialCopy.GeneratedLines | scripts/copy-supabase-credentials.js:67-73 | The template has seven lines, the last one empty |
| CredentialCopy.Outcome | scripts/copy-supabase-credentials.js:21-86 | An unreadable file fails first. Then the run aborts exactly when the URL or key is missing. Otherwise the picked values are written, and a failed write is reported as such |
| CredentialCopy.CopyCredentials | scripts/copy-supabase-credentials.js:21-86 | The script's run ends with the outcome of its specification on the parsed file and exits 0 only after a successful write |
| CredentialCopy.GeneratedSplit | scripts/copy-supabase-credentials.js:67-77 | Splitting the generated text into lines gives the seven template lines back |
| CredentialCopy.TemplateCommentsDefineNothing | scripts/copy-supabase-credentials.js:67-73 | The header, stamp and blank lines, and the commented VAPID placeholder, define nothing |
| CredentialCopy.TemplateAssignments | scripts/copy-supabase-credentials.js:70-72 | The assignment lines define each new name as the value given |
| CredentialCopy.GeneratedRoundTrip | scripts/copy-supabase-credentials.js:67-77 | Parsing the generated file gives back the URL, the key and, when set, the VAPID key |
| CredentialCopy.MissingCredentialsAbort | scripts/copy-supabase-credentials.js:52-56 | A missing URL or key aborts with nothing written |
| CredentialCopy.WrittenFileCarriesCredentials | scripts/copy-supabase-credentials.js:48-86 | What the parser reads from the written file is exactly the credentials picked from the source |
| SetupCheck.CheckVars | scripts/verify-setup.js:44-58 | The loop pushes, in order, the errors and warnings of its specification |
| SetupCheck.CheckPaths | scripts/verify-setup.js:69-104 | The loop appends one error per missing folder or file, in list order |
| SetupCheck.VerifySetup | scripts/verify-setup.js:12-128 | The script reports its specification's errors and warnings, and exits 1 exactly when there is an error |
| SetupCheck.RequiredVarRules | scripts/verify-setup.js:44-58 | Both directions, per variable: not configured, the URL not starting with `http`, the key not starting with `eyJ` (a warning only) |
| SetupCheck.UrlVerdict | scripts/verify-setup.js:46-51 | The URL fails as not configured or as not a URL, or passes; it never only warns |
| SetupCheck.KeyVerdict | scripts/verify-setup.js:46-56 | The key fails as not configured, warns about its format, or passes |
| SetupCheck.MissingExactly | scripts/verify-setup.js:69-85 | Both directions: a path is reported exactly when it is required and absent |
| SetupCheck.MissingPathsReported | scripts/verify-setup.js:69-104 | Each required folder and file is reported exactly when it is absent, with the folder or file kind |
| SetupCheck.MissingKinds | scripts/verify-setup.js:69-104 | The folder check reports only folders and the file check only files |
| SetupCheck.VarErrorKinds | scripts/verify-setup.js:44-58 | The variable checks' errors are only "not configured" or "not a URL" |
| SetupCheck.MissingEnvFileFails | scripts/verify-setup.js:21-23 | Without `.env.local` the report opens with that error and its hint, with no warnings |
| SetupCheck.KeyFormatOnlyWarns | scripts/verify-setup.js:52-53 | A key of the wrong shape is a warning only; with all else in place the run exits 0 |
| SetupCheck.CompleteLayoutNoPathErrors | scripts/verify-setup.js:69-104 | With every folder and file present the path checks report nothing |
| SetupCheck.WellFormedCredentials | scripts/verify-setup.js:44-58 | A URL starting with `http` and a key starting with `eyJ` draw neither errors nor warnings |
| SetupCheck.GeneratedFilePasses | scripts/copy-supabase-credentials.js:67-73 | A `.env.local` written by the copy script with good credentials passes the setup check |
| AppointmentLists.Filter | app/mis-reservas/page.tsx:66-74 | A filter keeps exactly the elements satisfying the predicate |
| AppointmentLists.FilterIsSubsequence | app/mis-reservas/page.tsx:66-86 | A filter keeps its input's order |
| AppointmentLists.FilterSubMultiset | app/mis-reservas/page.tsx:66-86 | A filter never takes an element more often than the input holds it |
| AppointmentLists.UpcomingHistoryDisjoint | app/mis-reservas/page.tsx:66-74 | No appointment is under both tabs |
| AppointmentLists.InNeitherTab | app/mis-reservas/page.tsx:66-74 | Both directions: the appointments in neither tab are exactly those not finished, not past and not holding a slot |
| AppointmentLists.FutureInHallInNeither | app/mis-reservas/page.tsx:66-74 | A future appointment already in the hall shows in neither tab |
| AppointmentLists.FilterAppointmentsKeeps | app/mis-reservas/page.tsx:77-87 | The filter keeps, in order, exactly the appointments matching both the search and the status |
| AppointmentLists.NoFilterKeepsAll | app/mis-reservas/page.tsx:77-87 | An empty search under 'all' keeps the whole list |
| AppointmentLists.SearchIgnoresCase | app/mis-reservas/page.tsx:79-81 | Queries that lower-case alike select alike |
| AppointmentLists.TabCountsIgnoreFilters | app/mis-reservas/page.tsx:146-149 | The tab counts do not depend on the search or status filter, and each bounds its filtered list |
| AppointmentLists.SortByTime | components/reservas/UpcomingAppointments.tsx:37-41 | The sort gives a permutation of its input in ascending time |
| AppointmentLists.InsertSorted | components/reservas/UpcomingAppointments.tsx:37-41 | Insertion keeps a time-sorted list sorted |
| AppointmentLists.NextThreeSorted | components/reservas/UpcomingAppointments.tsx:32-42 | The card shows at most three appointments, in ascending time |
| AppointmentLists.NextThreeQualify | components/reservas/UpcomingAppointments.tsx:32-42 | Each shown appointment is upcoming and taken from the list, never more often than it is there |
| AppointmentLists.NextThreeEarliest | components/reservas/UpcomingAppointments.tsx:32-42 | No upcoming appointment left off the card is earlier than a shown one |
| AppointmentLists.NextThreeAllWhenFew | components/reservas/UpcomingAppointments.tsx:32-42 | With three or fewer upcoming appointments the card shows all of them |
| Dashboard.Targets | app/admin/dashboard/page.tsx:209-224 | The statuses some button leads to, exactly |
| Dashboard.Transitions | app/admin/dashboard/page.tsx:209-224 | pending goes to cancelled or confirmed, then in hall, in progress and completed; nothing moves on from completed, cancelled or no-show |
| Dashboard.TransitionsMoveForward | app/admin/dashboard/page.tsx:209-224 | Every button moves a booking strictly forward, so no status comes back |
| Dashboard.BadgeCases | app/admin/dashboard/page.tsx:132-142 | Both directions: a badge is slate exactly for an unknown status, shown as written; the six known ones have distinct colours |
| Dashboard.SetStatusChangesOnlyMatching | app/admin/dashboard/page.tsx:100 | The update changes the status of the bookings with that id and nothing else |
| Dashboard.SetStatusIdempotent | app/admin/dashboard/page.tsx:100 | Applying the same update twice is applying it once |
| Dashboard.SetStatusCommutes | app/admin/dashboard/page.tsx:100 | Updates of two different bookings commute |
| Dashboard.LoadPlan | app/admin/dashboard/page.tsx:66-96 | Bookings load for the first business when there is one. An owner without a business gets the alert, and anyone else gets nothing |
| Dashboard.DashboardPage.UpdateStatus | app/admin/dashboard/page.tsx:98-107 | The list changes optimistically and the write is issued; on failure the list is the reloaded one |
| Dashboard.DashboardPage.FinishBooking | app/admin/dashboard/page.tsx:109-112 | It selects the booking and opens the results modal |
| Dashboard.DashboardPage.SaveResults | app/admin/dashboard/page.tsx:114-130 | It writes `completed` with the notes. Unless the call throws, it then marks the booking completed and clears the modal; if it throws, the state stays. The write's returned `error` is never read, so a write the database refuses still marks the booking completed. Nothing happens without a selection |
| SpecialistDesk.SpecialistIds | app/admin/reservas-especialista/page.tsx:93-101 | The ids are exactly those of the active specialists of the specialty |
| SpecialistDesk.Query | app/admin/reservas-especialista/page.tsx:109-126 | The query returns exactly the table's rows of those specialists that pass the status filter |
| SpecialistDesk.SeesExactlyOwnSpecialty | app/admin/reservas-especialista/page.tsx:62-134 | Both directions: the desk lists exactly the bookings of its specialty's active specialists that pass the filter |
| SpecialistDesk.NoSpecialistsShortcutAgrees | app/admin/reservas-especialista/page.tsx:103-106 | Skipping the query when there are no specialists shows what the query would |
| SpecialistDesk.AllFilterKeepsEveryStatus | app/admin/reservas-especialista/page.tsx:122-124 | Under 'all' no booking of the specialty is hidden |
| SpecialistDesk.StatusFilterNarrows | app/admin/reservas-especialista/page.tsx:122-124 | Any other filter lists only bookings with that status |
| SpecialistDesk.DetailsButtonAgrees | app/admin/reservas-especialista/page.tsx:333-350 | Both directions: the details button shows exactly where opening details is allowed, and start only on confirmed |
| SpecialistDesk.NotesRoundTrip | app/admin/reservas-especialista/page.tsx:156-162 | Shown, then stored, notes survive a save, with an empty field stored as null |
| SpecialistDesk.DeskPage.Reload | app/admin/reservas-especialista/page.tsx:62-134 | The list becomes the loaded rows, or stays as it was when the load alerts |
| SpecialistDesk.DeskPage.OpenDetails | app/admin/reservas-especialista/page.tsx:181-190 | The modal opens, filled from the booking, exactly for in-progress or completed bookings; otherwise nothing changes |
| SpecialistDesk.DeskPage.StartAppointment | app/admin/reservas-especialista/page.tsx:136-149 | It writes only the status `in_progress` for the booking, leaving the stored notes untouched, and reloads only when the write succeeds |
| SpecialistDesk.DeskPage.CompleteAppointment | app/admin/reservas-especialista/page.tsx:151-179 | It writes `completed` with empty fields as null. On success it closes and clears the modal and reloads. Nothing happens without a selection |
| TenantUsers.MaxUsers | app/admin/usuarios/page.tsx:78 | The limit is the stored one, or 5 when it is null or 0 |
| TenantUsers.Find | app/admin/usuarios/page.tsx:158 | The search finds a row exactly when one has that user id |
| TenantUsers.OfTenant | app/admin/usuarios/page.tsx:81-87 | The rows loaded are exactly the tenant's |
| TenantUsers.AdmitGuards | app/admin/usuarios/page.tsx:126-183 | Each refusal (no email, limit, no specialty, unknown user, already added, failed insert) happens exactly when its guard fails after the earlier ones pass, and the user is added exactly when every guard passes and the insert succeeds |
| TenantUsers.AdmitWithinLimit | app/admin/usuarios/page.tsx:132-135 | An admission never takes the tenant to more users than its limit |
| TenantUsers.AdmitKeepsUsersDistinct | app/admin/usuarios/page.tsx:157-162 | An admission never adds a user already in the tenant |
| TenantUsers.AdmittedRow | app/admin/usuarios/page.tsx:165-183 | The new row is an active member with the form's role and, only for specialists, the specialty. Only a specialist's profile is promoted |
| TenantUsers.Without | app/admin/usuarios/page.tsx:204-207 | Deleting keeps exactly the rows with a different id |
| TenantUsers.RemovalKeepsUsersDistinct | app/admin/usuarios/page.tsx:198-216 | Removal keeps users distinct and never grows the tenant |
| TenantUsers.OwnRowNotRemovable | app/admin/usuarios/page.tsx:363 | Both directions: the remove button is missing exactly on the signed-in user's own row |
| TenantUsers.UsersPage.Load | app/admin/usuarios/page.tsx:66-124 | Loading takes the first business and its limit and the tenant's rows; without a business nothing changes |
| TenantUsers.UsersPage.ChooseRole | app/admin/usuarios/page.tsx:284-291 | Choosing a role other than specialist clears the chosen specialty |
| TenantUsers.UsersPage.AddUser | app/admin/usuarios/page.tsx:126-196 | The outcome is the admission decision; an admitted member is appended and the form is reset |
| TenantUsers.UsersPage.RemoveUser | app/admin/usuarios/page.tsx:198-216 | A confirmed, successful delete removes the row; otherwise the rows stay |
| BusinessConfig.DaysOfWeekCoverWeek | app/admin/configuracion/page.tsx:15-23 | The editor lists each day 0–6 once, Monday first and Sunday last |
| BusinessConfig.FindDay | app/admin/configuracion/page.tsx:96 | The search finds the first row of that day, and finds one exactly when one exists |
| BusinessConfig.BuildHours | app/admin/configuracion/page.tsx:94-103 | The loop builds the hours map of its specification |
| BusinessConfig.LoadedHoursCoverWeek | app/admin/configuracion/page.tsx:94-102 | Every weekday has an entry: 09:00–18:00 open when the day has no row, else the row's values with the same defaults |
| BusinessConfig.HoursMapKeys | app/admin/configuracion/page.tsx:94-102 | Only the seven weekdays get entries |
| BusinessConfig.UpdateChangesOneField | app/admin/configuracion/page.tsx:216-224 | An edit changes only the named field of the named day |
| BusinessConfig.UpdateToSameValue | app/admin/configuracion/page.tsx:216-224 | Setting a field to its present value changes nothing |
| BusinessConfig.PlanOnePerDay | app/admin/configuracion/page.tsx:147-179 | With every day present, the save issues exactly one write per day, in editor order |
| BusinessConfig.WriteForCases | app/admin/configuracion/page.tsx:151-178 | A day with a stored row updates it in place; a day without one inserts a row for this business |
| BusinessConfig.SaveHours | app/admin/configuracion/page.tsx:147-179 | The loop issues the planned writes in order and stops at the first refused one, reporting failure exactly then |
| BusinessConfig.NewSettingsDefaults | app/admin/configuracion/page.tsx:188-204 | A new settings row books 30 days ahead and reminds 24 hours before; both kinds of write store the parsed duration |
| BusinessConfig.ConfigPage.Load | app/admin/configuracion/page.tsx:65-122 | Loading takes the first business, builds the hours map and shows the stored duration or '30'; without a business nothing changes |
| BusinessConfig.ConfigPage.EditDay | app/admin/configuracion/page.tsx:216-224 | An edit updates the named field of the day and nothing else |
| BusinessConfig.ConfigPage.Save | app/admin/configuracion/page.tsx:124-214 | The business update comes first, then the hours, then the settings. The save succeeds exactly when none of them is refused |
| BusinessConfig.DurationRoundTrip | app/admin/configuracion/page.tsx:113-115 | Saving right after loading a stored duration stores that same duration |
| Specialties.StoredDescription | app/admin/especialidades/page.tsx:98 | A blank description is stored as null, any other one trimmed |
| Specialties.BlankNameRefused | app/admin/especialidades/page.tsx:84-87 | Both directions: nothing is written exactly when there is no business or the name is all white space |
| Specialties.StoredFields | app/admin/especialidades/page.tsx:92-115 | The write stores the trimmed name, the description rule and the duration, as an update when editing and an insert otherwise |
| Specialties.TrimmedEnds | app/admin/especialidades/page.tsx:97 | A stored name neither starts nor ends with white space |
| Specialties.TrimmedNameStable | app/admin/especialidades/page.tsx:97 | Saving again a name stored trimmed stores it unchanged |
| Specialties.NewSpecialtiesActive | app/admin/especialidades/page.tsx:107-115 | A new specialty belongs to the owner's business and is active |
| Specialties.DuplicateOnlyOnInsert | app/admin/especialidades/page.tsx:117-121 | Both directions: only an insert failing with code 23505 is reported as a duplicate |
| Specialties.DeleteDecision | app/admin/especialidades/page.tsx:149-182 | A delete happens only when the check found no specialist with the specialty |
| Specialties.DeleteGuard | app/admin/especialidades/page.tsx:155-167 | A referenced specialty is never deleted; a confirmed delete of an unreferenced one is issued |
| Specialties.Toggle | app/admin/especialidades/page.tsx:184-196 | Toggling keeps the number of rows |
| Specialties.ToggleFlips | app/admin/especialidades/page.tsx:184-196 | Toggling flips only that row's active flag |
| Specialties.DurationInput | app/admin/especialidades/page.tsx:260 | The duration typed is never 0: NaN and 0 fall back to 30, any other number is kept |
| Specialties.DurationTyped | app/admin/especialidades/page.tsx:260 | A typed non-zero number is taken as it is |
| Specialties.SpecialtiesPage.Edit | app/admin/especialidades/page.tsx:139-147 | Editing fills the form from the row, with a null description shown empty, and opens it |
| Specialties.SpecialtiesPage.Save | app/admin/especialidades/page.tsx:83-137 | The outcome is the save decision; on success the form closes and resets, otherwise it stays |
| HeaderContext.LightSpecialCases | components/shared/Header.tsx:53-69 | Without a path or with an empty one, on `/` and on the booking confirmation the header is not dark |
| HeaderContext.DarkRoutesAreDark | components/shared/Header.tsx:57-61 | Any other path under a dark route is dark |
| HeaderContext.OtherPathsDarkUnlessLight | components/shared/Header.tsx:65-76 | Both directions: outside the dark routes a non-empty path is dark exactly when it is not under a light route |
| HeaderContext.LightRoutesAreLight | components/shared/Header.tsx:65-76 | A light route and any path under it is not dark |
| HeaderContext.BusinessPageIsDark | components/shared/Header.tsx:53-76 | A business's own page such as `/clinica-sol`, under no known route, is dark |
| HeaderContext.ButtonRules | components/shared/Header.tsx:79-86 | Both directions: no back button exactly on `/`, and search exactly under `/reservas` except the confirmation |
| HeaderContext.Header | components/shared/Header.tsx:31-33 | Both directions: there is no header exactly on the admin and super-admin areas |
| HeaderContext.TextColor | components/shared/Header.tsx:102 | Scrolled, the text is dark; before scrolling it is white exactly on a dark page |
| ProfilePage.Utf16Length | app/perfil/page.tsx:100 | `length` counts a character outside the basic plane twice |
| ProfilePage.Utf16LengthBmp | app/perfil/page.tsx:100 | On basic-plane text `length` is the number of characters |
| ProfilePage.PasswordRules | app/perfil/page.tsx:95-103 | Both directions for each: a mismatch whatever the length, then too short under 6, else accepted |
| ProfilePage.MismatchBeforeLength | app/perfil/page.tsx:95-103 | A short mismatched pair is reported as a mismatch |
| ProfilePage.ProfileForm.Load | app/perfil/page.tsx:49-67 | A found profile fills the form with nulls shown empty; without one the fields stay |
| ProfilePage.ProfileForm.ChangePassword | app/perfil/page.tsx:91-117 | The password is sent exactly when the checks pass. Success clears both entries; failure keeps them with an error; a failed check shows its message |
| ProfilePage.ProfileForm.SaveProfile | app/perfil/page.tsx:69-89 | With a user it sends the form's name and phone and reports the result; without one nothing changes |

## Left out

- Time zones and `date-fns`: the slot engine works in minutes of the requested date, and "now" is an explicit input.
- Booking moments in the customer lists are numbers; `new Date(...)` of an invalid date text is a moment that is absent.
- `normalize('NFD')`: the Unicode decomposition is not modelled. The slug strips only the combining marks U+0300–U+036F it is given.
- `toLowerCase` is modelled on ASCII letters only.
- `parseInt`: only decimal text is modelled, with no hexadecimal prefix or radix.
- Supabase, auth and the browser: every query and write is an input, and nothing runs.
  - This covers cookies, the client set-up, `router.push` and `window.location`.
- The middleware's 100 ms pause between attempts, the login's profile timeout, `setTimeout` and any concurrency between React state updates: a timeout is a lookup that throws.
- React rendering, loading spinners, alerts, `confirm` dialogs and console output: only the decisions behind them are modelled.
- The order the database returns rows in (`order by` on date, time or day): rows arrive in the order given.
- AppointmentLists.SortByTime: stated as sorted and a permutation; the stability of `Array.prototype.sort` is not stated.
- The `reviewed_at` clock stamp of tenant approval is left out of the writes.
- The errors of the approval's promotion and status update only raise an alert; they are not modelled.
- The owner dashboard's reload after a failed status write is taken as an input (the reloaded list).
- The specialties page reloads its list after a write; that reload is not modelled.
- The users page's join with `profiles` for display is not modelled, nor is its specialty list.
- The specialist desk's specialty name lookup is display only and is not modelled.
- The configuration page's text fields (name, description, address, …) are sent unchanged; only the fact of the update and its outcome are modelled.
- BusinessConfig.UpdateDayHours: requires the day to be in the map; the editor only calls it for days it shows (`configuracion/page.tsx:313-314`).
- Availability.GetAvailableSlots: requires the effective duration to be positive; a negative stored duration makes the source's loop run forever.
- Parsing of stored times: the slot engine takes opening hours already as whole minutes. The `open_time.split(':').map(Number)` parse (`lib/services/appointments.ts:189-190`) is not modelled; a malformed time there gives NaN, an Invalid Date and no slots. Booking instants from `new Date(app.start_time)` (`lib/services/appointments.ts:227-228`) are also taken as whole minutes, so seconds and fractions are not modelled.
- ProfilePage.ProfileForm.SaveProfile: `updateProfile` (`lib/services/profile.ts:27-31`) upserts `role: 'customer'` along with the name and phone, which overwrites the role of an existing owner or specialist. profile.ts is not part of this model, so the role write is not stated.
- Dashboard.DashboardPage.SaveResults: models a thrown call only. The `error` the write returns is never read, and a refused write is not a separate case.
- TenantUsers.UsersPage.AddUser / RemoveUser: after a successful insert or delete the page calls `loadData()` (`app/admin/usuarios/page.tsx:189`, `:212`); the model assumes that reload returns the old rows plus the inserted one, or minus the deleted one. A failed reload and changes by other writers are not captured.
- The dashboard results modal's Cancel and close buttons (`app/admin/dashboard/page.tsx:238`, `:270`) only hide the modal; they are not modelled.
- BusinessConfig.ConfigPage.Save: the reload after a successful save (`app/admin/configuracion/page.tsx:206`) is not modelled; the page keeps the state it saved.
- The middleware's `config.matcher` (`middleware.ts:183-195`) is not modelled: the handler never runs for `/_next/static`, `/_next/image`, `/favicon.ico` or paths ending in `.svg`, `.png`, `.jpg`, `.jpeg`, `.gif` or `.webp`, so the RouteGuard rules hold only for requests the matcher lets through.
- The booking flow, landing pages, registration, super-admin tenant pages and other context files are not part of this model.

/**
 * Approving and rejecting tenant registration requests (app/super-admin/solicitudes/page.tsx):
 * the slug derived from the business name, the suffix loop that makes it unique, and the
 * writes each decision issues.
 */
module TenantApproval {
  import opened Common
  import opened JsString

  // ---------------------------------------------------------------------------------
  // Slugs.

  /** `[a-z0-9]`: the characters a slug keeps. */
  predicate SlugChar(c: char) {
    ('a' <= c <= 'z') || ('0' <= c <= '9')
  }

  /** The combining marks `[̀-ͯ]` removed after NFD decomposition. */
  predicate CombiningMark(c: char) {
    '\U{300}' <= c <= '\U{36F}'
  }

  function StripMarks(s: string): (r: string)
    ensures forall i | 0 <= i < |r| :: !CombiningMark(r[i])
    ensures forall c :: c in r <==> c in s && !CombiningMark(c)
  {
    if s == [] then []
    else (if CombiningMark(s[0]) then [] else [s[0]]) + StripMarks(s[1..])
  }

  /** Drops a leading run of characters that are not slug characters. */
  function SkipRun(s: string): (r: string)
    ensures |r| <= |s| && r == s[|s| - |r|..]
    ensures r == [] || SlugChar(r[0])
  {
    if s != [] && !SlugChar(s[0]) then SkipRun(s[1..]) else s
  }

  /** `.replace(/[^a-z0-9]+/g, '-')`: every maximal run of other characters becomes one '-'. */
  function Collapse(s: string): (r: string)
    ensures r == [] || s != []
    decreases |s|
  {
    if s == [] then []
    else if SlugChar(s[0]) then [s[0]] + Collapse(s[1..])
    else "-" + Collapse(SkipRun(s[1..]))
  }

  function TrimLeadingDashes(s: string): (r: string)
    ensures |r| <= |s| && r == s[|s| - |r|..]
    ensures r == [] || r[0] != '-'
    ensures forall i | 0 <= i < |s| - |r| :: s[i] == '-'
  {
    if s != [] && s[0] == '-' then TrimLeadingDashes(s[1..]) else s
  }

  function TrimTrailingDashes(s: string): (r: string)
    ensures |r| <= |s| && r == s[..|r|]
    ensures r == [] || r[|r| - 1] != '-'
    ensures forall i | |r| <= i < |s| :: s[i] == '-'
  {
    if s != [] && s[|s| - 1] == '-' then TrimTrailingDashes(s[..|s| - 1]) else s
  }

  /** `.replace(/^-+|-+$/g, '')` */
  function TrimDashes(s: string): string {
    TrimTrailingDashes(TrimLeadingDashes(s))
  }

  /** The slug of a business name: lower-case, marks removed, runs collapsed, dashes trimmed. */
  function Slugify(name: string): string {
    TrimDashes(Collapse(StripMarks(ToLower(name))))
  }

  /** A well-formed slug: slug characters and single dashes between them. */
  predicate WellFormedSlug(s: string) {
    && (forall i | 0 <= i < |s| :: SlugChar(s[i]) || s[i] == '-')
    && (s == [] || (s[0] != '-' && s[|s| - 1] != '-'))
    && (forall i | 0 <= i < |s| - 1 :: !(s[i] == '-' && s[i + 1] == '-'))
  }

  /** Only slug characters and dashes, and a dash is always followed by a slug character. */
  predicate Collapsed(s: string) {
    && (forall i | 0 <= i < |s| :: SlugChar(s[i]) || s[i] == '-')
    && (forall i | 0 <= i < |s| - 1 :: s[i] == '-' ==> SlugChar(s[i + 1]))
  }

  lemma {:induction false} CollapseShape(s: string)
    ensures Collapsed(Collapse(s))
    ensures Collapse(s) != [] && s != [] ==> (SlugChar(s[0]) <==> SlugChar(Collapse(s)[0]))
    decreases |s|
  {
    if s != [] {
      if SlugChar(s[0]) {
        CollapseShape(s[1..]);
        assert Collapse(s) == [s[0]] + Collapse(s[1..]);
      } else {
        var t := SkipRun(s[1..]);
        CollapseShape(t);
        var r := Collapse(s);
        assert r == "-" + Collapse(t);
        assert Collapse(t) == [] || SlugChar(Collapse(t)[0]);
      }
    }
  }

  /** Every slice of a collapsed text is collapsed. */
  lemma CollapsedSlice(s: string, a: nat, b: nat)
    requires Collapsed(s) && a <= b <= |s|
    ensures Collapsed(s[a..b])
  {
    var t := s[a..b];
    assert forall i | 0 <= i < |t| :: t[i] == s[a + i];
  }

  /** Trimming dashes keeps a collapsed text collapsed. */
  lemma TrimKeepsCollapsed(s: string)
    requires Collapsed(s)
    ensures Collapsed(TrimTrailingDashes(TrimLeadingDashes(s)))
  {
    var t := TrimLeadingDashes(s);
    CollapsedSlice(s, |s| - |t|, |s|);
    assert t == s[|s| - |t|..|s|];
    var u := TrimTrailingDashes(t);
    CollapsedSlice(t, 0, |u|);
    assert u == t[0..|u|];
  }

  /**
   * A slug holds only `a-z`, `0-9` and `-`, neither starts nor ends with '-', and never
   * contains "--".
   */
  lemma SlugWellFormed(name: string)
    ensures WellFormedSlug(Slugify(name))
  {
    var c := Collapse(StripMarks(ToLower(name)));
    CollapseShape(StripMarks(ToLower(name)));
    TrimKeepsCollapsed(c);
  }

  /** The letters and digits of a text, in order. */
  function SlugChars(s: string): (r: string)
    ensures forall i | 0 <= i < |r| :: SlugChar(r[i])
  {
    if s == [] then [] else (if SlugChar(s[0]) then [s[0]] else []) + SlugChars(s[1..])
  }

  lemma {:induction false} SlugCharsAppend(a: string, b: string)
    ensures SlugChars(a + b) == SlugChars(a) + SlugChars(b)
  {
    if a == [] {
      assert a + b == b;
    } else {
      assert (a + b)[0] == a[0] && (a + b)[1..] == a[1..] + b;
      SlugCharsAppend(a[1..], b);
      var head := if SlugChar(a[0]) then [a[0]] else [];
      assert SlugChars(a + b) == head + SlugChars(a[1..] + b);
      assert SlugChars(a) == head + SlugChars(a[1..]);
      assert head + (SlugChars(a[1..]) + SlugChars(b)) == (head + SlugChars(a[1..])) + SlugChars(b);
    }
  }

  lemma {:induction false} SlugCharsSkipRun(s: string)
    ensures SlugChars(SkipRun(s)) == SlugChars(s)
  {
    if s != [] && !SlugChar(s[0]) {
      SlugCharsSkipRun(s[1..]);
    }
  }

  lemma {:induction false} SlugCharsCollapse(s: string)
    ensures SlugChars(Collapse(s)) == SlugChars(s)
    decreases |s|
  {
    if s != [] {
      if SlugChar(s[0]) {
        SlugCharsCollapse(s[1..]);
        SlugCharsAppend([s[0]], Collapse(s[1..]));
      } else {
        var t := SkipRun(s[1..]);
        SlugCharsCollapse(t);
        SlugCharsSkipRun(s[1..]);
        SlugCharsAppend("-", Collapse(t));
      }
    }
  }

  /** Dropping dashes from the front leaves the letters and digits alone. */
  lemma {:induction false} SlugCharsTrimLeading(s: string)
    ensures SlugChars(TrimLeadingDashes(s)) == SlugChars(s)
  {
    if s != [] && s[0] == '-' {
      SlugCharsTrimLeading(s[1..]);
    }
  }

  lemma {:induction false} SlugCharsTrimTrailing(s: string)
    ensures SlugChars(TrimTrailingDashes(s)) == SlugChars(s)
    decreases |s|
  {
    if s != [] && s[|s| - 1] == '-' {
      var init := s[..|s| - 1];
      SlugCharsTrimTrailing(init);
      assert s == init + "-";
      SlugCharsAppend(init, "-");
    }
  }

  /**
   * The slug keeps every letter and digit of the lower-cased, mark-free name, in order:
   * only the separators change.
   */
  lemma SlugKeepsLettersAndDigits(name: string)
    ensures SlugChars(Slugify(name)) == SlugChars(StripMarks(ToLower(name)))
  {
    var c := Collapse(StripMarks(ToLower(name)));
    SlugCharsCollapse(StripMarks(ToLower(name)));
    SlugCharsTrimLeading(c);
    SlugCharsTrimTrailing(TrimLeadingDashes(c));
  }

  // ---------------------------------------------------------------------------------
  // The unique-suffix loop.

  /** The k-th name tried: the base itself, then `base-1`, `base-2`, ... */
  function Candidate(base: string, k: nat): string {
    if k == 0 then base else base + "-" + NatToString(k)
  }

  lemma CandidateInjective(base: string, a: nat, b: nat)
    requires Candidate(base, a) == Candidate(base, b)
    ensures a == b
  {
    if a != 0 && b != 0 {
      var sa, sb := base + "-" + NatToString(a), base + "-" + NatToString(b);
      assert NatToString(a) == sa[|base| + 1..];
      assert NatToString(b) == sb[|base| + 1..];
      NatToStringInjective(a, b);
    }
  }

  /** The first n names tried. */
  function Tried(base: string, n: nat): (r: set<string>)
    ensures forall k | 0 <= k < n :: Candidate(base, k) in r
  {
    if n == 0 then {} else Tried(base, n - 1) + {Candidate(base, n - 1)}
  }

  lemma {:induction false} TriedShape(base: string, n: nat)
    ensures |Tried(base, n)| == n
    ensures forall m: nat | m >= n :: Candidate(base, m) !in Tried(base, n)
  {
    if n > 0 {
      TriedShape(base, n - 1);
      forall m: nat | m >= n
        ensures Candidate(base, m) != Candidate(base, n - 1)
      {
        if Candidate(base, m) == Candidate(base, n - 1) {
          CandidateInjective(base, m, n - 1);
          assert false;
        }
      }
    }
  }

  /** `slug` is the first candidate from `base` that is not taken. */
  ghost predicate FirstFree(base: string, taken: set<string>, slug: string) {
    && slug !in taken
    && exists k: nat :: slug == Candidate(base, k) && forall j | 0 <= j < k :: Candidate(base, j) in taken
  }

  /**
   * The `while (true)` loop of `handleApprove`: ask whether a business has the slug, and try
   * the next suffix while one has. `taken` is the set of slugs the lookups find.
   */
  method UniqueSlug(base: string, taken: set<string>) returns (finalSlug: string)
    ensures FirstFree(base, taken, finalSlug)
  {
    finalSlug := base;
    var counter: nat := 1;
    TriedShape(base, 0);
    while true
      invariant counter >= 1
      invariant finalSlug == Candidate(base, counter - 1)
      invariant Tried(base, counter - 1) <= taken
      decreases |taken| - (counter - 1)
    {
      var existing := finalSlug in taken;
      if !existing {
        break;
      }
      TriedShape(base, counter);
      SubsetSize(Tried(base, counter), taken);
      finalSlug := base + "-" + NatToString(counter);
      counter := counter + 1;
    }
  }

  lemma SubsetSize<T>(a: set<T>, b: set<T>)
    requires a <= b
    ensures |a| <= |b|
  {
    assert b == a + (b - a);
  }

  /** A free base is used unchanged. */
  lemma FreeBaseKept(base: string, taken: set<string>, slug: string)
    requires base !in taken && FirstFree(base, taken, slug)
    ensures slug == base
  {
    var k: nat :| slug == Candidate(base, k) && forall j | 0 <= j < k :: Candidate(base, j) in taken;
    assert Candidate(base, 0) == base;
  }

  /** A taken base gets `base-k` for the least free k of at least 1. */
  lemma TakenBaseSuffixed(base: string, taken: set<string>, slug: string)
    requires base in taken && FirstFree(base, taken, slug)
    ensures exists k: nat :: k >= 1 && slug == base + "-" + NatToString(k)
                             && forall j: nat | 1 <= j < k :: base + "-" + NatToString(j) in taken
  {
    var k: nat :| slug == Candidate(base, k) && forall j | 0 <= j < k :: Candidate(base, j) in taken;
    assert k != 0;
    assert forall j: nat | 1 <= j < k :: Candidate(base, j) == base + "-" + NatToString(j);
  }

  /** There is only one first free slug: the loop's answer is determined by base and taken set. */
  lemma FirstFreeUnique(base: string, taken: set<string>, a: string, b: string)
    requires FirstFree(base, taken, a) && FirstFree(base, taken, b)
    ensures a == b
  {
    var ka: nat :| a == Candidate(base, ka) && forall j | 0 <= j < ka :: Candidate(base, j) in taken;
    var kb: nat :| b == Candidate(base, kb) && forall j | 0 <= j < kb :: Candidate(base, j) in taken;
    assert a !in taken && b !in taken;
  }

  // ---------------------------------------------------------------------------------
  // Approve and reject.

  datatype RequestStatus = RequestPending | RequestApproved | RequestRejected

  /** The fields of a registration request the decisions read. */
  datatype Request = Request(
    id: string, applicantEmail: string, applicantUserId: Option<string>,
    businessName: string, businessEmail: string, status: RequestStatus)

  /** The business row inserted on approval (the descriptive columns are copied verbatim and left out). */
  datatype Business = Business(
    ownerId: Option<string>, registrationRequestId: string, name: string, slug: string,
    email: string, isActive: bool, maxUsers: nat)

  /** The writes the two handlers issue, in order. */
  datatype Write =
    | InsertBusiness(business: Business)
    | PromoteToOwner(userId: string)
    | MarkApproved(requestId: string, reviewedBy: Option<string>)
    | MarkRejected(requestId: string, reviewedBy: Option<string>, reason: string)

  const DefaultMaxUsers := 5

  /** `user?.id || null` */
  function DecidedBy(userId: Option<string>): Option<string> {
    Or(userId, None)
  }

  function NewBusiness(r: Request, slug: string): Business {
    Business(r.applicantUserId, r.id, r.businessName, slug,
             Or(Some(r.businessEmail), Some(r.applicantEmail)).value, true, DefaultMaxUsers)
  }

  /** Approve and reject are offered only on pending requests. */
  predicate DecisionOffered(r: Request) {
    r.status == RequestPending
  }

  /**
   * The writes of an approval that got past the confirmation and the fetch, once the slug is
   * chosen: the insert, then (when it succeeded) the promotion and the status update.
   */
  function ApprovalWrites(r: Request, slug: string, insertOk: bool, userId: Option<string>): seq<Write> {
    [InsertBusiness(NewBusiness(r, slug))] + FollowUp(r, insertOk, userId)
  }

  /** What follows the insert: nothing if it failed, else the promotion (if any) and the status update. */
  function FollowUp(r: Request, insertOk: bool, userId: Option<string>): seq<Write> {
    if !insertOk then []
    else (if r.applicantUserId.Some? && r.applicantUserId.value != "" then [PromoteToOwner(r.applicantUserId.value)] else [])
         + [MarkApproved(r.id, DecidedBy(userId))]
  }

  /**
   * `handleApprove`: `fetched` is None when the fetch failed or found nothing; `taken` is what
   * the slug lookups find; `insertOk` says whether the business insert succeeded.
   */
  method HandleApprove(confirmed: bool, fetched: Option<Request>, taken: set<string>, insertOk: bool,
                       userId: Option<string>) returns (writes: seq<Write>)
    ensures !confirmed || fetched.None? ==> writes == []
    ensures confirmed && fetched.Some? ==>
      exists slug :: FirstFree(Slugify(fetched.value.businessName), taken, slug)
                     && writes == ApprovalWrites(fetched.value, slug, insertOk, userId)
  {
    if !confirmed {
      return [];
    }
    if fetched.None? {
      return [];
    }
    var request := fetched.value;
    var slug := Slugify(request.businessName);
    var finalSlug := UniqueSlug(slug, taken);
    var followUp: seq<Write> := [];
    if insertOk {
      if request.applicantUserId.Some? && request.applicantUserId.value != "" {
        followUp := [PromoteToOwner(request.applicantUserId.value)];
      }
      followUp := followUp + [MarkApproved(request.id, DecidedBy(userId))];
    }
    assert followUp == FollowUp(request, insertOk, userId);
    writes := [InsertBusiness(NewBusiness(request, finalSlug))] + followUp;
  }

  /** The inserted business is active, allows 5 users, and falls back to the applicant's email. */
  lemma ApprovedBusinessDefaults(r: Request, slug: string, insertOk: bool, userId: Option<string>)
    ensures var w := ApprovalWrites(r, slug, insertOk, userId);
      && w[0].InsertBusiness? && w[0].business.isActive && w[0].business.maxUsers == 5
      && w[0].business.slug == slug && w[0].business.ownerId == r.applicantUserId
      && w[0].business.email == (if r.businessEmail != "" then r.businessEmail else r.applicantEmail)
  {
  }

  /** The applicant is promoted exactly when the insert succeeded and the request names a user. */
  lemma PromotionOnlyWithApplicant(r: Request, slug: string, insertOk: bool, userId: Option<string>)
    ensures (exists i | 0 <= i < |ApprovalWrites(r, slug, insertOk, userId)| ::
               ApprovalWrites(r, slug, insertOk, userId)[i].PromoteToOwner?)
        <==> insertOk && r.applicantUserId.Some? && r.applicantUserId.value != ""
  {
    var w := ApprovalWrites(r, slug, insertOk, userId);
    if insertOk && r.applicantUserId.Some? && r.applicantUserId.value != "" {
      assert w[1].PromoteToOwner?;
    }
  }

  /** A successful insert ends with the request marked approved by the signed-in super-admin, or by nobody. */
  lemma ApprovalMarksRequest(r: Request, slug: string, userId: Option<string>)
    ensures var w := ApprovalWrites(r, slug, true, userId);
      w[|w| - 1] == MarkApproved(r.id, if userId.Some? && userId.value != "" then userId else None)
  {
  }

  /** A failed insert stops the approval: nothing after the insert is written. */
  lemma FailedInsertStops(r: Request, slug: string, userId: Option<string>)
    ensures ApprovalWrites(r, slug, false, userId) == [InsertBusiness(NewBusiness(r, slug))]
  {
  }

  /**
   * `handleReject`: `reason` is the prompt's answer, None when cancelled. An empty or missing
   * reason writes nothing; otherwise the request is marked rejected with that reason.
   */
  function HandleReject(requestId: string, reason: Option<string>, userId: Option<string>): (w: seq<Write>)
    ensures reason.None? || reason.value == "" ==> w == []
    ensures reason.Some? && reason.value != "" ==>
      w == [MarkRejected(requestId, DecidedBy(userId), reason.value)]
  {
    if reason.None? || reason.value == "" then [] else [MarkRejected(requestId, DecidedBy(userId), reason.value)]
  }

  /** The status a request has after its decision's last write. */
  function StatusAfter(r: Request, w: seq<Write>): RequestStatus {
    if w == [] then r.status
    else match w[|w| - 1]
      case MarkApproved(_, _) => RequestApproved
      case MarkRejected(_, _, _) => RequestRejected
      case _ => r.status
  }

  /** Deciding on a pending request leaves it approved, rejected, or still pending. */
  lemma DecisionsMovePendingOnly(r: Request, slug: string, insertOk: bool, reason: Option<string>, userId: Option<string>)
    requires DecisionOffered(r)
    ensures StatusAfter(r, ApprovalWrites(r, slug, insertOk, userId)) == if insertOk then RequestApproved else RequestPending
    ensures StatusAfter(r, HandleReject(r.id, reason, userId))
         == if reason.Some? && reason.value != "" then RequestRejected else RequestPending
  {
  }
}

/**
 * The customer's appointment lists: the upcoming/history split and the search and status
 * filter of app/mis-reservas/page.tsx, and the "next three" card of
 * components/reservas/UpcomingAppointments.tsx.
 *
 * An appointment's moment is `new Date(`${appointment_date}T${appointment_time}`)`; it is an
 * integer (milliseconds, the same clock as `now`), or None when the text does not parse and
 * the Date is invalid, so that every comparison with it is false.
 */
module AppointmentLists {
  import opened Common
  import opened JsString
  import opened AppointmentStatus

  /** The fields of `AppointmentWithRelations` the lists look at. */
  datatype Appointment = Appointment(
    id: string,
    at: Option<int>,
    status: Status,
    businessName: Option<string>,
    specialistName: Option<string>)

  // ---------------------------------------------------------------------------------
  // `list.filter(p)` and what it keeps.

  /** `xs.filter(p)` */
  function Filter(xs: seq<Appointment>, p: Appointment -> bool): (r: seq<Appointment>)
    ensures |r| <= |xs|
    ensures forall a :: a in r <==> a in xs && p(a)
  {
    if xs == [] then [] else (if p(xs[0]) then [xs[0]] else []) + Filter(xs[1..], p)
  }

  /** `r` is `xs` with some elements left out and the rest in their original order. */
  predicate Subsequence(r: seq<Appointment>, xs: seq<Appointment>)
    decreases |xs|
  {
    if r == [] then true
    else if xs == [] then false
    else if r[0] == xs[0] then Subsequence(r[1..], xs[1..])
    else Subsequence(r, xs[1..])
  }

  /** A filter keeps an order-preserving subsequence of its input. */
  lemma {:induction false} FilterIsSubsequence(xs: seq<Appointment>, p: Appointment -> bool)
    ensures Subsequence(Filter(xs, p), xs)
  {
    if xs != [] {
      FilterIsSubsequence(xs[1..], p);
      var r := Filter(xs, p);
      if p(xs[0]) {
        assert r[1..] == Filter(xs[1..], p);
      } else {
        assert r == Filter(xs[1..], p);
        if r != [] {
          assert r[0] in r;
        }
      }
    }
  }

  /** A filter takes no element more often than the input holds it. */
  lemma {:induction false} FilterSubMultiset(xs: seq<Appointment>, p: Appointment -> bool)
    ensures multiset(Filter(xs, p)) <= multiset(xs)
  {
    if xs != [] {
      FilterSubMultiset(xs[1..], p);
      assert xs == [xs[0]] + xs[1..];
    }
  }

  /** A predicate every element satisfies keeps the whole list. */
  lemma {:induction false} FilterKeepsAll(xs: seq<Appointment>, p: Appointment -> bool)
    requires forall i | 0 <= i < |xs| :: p(xs[i])
    ensures Filter(xs, p) == xs
  {
    if xs != [] {
      FilterKeepsAll(xs[1..], p);
      assert [xs[0]] + xs[1..] == xs;
    }
  }

  /** Two predicates that agree on the list filter it alike. */
  lemma {:induction false} FilterAgrees(xs: seq<Appointment>, p: Appointment -> bool, q: Appointment -> bool)
    requires forall i | 0 <= i < |xs| :: p(xs[i]) == q(xs[i])
    ensures Filter(xs, p) == Filter(xs, q)
  {
    if xs != [] {
      FilterAgrees(xs[1..], p, q);
    }
  }

  // ---------------------------------------------------------------------------------
  // Upcoming and history.

  predicate Finished(s: Status) {
    s == Completed || s == Cancelled
  }

  /** `aptDate >= now && ['pending', 'confirmed'].includes(apt.status)` */
  predicate IsUpcoming(a: Appointment, now: int) {
    a.at.Some? && a.at.value >= now && HoldsSlot(a.status)
  }

  /** `aptDate < now || ['completed', 'cancelled'].includes(apt.status)` */
  predicate IsHistory(a: Appointment, now: int) {
    (a.at.Some? && a.at.value < now) || Finished(a.status)
  }

  function Upcoming(xs: seq<Appointment>, now: int): seq<Appointment> {
    Filter(xs, a => IsUpcoming(a, now))
  }

  function History(xs: seq<Appointment>, now: int): seq<Appointment> {
    Filter(xs, a => IsHistory(a, now))
  }

  /** No appointment is listed under both tabs. */
  lemma UpcomingHistoryDisjoint(xs: seq<Appointment>, now: int)
    ensures forall a | a in Upcoming(xs, now) :: a !in History(xs, now)
  {
  }

  /**
   * The tabs do not cover every appointment: one appears in neither exactly when it is not
   * completed or cancelled and its moment, if valid, is not past but its status is in_hall,
   * in_progress or no_show.
   */
  lemma InNeitherTab(a: Appointment, now: int)
    ensures a !in Upcoming([a], now) && a !in History([a], now) <==>
      !Finished(a.status) && (a.at.Some? ==> a.at.value >= now && !HoldsSlot(a.status))
  {
  }

  /** For instance a future appointment already in the hall is in neither tab. */
  lemma FutureInHallInNeither(id: string, now: int)
    ensures var a := Appointment(id, Some(now + 1), InHall, None, None);
      Upcoming([a], now) == [] && History([a], now) == []
  {
  }

  // ---------------------------------------------------------------------------------
  // Search and status filter.

  /** `!q || business_name?.toLowerCase().includes(q.toLowerCase()) || specialist_name?...` */
  predicate MatchesSearch(a: Appointment, query: string) {
    || query == ""
    || (a.businessName.Some? && Includes(ToLower(a.businessName.value), ToLower(query)))
    || (a.specialistName.Some? && Includes(ToLower(a.specialistName.value), ToLower(query)))
  }

  /** `statusFilter === 'all' || apt.status === statusFilter` */
  predicate MatchesStatus(a: Appointment, statusFilter: string) {
    statusFilter == "all" || Name(a.status) == statusFilter
  }

  /** `filterAppointments(list)` */
  function FilterAppointments(xs: seq<Appointment>, query: string, statusFilter: string): seq<Appointment> {
    Filter(xs, a => MatchesSearch(a, query) && MatchesStatus(a, statusFilter))
  }

  /** The filter keeps, in order, exactly the appointments matching both the search and the status. */
  lemma FilterAppointmentsKeeps(xs: seq<Appointment>, query: string, statusFilter: string)
    ensures Subsequence(FilterAppointments(xs, query, statusFilter), xs)
    ensures forall a :: a in FilterAppointments(xs, query, statusFilter) <==>
      a in xs && MatchesSearch(a, query) && MatchesStatus(a, statusFilter)
  {
    FilterIsSubsequence(xs, a => MatchesSearch(a, query) && MatchesStatus(a, statusFilter));
  }

  /** An empty search with status `'all'` keeps the whole list. */
  lemma NoFilterKeepsAll(xs: seq<Appointment>)
    ensures FilterAppointments(xs, "", "all") == xs
  {
    FilterKeepsAll(xs, a => MatchesSearch(a, "") && MatchesStatus(a, "all"));
  }

  /** The search ignores letter case: queries that lower-case alike select alike. */
  lemma SearchIgnoresCase(xs: seq<Appointment>, q1: string, q2: string, statusFilter: string)
    requires ToLower(q1) == ToLower(q2)
    ensures FilterAppointments(xs, q1, statusFilter) == FilterAppointments(xs, q2, statusFilter)
  {
    assert |q1| == |ToLower(q1)| == |q2|;
    FilterAgrees(xs, a => MatchesSearch(a, q1) && MatchesStatus(a, statusFilter),
                     a => MatchesSearch(a, q2) && MatchesStatus(a, statusFilter));
  }

  /** What the page shows: the tab counts and the filtered lists of both tabs. */
  datatype PageView = PageView(upcomingCount: nat, historyCount: nat, shownUpcoming: seq<Appointment>, shownHistory: seq<Appointment>)

  function Page(xs: seq<Appointment>, now: int, query: string, statusFilter: string): PageView {
    PageView(|Upcoming(xs, now)|, |History(xs, now)|,
      FilterAppointments(Upcoming(xs, now), query, statusFilter),
      FilterAppointments(History(xs, now), query, statusFilter))
  }

  /** The tab counts are taken before filtering: no search or status changes them, and each bounds its list. */
  lemma TabCountsIgnoreFilters(xs: seq<Appointment>, now: int, q1: string, f1: string, q2: string, f2: string)
    ensures Page(xs, now, q1, f1).upcomingCount == Page(xs, now, q2, f2).upcomingCount
    ensures Page(xs, now, q1, f1).historyCount == Page(xs, now, q2, f2).historyCount
    ensures |Page(xs, now, q1, f1).shownUpcoming| <= Page(xs, now, q1, f1).upcomingCount
    ensures |Page(xs, now, q1, f1).shownHistory| <= Page(xs, now, q1, f1).historyCount
  {
  }

  // ---------------------------------------------------------------------------------
  // The next three.

  /** The sort key; only appointments with a valid moment reach the sort. */
  function Key(a: Appointment): int {
    a.at.GetOr(0)
  }

  predicate SortedByTime(s: seq<Appointment>) {
    forall i, j | 0 <= i < j < |s| :: Key(s[i]) <= Key(s[j])
  }

  /** Every element of `s` is no earlier than `k`. */
  predicate NoEarlierThan(k: int, s: seq<Appointment>) {
    forall i | 0 <= i < |s| :: k <= Key(s[i])
  }

  /** A list is sorted when its head is no later than its tail and the tail is sorted. */
  lemma SortedCons(h: Appointment, t: seq<Appointment>)
    requires NoEarlierThan(Key(h), t) && SortedByTime(t)
    ensures SortedByTime([h] + t)
  {
    var s := [h] + t;
    forall i, j | 0 <= i < j < |s| ensures Key(s[i]) <= Key(s[j]) {
      assert s[j] == t[j - 1];
      if i > 0 {
        assert s[i] == t[i - 1];
      }
    }
  }

  /** Inserts `x` before the first element that is not earlier than it, so ahead of equal keys. */
  function Insert(x: Appointment, s: seq<Appointment>): (r: seq<Appointment>)
    ensures multiset(r) == multiset(s) + multiset{x}
  {
    if s == [] then [x]
    else if Key(x) <= Key(s[0]) then [x] + s
    else
      assert s == [s[0]] + s[1..];
      [s[0]] + Insert(x, s[1..])
  }

  /** Inserting into a sorted list keeps it sorted. */
  lemma {:induction false} InsertSorted(x: Appointment, s: seq<Appointment>)
    requires SortedByTime(s)
    ensures SortedByTime(Insert(x, s))
  {
    if s == [] {
    } else if Key(x) <= Key(s[0]) {
      SortedCons(x, s);
    } else {
      var rest := Insert(x, s[1..]);
      InsertSorted(x, s[1..]);
      forall i | 0 <= i < |rest| ensures Key(s[0]) <= Key(rest[i]) {
        assert rest[i] in multiset(rest);
        if rest[i] != x {
          var j :| 0 <= j < |s[1..]| && s[1..][j] == rest[i];
          assert s[j + 1] == rest[i];
        }
      }
      SortedCons(s[0], rest);
    }
  }

  /** `.sort((a, b) => dateA - dateB)`: ascending by moment, earlier-listed first among equals. */
  function SortByTime(xs: seq<Appointment>): (r: seq<Appointment>)
    ensures SortedByTime(r) && multiset(r) == multiset(xs)
  {
    if xs == [] then []
    else
      var rest := SortByTime(xs[1..]);
      InsertSorted(xs[0], rest);
      assert xs == [xs[0]] + xs[1..];
      Insert(xs[0], rest)
  }

  /** `.filter(...).sort(...).slice(0, 3)` */
  function NextThree(xs: seq<Appointment>, now: int): seq<Appointment> {
    var s := SortByTime(Upcoming(xs, now));
    if |s| <= 3 then s else s[..3]
  }

  /** A sorted list's first k elements are no later than any element after them. */
  lemma SortedPrefixEarliest(s: seq<Appointment>, k: nat)
    requires SortedByTime(s) && k <= |s|
    ensures multiset(s) - multiset(s[..k]) == multiset(s[k..])
    ensures forall b, a | b in multiset(s) - multiset(s[..k]) && a in s[..k] :: Key(a) <= Key(b)
  {
    assert s == s[..k] + s[k..];
    assert multiset(s) == multiset(s[..k]) + multiset(s[k..]);
    forall b, a | b in multiset(s[k..]) && a in s[..k]
      ensures Key(a) <= Key(b)
    {
      assert b in s[k..];
      var j :| k <= j < |s| && s[j] == b;
      var i :| 0 <= i < k && s[..k][i] == a;
      assert s[i] == a;
    }
  }

  /** The sorted list of upcoming appointments and how many of them the card takes. */
  lemma NextThreeIsPrefix(xs: seq<Appointment>, now: int)
    ensures var s := SortByTime(Upcoming(xs, now));
      && multiset(s) == multiset(Upcoming(xs, now)) && |s| == |Upcoming(xs, now)|
      && NextThree(xs, now) == s[..if |s| <= 3 then |s| else 3]
  {
    var s := SortByTime(Upcoming(xs, now));
    assert s[..|s|] == s;
    assert |s| == |Upcoming(xs, now)| by {
      assert |multiset(s)| == |multiset(Upcoming(xs, now))|;
    }
  }

  /** The card shows at most three appointments, in ascending order of their moment. */
  lemma NextThreeSorted(xs: seq<Appointment>, now: int)
    ensures |NextThree(xs, now)| <= 3 && SortedByTime(NextThree(xs, now))
  {
    NextThreeIsPrefix(xs, now);
  }

  /** Each shown appointment is upcoming and taken from the input, no more often than it occurs there. */
  lemma NextThreeQualify(xs: seq<Appointment>, now: int)
    ensures forall a | a in NextThree(xs, now) :: a in xs && IsUpcoming(a, now)
    ensures multiset(NextThree(xs, now)) <= multiset(xs)
  {
    NextThreeIsPrefix(xs, now);
    var u := Upcoming(xs, now);
    var s := SortByTime(u);
    var r := NextThree(xs, now);
    var k := |r|;
    assert r == s[..k];
    FilterSubMultiset(xs, a => IsUpcoming(a, now));
    assert s == r + s[k..];
    assert multiset(s) == multiset(r) + multiset(s[k..]);
    forall a | a in r ensures a in xs && IsUpcoming(a, now) {
      assert a in multiset(s);
      assert a in u;
    }
  }

  /** No upcoming appointment left off the card is earlier than one shown. */
  lemma NextThreeEarliest(xs: seq<Appointment>, now: int)
    ensures var r := NextThree(xs, now);
      forall b, a | b in multiset(Upcoming(xs, now)) - multiset(r) && a in r :: Key(a) <= Key(b)
  {
    NextThreeIsPrefix(xs, now);
    var s := SortByTime(Upcoming(xs, now));
    SortedPrefixEarliest(s, |NextThree(xs, now)|);
  }

  /** When three or fewer appointments are upcoming, the card shows all of them. */
  lemma NextThreeAllWhenFew(xs: seq<Appointment>, now: int)
    requires |Upcoming(xs, now)| <= 3
    ensures multiset(NextThree(xs, now)) == multiset(Upcoming(xs, now))
  {
    NextThreeIsPrefix(xs, now);
  }
}

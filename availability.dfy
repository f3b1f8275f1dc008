/**
 * The slot-availability engine: `getAvailableSlots` of lib/services/appointments.ts.
 *
 * Its three database reads become inputs. All clock times are integers: minutes
 * since midnight of the requested date for opening hours, slots and bookings, and
 * milliseconds since that midnight for "now", which is only present when the
 * requested date is today (`isSameDay(dateObj, now)`).
 */
module Availability {
  import opened Common
  import opened JsString
  import opened AppointmentStatus

  const MinutesPerDay := 1440
  const MsPerMinute := 60000
  /** The duration used when the business has no settings row or its slot_duration is 0 or null. */
  const DefaultSlotDuration := 30

  /** A business_hours row: open_time and close_time are None when null or empty. */
  datatype HoursRow = HoursRow(dayOfWeek: int, openTime: Option<nat>, closeTime: Option<nat>, isClosed: bool)

  /** An appointments row as the slot query sees it: start and end relative to the requested date. */
  datatype BookingRow = BookingRow(start: int, end: int, status: Status, specialistId: Option<string>)

  datatype Interval = Interval(start: int, end: int)

  /** The rows the three reads return. `bookings` is None when the appointments query failed. */
  datatype Reads = Reads(
    slotDuration: Option<int>,
    hoursTable: seq<HoursRow>,
    bookings: Option<seq<BookingRow>>)

  /** `settings?.slot_duration || 30` */
  function SlotDuration(setting: Option<int>): (d: int)
    ensures setting.None? || setting.value == 0 ==> d == DefaultSlotDuration
    ensures setting.Some? && setting.value != 0 ==> d == setting.value
    ensures (setting.None? || setting.value >= 0) <==> d > 0
  {
    if setting.None? || setting.value == 0 then DefaultSlotDuration else setting.value
  }

  /** Rows for one weekday (`getDay()`, 0 = Sunday). */
  function RowsFor(table: seq<HoursRow>, weekday: int): (r: seq<HoursRow>)
    ensures forall h | h in r :: h in table && h.dayOfWeek == weekday
    ensures forall h | h in table && h.dayOfWeek == weekday :: h in r
  {
    if table == [] then []
    else (if table[0].dayOfWeek == weekday then [table[0]] else []) + RowsFor(table[1..], weekday)
  }

  /** `.eq('day_of_week', weekday).single()`: the row when exactly one matches, else null. */
  function DayHours(table: seq<HoursRow>, weekday: int): (r: Option<HoursRow>)
    ensures r.Some? ==> r.value in table && r.value.dayOfWeek == weekday
    ensures (exists h | h in table :: h.dayOfWeek == weekday) || r.None?
  {
    var rows := RowsFor(table, weekday);
    if |rows| == 1 then Some(rows[0]) else None
  }

  /** A weekday with no row has no rows for it. */
  lemma NoRowsFor(table: seq<HoursRow>, weekday: int)
    requires forall i | 0 <= i < |table| :: table[i].dayOfWeek != weekday
    ensures RowsFor(table, weekday) == []
  {
  }

  /** With exactly one row for the weekday, that row is the only one selected. */
  lemma {:induction false} RowsForSingle(table: seq<HoursRow>, weekday: int, i: nat)
    requires i < |table| && table[i].dayOfWeek == weekday
    requires forall j | 0 <= j < |table| && j != i :: table[j].dayOfWeek != weekday
    ensures RowsFor(table, weekday) == [table[i]]
  {
    if i == 0 {
      NoRowsFor(table[1..], weekday);
    } else {
      RowsForSingle(table[1..], weekday, i - 1);
    }
  }

  /** With two rows for the weekday, at least two are selected. */
  lemma {:induction false} RowsForTwo(table: seq<HoursRow>, weekday: int, i: nat, j: nat)
    requires i < j < |table| && table[i].dayOfWeek == weekday && table[j].dayOfWeek == weekday
    ensures |RowsFor(table, weekday)| >= 2
  {
    if i == 0 {
      assert table[j] in table[1..];
    } else {
      RowsForTwo(table[1..], weekday, i - 1, j - 1);
    }
  }

  /** `.single()` with exactly one matching row returns that row. */
  lemma DayHoursSingle(table: seq<HoursRow>, weekday: int, i: nat)
    requires i < |table| && table[i].dayOfWeek == weekday
    requires forall j | 0 <= j < |table| && j != i :: table[j].dayOfWeek != weekday
    ensures DayHours(table, weekday) == Some(table[i])
  {
    RowsForSingle(table, weekday, i);
  }

  /** `.single()` with two or more matching rows is an error, read as no row. */
  lemma DayHoursAmbiguous(table: seq<HoursRow>, weekday: int, i: nat, j: nat)
    requires i < |table| && j < |table| && i != j
    requires table[i].dayOfWeek == weekday && table[j].dayOfWeek == weekday
    ensures DayHours(table, weekday).None?
  {
    if i < j {
      RowsForTwo(table, weekday, i, j);
    } else {
      RowsForTwo(table, weekday, j, i);
    }
  }

  /** The specialist filter applies for a non-empty id other than 'any'. */
  predicate FiltersSpecialist(specialistId: Option<string>) {
    specialistId.Some? && specialistId.value != "" && specialistId.value != "any"
  }

  /**
   * What the appointments query selects: a status that holds the slot, a start within the
   * requested date (`gte` 00:00:00, `lte` 23:59:59) and, when filtered, that specialist.
   */
  predicate Selected(b: BookingRow, specialistId: Option<string>) {
    && HoldsSlot(b.status)
    && 0 <= b.start < MinutesPerDay
    && (FiltersSpecialist(specialistId) ==> b.specialistId == specialistId)
  }

  /** The query's result as (start, end) pairs, in row order. */
  function Blocking(rows: seq<BookingRow>, specialistId: Option<string>): (r: seq<Interval>)
    ensures forall b | b in rows && Selected(b, specialistId) :: Interval(b.start, b.end) in r
    ensures forall iv | iv in r :: exists b | b in rows :: Selected(b, specialistId) && iv == Interval(b.start, b.end)
  {
    if rows == [] then []
    else
      var rest := Blocking(rows[1..], specialistId);
      assert forall b | b in rows[1..] :: b in rows;
      if Selected(rows[0], specialistId) then [Interval(rows[0].start, rows[0].end)] + rest else rest
  }

  /** The bookings that block: none at all when the appointments query returned no data. */
  function BusyIntervals(bookings: Option<seq<BookingRow>>, specialistId: Option<string>): seq<Interval> {
    if bookings.None? then [] else Blocking(bookings.value, specialistId)
  }

  /** Overlap of [start, end) with a booking: `isBefore(start, appEnd) && isAfter(end, appStart)`. */
  predicate Overlaps(start: int, end: int, iv: Interval) {
    start < iv.end && end > iv.start
  }

  /** `appointments?.some(...)` */
  predicate Occupied(start: int, end: int, busy: seq<Interval>) {
    exists iv | iv in busy :: Overlaps(start, end, iv)
  }

  /** The past-time rule: on today's date a slot starting before now is skipped. */
  predicate Past(start: int, now: Option<int>) {
    now.Some? && start * MsPerMinute < now.value
  }

  predicate Offered(start: int, d: int, now: Option<int>, busy: seq<Interval>) {
    !Past(start, now) && !Occupied(start, start + d, busy)
  }

  /** The slot starts emitted from grid point `cur` on, as the loop generates them. */
  function StartsFrom(cur: nat, close: int, d: int, now: Option<int>, busy: seq<Interval>): seq<nat>
    requires d > 0
    decreases close - cur
  {
    if cur + d > close then []
    else (if Offered(cur, d, now, busy) then [cur] else []) + StartsFrom(cur + d, close, d, now, busy)
  }

  /** The k-th grid point from `open`. */
  function GridPoint(open: int, d: int, k: nat): int {
    open + k * d
  }

  /** x is one of open, open + d, open + 2d, ... */
  ghost predicate OnGrid(x: int, open: int, d: int) {
    exists k: nat :: x == GridPoint(open, d, k)
  }

  /** Opening and closing minute of the chosen row, when the day offers slots at all. */
  function OpenHours(row: Option<HoursRow>): Option<(nat, nat)> {
    if row.None? || row.value.isClosed || row.value.openTime.None? || row.value.closeTime.None? then None
    else Some((row.value.openTime.value, row.value.closeTime.value))
  }

  /** The emitted starts, in minutes, for the given rows. */
  function AvailableStarts(db: Reads, weekday: int, specialistId: Option<string>, now: Option<int>): seq<nat>
    requires SlotDuration(db.slotDuration) > 0
  {
    var hours := OpenHours(DayHours(db.hoursTable, weekday));
    if hours.None? then []
    else StartsFrom(hours.value.0, hours.value.1, SlotDuration(db.slotDuration), now,
                    BusyIntervals(db.bookings, specialistId))
  }

  function Pad2(n: nat): string
    requires n < 100
  {
    [DigitChar(n / 10), DigitChar(n % 10)]
  }

  /** `format(slot, 'HH:mm')`: wall-clock hour (mod 24) and minute, two digits each. */
  function FormatHHmm(m: nat): (r: string)
    ensures |r| == 5 && r[2] == ':'
  {
    Pad2((m / 60) % 24) + ":" + Pad2(m % 60)
  }

  /** Reads an `HH:mm` text back into minutes since midnight. */
  function ParseHHmm(s: string): Option<nat> {
    if |s| == 5 && s[2] == ':' && IsDigit(s[0]) && IsDigit(s[1]) && IsDigit(s[3]) && IsDigit(s[4]) then
      var h := (s[0] as int - '0' as int) * 10 + (s[1] as int - '0' as int);
      var m := (s[3] as int - '0' as int) * 10 + (s[4] as int - '0' as int);
      if h < 24 && m < 60 then Some(h * 60 + m) else None
    else None
  }

  /** Within one day, the formatted start reads back as the same minute. */
  lemma FormatRoundTrip(m: nat)
    requires m < MinutesPerDay
    ensures ParseHHmm(FormatHHmm(m)) == Some(m)
  {
    var s := FormatHHmm(m);
    var h, mm := m / 60, m % 60;
    assert h < 24;
    assert s[0] as int - '0' as int == h / 10 && s[1] as int - '0' as int == h % 10;
    assert s[3] as int - '0' as int == mm / 10 && s[4] as int - '0' as int == mm % 10;
  }

  /** Distinct minutes of one day format to distinct texts. */
  lemma FormatInjective(a: nat, b: nat)
    requires a < MinutesPerDay && b < MinutesPerDay && FormatHHmm(a) == FormatHHmm(b)
    ensures a == b
  {
    FormatRoundTrip(a);
    FormatRoundTrip(b);
  }

  /** The slot list: each start formatted, in order. */
  function Render(starts: seq<nat>): (r: seq<string>)
    ensures |r| == |starts|
    ensures forall i | 0 <= i < |starts| :: r[i] == FormatHHmm(starts[i])
  {
    seq(|starts|, i requires 0 <= i < |starts| => FormatHHmm(starts[i]))
  }

  lemma RenderSnoc(starts: seq<nat>, x: nat)
    ensures Render(starts + [x]) == Render(starts) + [FormatHHmm(x)]
  {
  }

  /** The value `getAvailableSlots` resolves to. */
  function Slots(db: Attempt<Reads>, weekday: int, specialistId: Option<string>, now: Option<int>): seq<string>
    requires db.Returned? ==> SlotDuration(db.value.slotDuration) > 0
  {
    if db.Raised? then [] else Render(AvailableStarts(db.value, weekday, specialistId, now))
  }

  /**
   * `getAvailableSlots`: the slot loop over the chosen row's hours. A negative configured
   * duration is excluded: `|| 30` does not catch it and the loop would never leave.
   */
  method GetAvailableSlots(db: Attempt<Reads>, weekday: int, specialistId: Option<string>, now: Option<int>)
    returns (slots: seq<string>)
    requires db.Returned? ==> SlotDuration(db.value.slotDuration) > 0
    ensures slots == Slots(db, weekday, specialistId, now)
  {
    if db.Raised? {
      return [];
    }
    var r := db.value;
    var d := SlotDuration(r.slotDuration);
    var dayHours := DayHours(r.hoursTable, weekday);
    if dayHours.None? || dayHours.value.isClosed || dayHours.value.openTime.None? || dayHours.value.closeTime.None? {
      return [];
    }
    var busy := BusyIntervals(r.bookings, specialistId);
    slots := SlotLoop(dayHours.value.openTime.value, dayHours.value.closeTime.value, d, now, busy);
  }

  /** The loop of `getAvailableSlots`: walk the grid from open, stopping when a slot would pass close. */
  method SlotLoop(open: nat, close: nat, d: int, now: Option<int>, busy: seq<Interval>) returns (slots: seq<string>)
    requires d > 0
    ensures slots == Render(StartsFrom(open, close, d, now, busy))
  {
    ghost var all := StartsFrom(open, close, d, now, busy);
    ghost var starts: seq<nat> := [];
    slots := [];
    var cur: nat := open;
    while cur < close
      invariant starts + StartsFrom(cur, close, d, now, busy) == all
      invariant slots == Render(starts)
      decreases close - cur
    {
      var endOfSlot := cur + d;
      if endOfSlot > close {
        break;
      }
      ghost var rest := StartsFrom(cur + d, close, d, now, busy);
      if now.Some? && cur * MsPerMinute < now.value {
        cur := cur + d;
        continue;
      }
      var isOccupied := Occupied(cur, endOfSlot, busy);
      if !isOccupied {
        assert StartsFrom(cur, close, d, now, busy) == [cur] + rest;
        assert starts + ([cur] + rest) == (starts + [cur]) + rest;
        RenderSnoc(starts, cur);
        slots := slots + [FormatHHmm(cur)];
        starts := starts + [cur];
      }
      cur := cur + d;
    }
    assert StartsFrom(cur, close, d, now, busy) == [];
  }

  // ---------------------------------------------------------------------------------
  // What the emitted starts are.

  /** An emitted start is a grid point from `cur`, fits before close, is not past and not occupied. */
  lemma {:induction false} StartsSound(cur: nat, close: int, d: int, now: Option<int>, busy: seq<Interval>, x: int)
    requires d > 0
    requires x in StartsFrom(cur, close, d, now, busy)
    ensures cur <= x && x + d <= close
    ensures OnGrid(x, cur, d)
    ensures Offered(x, d, now, busy)
    decreases close - cur
  {
    if x == cur && Offered(cur, d, now, busy) {
      assert x == GridPoint(cur, d, 0);
    } else {
      StartsSound(cur + d, close, d, now, busy, x);
      var k: nat :| x == GridPoint(cur + d, d, k);
      assert x == GridPoint(cur, d, k + 1);
    }
  }

  /** Every grid point that fits before close and is neither past nor occupied is emitted. */
  lemma {:induction false} StartsComplete(cur: nat, close: int, d: int, now: Option<int>, busy: seq<Interval>, k: nat)
    requires d > 0
    requires GridPoint(cur, d, k) + d <= close
    requires Offered(GridPoint(cur, d, k), d, now, busy)
    ensures GridPoint(cur, d, k) in StartsFrom(cur, close, d, now, busy)
    decreases k
  {
    if k > 0 {
      assert GridPoint(cur, d, k) == GridPoint(cur + d, d, k - 1);
      StartsComplete(cur + d, close, d, now, busy, k - 1);
    }
  }

  predicate StrictlyIncreasing(s: seq<int>) {
    forall i, j | 0 <= i < j < |s| :: s[i] < s[j]
  }

  /** The starts come out strictly increasing, all at or after `cur`. */
  lemma {:induction false} StartsIncreasing(cur: nat, close: int, d: int, now: Option<int>, busy: seq<Interval>)
    requires d > 0
    ensures StrictlyIncreasing(StartsFrom(cur, close, d, now, busy))
    decreases close - cur
  {
    if cur + d <= close {
      var rest := StartsFrom(cur + d, close, d, now, busy);
      StartsIncreasing(cur + d, close, d, now, busy);
      forall x | x in rest ensures x > cur {
        StartsSound(cur + d, close, d, now, busy, x);
      }
      var s := StartsFrom(cur, close, d, now, busy);
      if Offered(cur, d, now, busy) {
        assert s == [cur] + rest;
        forall i, j | 0 <= i < j < |s| ensures s[i] < s[j] {
          assert s[j] == rest[j - 1];
          assert rest[j - 1] in rest;
          if i > 0 {
            assert s[i] == rest[i - 1];
          }
        }
      } else {
        assert s == rest;
      }
    }
  }

  /** Membership in both directions: exactly the offered grid points that fit before close. */
  lemma StartsExactly(open: nat, close: int, d: int, now: Option<int>, busy: seq<Interval>, x: int)
    requires d > 0
    ensures x in StartsFrom(open, close, d, now, busy) <==>
      (x + d <= close && OnGrid(x, open, d) && Offered(x, d, now, busy))
  {
    if x + d <= close && OnGrid(x, open, d) && Offered(x, d, now, busy) {
      var k: nat :| x == GridPoint(open, d, k);
      StartsComplete(open, close, d, now, busy, k);
    }
    if x in StartsFrom(open, close, d, now, busy) {
      StartsSound(open, close, d, now, busy, x);
    }
  }

  // ---------------------------------------------------------------------------------
  // The engine's contract, stated on `AvailableStarts` and `Slots`.

  /** A missing row, a closed day or a missing open or close time gives [], whatever else holds. */
  lemma ClosedDayNoSlots(db: Reads, weekday: int, specialistId: Option<string>, now: Option<int>)
    requires SlotDuration(db.slotDuration) > 0
    requires var row := DayHours(db.hoursTable, weekday);
      row.None? || row.value.isClosed || row.value.openTime.None? || row.value.closeTime.None?
    ensures Slots(Returned(db), weekday, specialistId, now) == []
  {
  }

  /** Open and close of the chosen row bound every emitted start: s >= open and s + d <= close. */
  lemma SlotsWithinHours(db: Reads, weekday: int, specialistId: Option<string>, now: Option<int>, s: int)
    requires SlotDuration(db.slotDuration) > 0
    requires s in AvailableStarts(db, weekday, specialistId, now)
    ensures var hours := OpenHours(DayHours(db.hoursTable, weekday));
      hours.Some? && hours.value.0 <= s && s + SlotDuration(db.slotDuration) <= hours.value.1
  {
    var hours := OpenHours(DayHours(db.hoursTable, weekday));
    StartsSound(hours.value.0, hours.value.1, SlotDuration(db.slotDuration), now,
                BusyIntervals(db.bookings, specialistId), s);
  }

  /** A slot ending exactly at closing time is emitted when free; one ending after it never is. */
  lemma ClosingBoundary(open: nat, close: int, d: int, now: Option<int>, busy: seq<Interval>, k: nat)
    requires d > 0
    ensures GridPoint(open, d, k) + d == close && Offered(GridPoint(open, d, k), d, now, busy) ==>
      GridPoint(open, d, k) in StartsFrom(open, close, d, now, busy)
    ensures GridPoint(open, d, k) + d > close ==> GridPoint(open, d, k) !in StartsFrom(open, close, d, now, busy)
  {
    var x := GridPoint(open, d, k);
    if x + d == close && Offered(x, d, now, busy) {
      StartsComplete(open, close, d, now, busy, k);
    }
    if x in StartsFrom(open, close, d, now, busy) {
      StartsSound(open, close, d, now, busy, x);
    }
  }

  /** No emitted slot [s, s + d) overlaps a booking the query selected. */
  lemma NoDoubleBooking(db: Reads, weekday: int, specialistId: Option<string>, now: Option<int>, s: int, b: BookingRow)
    requires SlotDuration(db.slotDuration) > 0
    requires s in AvailableStarts(db, weekday, specialistId, now)
    requires db.bookings.Some? && b in db.bookings.value && Selected(b, specialistId)
    ensures !(s < b.end && s + SlotDuration(db.slotDuration) > b.start)
  {
    var hours := OpenHours(DayHours(db.hoursTable, weekday));
    var busy := BusyIntervals(db.bookings, specialistId);
    StartsSound(hours.value.0, hours.value.1, SlotDuration(db.slotDuration), now, busy, s);
    assert Interval(b.start, b.end) in busy;
  }

  /** On today's date no emitted start lies before now. */
  lemma NoPastSlots(db: Reads, weekday: int, specialistId: Option<string>, nowMs: int, s: int)
    requires SlotDuration(db.slotDuration) > 0
    requires s in AvailableStarts(db, weekday, specialistId, Some(nowMs))
    ensures s * MsPerMinute >= nowMs
  {
    var hours := OpenHours(DayHours(db.hoursTable, weekday));
    StartsSound(hours.value.0, hours.value.1, SlotDuration(db.slotDuration), Some(nowMs),
                BusyIntervals(db.bookings, specialistId), s);
  }

  /**
   * A past slot is skipped without ending the loop: a start at or after now is emitted
   * exactly when it would be on a date other than today.
   */
  lemma PastSkipKeepsLaterSlots(open: nat, close: int, d: int, nowMs: int, busy: seq<Interval>, s: int)
    requires d > 0
    requires s * MsPerMinute >= nowMs
    ensures s in StartsFrom(open, close, d, Some(nowMs), busy) <==> s in StartsFrom(open, close, d, None, busy)
  {
    StartsExactly(open, close, d, Some(nowMs), busy, s);
    StartsExactly(open, close, d, None, busy, s);
  }

  /** Output order is grid order: strictly increasing, each start `open + k * d`. */
  lemma SlotsInGridOrder(db: Reads, weekday: int, specialistId: Option<string>, now: Option<int>)
    requires SlotDuration(db.slotDuration) > 0
    ensures var starts := AvailableStarts(db, weekday, specialistId, now);
      var hours := OpenHours(DayHours(db.hoursTable, weekday));
      && StrictlyIncreasing(starts)
      && (forall i | 0 <= i < |starts| ::
            hours.Some? && OnGrid(starts[i], hours.value.0, SlotDuration(db.slotDuration)))
  {
    var starts := AvailableStarts(db, weekday, specialistId, now);
    var hours := OpenHours(DayHours(db.hoursTable, weekday));
    if hours.Some? {
      var d, busy := SlotDuration(db.slotDuration), BusyIntervals(db.bookings, specialistId);
      assert starts == StartsFrom(hours.value.0, hours.value.1, d, now, busy);
      StartsIncreasing(hours.value.0, hours.value.1, d, now, busy);
      forall i | 0 <= i < |starts| ensures OnGrid(starts[i], hours.value.0, d) {
        StartsSound(hours.value.0, hours.value.1, d, now, busy, starts[i]);
      }
    }
  }

  /** Only pending or confirmed bookings block, and under a specialist filter only that specialist's. */
  lemma OnlyHeldBookingsBlock(rows: seq<BookingRow>, specialistId: Option<string>, start: int, end: int)
    requires Occupied(start, end, Blocking(rows, specialistId))
    ensures exists b | b in rows :: && HoldsSlot(b.status)
                                  && (FiltersSpecialist(specialistId) ==> b.specialistId == specialistId)
                                  && Overlaps(start, end, Interval(b.start, b.end))
  {
    var iv :| iv in Blocking(rows, specialistId) && Overlaps(start, end, iv);
    var b :| b in rows && Selected(b, specialistId) && iv == Interval(b.start, b.end);
  }

  /** Back-to-back bookings do not block: one ending at s or starting at s + d leaves [s, s + d) free. */
  lemma AdjacentBookingsDoNotBlock(s: int, d: int, before: int, after: int)
    requires d > 0 && before <= s && s + d <= after
    ensures !Occupied(s, s + d, [Interval(before, s), Interval(s + d, after)])
  {
  }

  // ---------------------------------------------------------------------------------
  // Worked cases: 09:00-13:00 open, 30-minute slots, no specialist filter.

  function MorningDay(bookings: seq<BookingRow>): Reads {
    Reads(Some(30), [HoursRow(2, Some(540), Some(780), false)], Some(bookings))
  }

  /** Bookings that end by the current grid point no longer block anything from it on. */
  lemma {:induction false} StartsAfterBusy(cur: nat, close: int, d: int, now: Option<int>, busy: seq<Interval>)
    requires d > 0
    requires forall iv | iv in busy :: iv.end <= cur
    ensures StartsFrom(cur, close, d, now, busy) == StartsFrom(cur, close, d, now, [])
    decreases close - cur
  {
    if cur + d <= close {
      assert Offered(cur, d, now, busy) == Offered(cur, d, now, []);
      StartsAfterBusy(cur + d, close, d, now, busy);
    }
  }

  /** The free grid of a 09:00 to 13:00 day with 30-minute slots, from 10:30 on... */
  lemma FreeFromHalfPastTen()
    ensures StartsFrom(630, 780, 30, None, []) == [630, 660, 690, 720, 750]
  {
    assert StartsFrom(750, 780, 30, None, []) == [750];
    assert StartsFrom(720, 780, 30, None, []) == [720, 750];
    assert StartsFrom(690, 780, 30, None, []) == [690, 720, 750];
    assert StartsFrom(660, 780, 30, None, []) == [660, 690, 720, 750];
  }

  /** ...and from 10:00 on. */
  lemma FreeFromTen()
    ensures StartsFrom(600, 780, 30, None, []) == [600, 630, 660, 690, 720, 750]
  {
    FreeFromHalfPastTen();
  }

  /** No bookings on a later date: eight starts, the last one ending exactly at 13:00. */
  lemma MorningFreeStarts()
    ensures AvailableStarts(MorningDay([]), 2, None, None) == [540, 570, 600, 630, 660, 690, 720, 750]
  {
    var busy: seq<Interval> := [];
    assert DayHours(MorningDay([]).hoursTable, 2) == Some(HoursRow(2, Some(540), Some(780), false));
    assert BusyIntervals(MorningDay([]).bookings, None) == busy;
    FreeFromTen();
    assert StartsFrom(570, 780, 30, None, busy) == [570, 600, 630, 660, 690, 720, 750];
  }

  /** `format(..., 'HH:mm')` on the morning's first four starts. */
  lemma EarlyLabels()
    ensures FormatHHmm(540) == "09:00" && FormatHHmm(570) == "09:30"
    ensures FormatHHmm(600) == "10:00" && FormatHHmm(630) == "10:30"
  {
  }

  /** `format(..., 'HH:mm')` on the morning's last four starts. */
  lemma LateLabels()
    ensures FormatHHmm(660) == "11:00" && FormatHHmm(690) == "11:30"
    ensures FormatHHmm(720) == "12:00" && FormatHHmm(750) == "12:30"
  {
  }

  /** The morning's starts, formatted. */
  lemma MorningLabels()
    ensures Render([540, 570, 600, 630, 660, 690, 720, 750])
         == ["09:00", "09:30", "10:00", "10:30", "11:00", "11:30", "12:00", "12:30"]
  {
    EarlyLabels();
    LateLabels();
  }

  /** The free morning as the page lists it. */
  lemma MorningFreeDay()
    ensures Slots(Returned(MorningDay([])), 2, None, None)
         == ["09:00", "09:30", "10:00", "10:30", "11:00", "11:30", "12:00", "12:30"]
  {
    MorningFreeStarts();
    MorningLabels();
  }

  /** At 10:15 today the 09:00 to 10:00 starts are past; 10:30 on remain. */
  lemma MorningAtQuarterPastTen()
    ensures AvailableStarts(MorningDay([]), 2, None, Some(615 * MsPerMinute)) == [630, 660, 690, 720, 750]
  {
    var busy: seq<Interval> := [];
    assert DayHours(MorningDay([]).hoursTable, 2) == Some(HoursRow(2, Some(540), Some(780), false));
    assert BusyIntervals(MorningDay([]).bookings, None) == busy;
    assert StartsFrom(750, 780, 30, Some(615 * MsPerMinute), busy) == [750];
    assert StartsFrom(720, 780, 30, Some(615 * MsPerMinute), busy) == [720, 750];
    assert StartsFrom(690, 780, 30, Some(615 * MsPerMinute), busy) == [690, 720, 750];
    assert StartsFrom(660, 780, 30, Some(615 * MsPerMinute), busy) == [660, 690, 720, 750];
    assert StartsFrom(630, 780, 30, Some(615 * MsPerMinute), busy) == [630, 660, 690, 720, 750];
    assert StartsFrom(600, 780, 30, Some(615 * MsPerMinute), busy) == [630, 660, 690, 720, 750];
    assert StartsFrom(570, 780, 30, Some(615 * MsPerMinute), busy) == [630, 660, 690, 720, 750];
    assert StartsFrom(540, 780, 30, Some(615 * MsPerMinute), busy) == [630, 660, 690, 720, 750];
  }

  /** Busy 09:30 to 10:00: the grid loses only 09:30. */
  lemma GridAroundOneBooking()
    ensures StartsFrom(540, 780, 30, None, [Interval(570, 600)]) == [540, 600, 630, 660, 690, 720, 750]
  {
    var busy := [Interval(570, 600)];
    StartsAfterBusy(600, 780, 30, None, busy);
    FreeFromTen();
    assert busy[0] in busy && Overlaps(570, 600, busy[0]);
    assert StartsFrom(570, 780, 30, None, busy) == [600, 630, 660, 690, 720, 750];
  }

  /** A pending 09:30-10:00 booking removes only the 09:30 start. */
  lemma MorningOneBooking()
    ensures AvailableStarts(MorningDay([BookingRow(570, 600, Pending, None)]), 2, None, None)
         == [540, 600, 630, 660, 690, 720, 750]
  {
    var db := MorningDay([BookingRow(570, 600, Pending, None)]);
    assert OpenHours(DayHours(db.hoursTable, 2)) == Some((540, 780));
    assert BusyIntervals(db.bookings, None) == [Interval(570, 600)];
    assert SlotDuration(db.slotDuration) == 30;
    GridAroundOneBooking();
  }

  /** Busy 09:00 to 09:45 and 09:30 to 10:15: the grid starts at 10:30. */
  lemma GridAroundTwoBookings()
    ensures StartsFrom(540, 780, 30, None, [Interval(540, 585), Interval(570, 615)]) == [630, 660, 690, 720, 750]
  {
    var busy := [Interval(540, 585), Interval(570, 615)];
    StartsAfterBusy(630, 780, 30, None, busy);
    FreeFromHalfPastTen();
    assert busy[0] in busy && busy[1] in busy;
    assert StartsFrom(600, 780, 30, None, busy) == [630, 660, 690, 720, 750];
    assert StartsFrom(570, 780, 30, None, busy) == [630, 660, 690, 720, 750];
  }

  /** Overlapping bookings 09:00-09:45 and 09:30-10:15: 10:30 is the first free start. */
  lemma MorningOverlappingBookings()
    ensures AvailableStarts(MorningDay([BookingRow(540, 585, Confirmed, None), BookingRow(570, 615, Pending, None)]),
                            2, None, None)
         == [630, 660, 690, 720, 750]
  {
    var rows := [BookingRow(540, 585, Confirmed, None), BookingRow(570, 615, Pending, None)];
    var db := MorningDay(rows);
    assert OpenHours(DayHours(db.hoursTable, 2)) == Some((540, 780));
    assert rows[1..] == [BookingRow(570, 615, Pending, None)];
    assert BusyIntervals(db.bookings, None) == [Interval(540, 585), Interval(570, 615)];
    assert SlotDuration(db.slotDuration) == 30;
    GridAroundTwoBookings();
  }

  /** Open 09:00 to 09:20 with 30-minute slots: no slot fits. */
  lemma ShortDayNoSlot()
    ensures AvailableStarts(Reads(Some(30), [HoursRow(2, Some(540), Some(560), false)], Some([])), 2, None, None) == []
  {
    assert DayHours([HoursRow(2, Some(540), Some(560), false)], 2) == Some(HoursRow(2, Some(540), Some(560), false));
  }
}

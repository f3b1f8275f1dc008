/**
 * The business settings page of app/admin/configuracion/page.tsx: the weekly opening hours
 * editor and the slot duration. Loading fills one entry per weekday from the `business_hours`
 * rows, with defaults for the days that have none; saving updates each day's row or inserts
 * one, then updates or creates the `business_settings` row.
 *
 * The database answers are inputs: the user's businesses, the hours rows (None when the query
 * fails), the settings row, and which writes it refuses.
 */
module BusinessConfig {
  import opened Common
  import opened JsString

  /** An entry of `DAYS_OF_WEEK`: the `day_of_week` number (0 is Sunday) and its name. */
  datatype Day = Day(value: int, name: string)

  /** The editor lists the week from Monday to Sunday. */
  const DaysOfWeek: seq<Day> := [
    Day(1, "Lunes"), Day(2, "Martes"), Day(3, "Mi\U{E9}rcoles"), Day(4, "Jueves"),
    Day(5, "Viernes"), Day(6, "S\U{E1}bado"), Day(0, "Domingo")]

  /** The day numbers in editor order. */
  function DayValues(): (r: seq<int>)
    ensures |r| == |DaysOfWeek| && forall i | 0 <= i < |r| :: r[i] == DaysOfWeek[i].value
  {
    seq(|DaysOfWeek|, i requires 0 <= i < |DaysOfWeek| => DaysOfWeek[i].value)
  }

  /** The editor lists each day number 0..6 exactly once, Monday (1) first and Sunday (0) last. */
  lemma DaysOfWeekCoverWeek()
    ensures |DaysOfWeek| == 7
    ensures forall i, j | 0 <= i < j < 7 :: DaysOfWeek[i].value != DaysOfWeek[j].value
    ensures forall d | 0 <= d < 7 :: d in DayValues()
    ensures forall d | d in DayValues() :: 0 <= d < 7
    ensures DaysOfWeek[0].value == 1 && DaysOfWeek[6].value == 0
  {
    var v := DayValues();
    assert v == [1, 2, 3, 4, 5, 6, 0];
  }

  // ---------------------------------------------------------------------------------
  // Loading the hours.

  /** One day in the editor. */
  datatype DayHours = DayHours(open: string, close: string, closed: bool)

  /** A row of `business_hours`; the optional columns are None when null. */
  datatype HoursRow = HoursRow(id: string, dayOfWeek: int, openTime: Option<string>,
                               closeTime: Option<string>, isClosed: Option<bool>)

  const DefaultOpen := "09:00"
  const DefaultClose := "18:00"

  /** `hoursData.find(h => h.day_of_week === day)`: the first row for the day. */
  function FindDay(rows: seq<HoursRow>, day: int): (r: Option<HoursRow>)
    ensures r.Some? <==> exists i | 0 <= i < |rows| :: rows[i].dayOfWeek == day
    ensures r.Some? ==>
      exists i | 0 <= i < |rows| :: rows[i] == r.value && rows[i].dayOfWeek == day && forall j | 0 <= j < i :: rows[j].dayOfWeek != day
  {
    if rows == [] then None
    else if rows[0].dayOfWeek == day then Some(rows[0])
    else
      var r := FindDay(rows[1..], day);
      assert forall i | 1 <= i < |rows| :: rows[i] == rows[1..][i - 1];
      r
  }

  /** `x || fallback` on a nullable text column. */
  function OrDefault(x: Option<string>, fallback: string): string {
    if x.Some? && x.value != "" then x.value else fallback
  }

  /** The editor entry for a day, from its row if it has one. */
  function FromRow(row: Option<HoursRow>): DayHours {
    if row.None? then DayHours(DefaultOpen, DefaultClose, false)
    else DayHours(OrDefault(row.value.openTime, DefaultOpen), OrDefault(row.value.closeTime, DefaultClose),
                  row.value.isClosed == Some(true))
  }

  /** The hours map the page builds from the rows: every weekday, each from its first row. */
  function HoursMap(rows: seq<HoursRow>): map<int, DayHours> {
    map d | d in DayValues() :: FromRow(FindDay(rows, d))
  }

  /** `DAYS_OF_WEEK.forEach(day => { hoursMap[day.value] = … })` */
  method BuildHours(rows: seq<HoursRow>) returns (hours: map<int, DayHours>)
    ensures hours == HoursMap(rows)
  {
    var values := DayValues();
    hours := map[];
    var i := 0;
    while i < |values|
      invariant 0 <= i <= |values|
      invariant hours == map d | d in values[..i] :: FromRow(FindDay(rows, d))
    {
      assert values[..i + 1] == values[..i] + [values[i]];
      hours := hours[values[i] := FromRow(FindDay(rows, values[i]))];
      i := i + 1;
    }
    assert values[..i] == values;
  }

  /**
   * After loading, every day 0..6 has an entry: the day's stored times, or 09:00 and 18:00
   * where a time is missing, and open unless the row says closed.
   */
  lemma LoadedHoursCoverWeek(rows: seq<HoursRow>, d: int)
    requires 0 <= d < 7
    ensures d in HoursMap(rows)
    ensures (forall i | 0 <= i < |rows| :: rows[i].dayOfWeek != d) ==>
      HoursMap(rows)[d] == DayHours("09:00", "18:00", false)
    ensures forall r :: FindDay(rows, d) == Some(r) && r.openTime.Some? && r.openTime.value != "" ==>
      HoursMap(rows)[d].open == r.openTime.value
    ensures HoursMap(rows)[d].closed <==> FindDay(rows, d).Some? && FindDay(rows, d).value.isClosed == Some(true)
  {
    DaysOfWeekCoverWeek();
  }

  /** Only the weekdays get entries. */
  lemma HoursMapKeys(rows: seq<HoursRow>)
    ensures forall d | d in HoursMap(rows) :: 0 <= d < 7
  {
    DaysOfWeekCoverWeek();
  }

  // ---------------------------------------------------------------------------------
  // Editing.

  /** A field of a day and its new value. */
  datatype Field = Open(time: string) | Close(time: string) | Closed(closed: bool)

  /**
   * `updateDayHours(day, field, value)`. The editor calls it only for the days it shows,
   * which all have an entry.
   */
  function UpdateDayHours(hours: map<int, DayHours>, day: int, f: Field): map<int, DayHours>
    requires day in hours
  {
    var h := hours[day];
    hours[day := match f
      case Open(t) => h.(open := t)
      case Close(t) => h.(close := t)
      case Closed(c) => h.(closed := c)]
  }

  /** An edit changes only the named field of the named day. */
  lemma UpdateChangesOneField(hours: map<int, DayHours>, day: int, f: Field)
    requires day in hours
    ensures var r := UpdateDayHours(hours, day, f);
      && r.Keys == hours.Keys
      && (forall d | d in hours && d != day :: r[d] == hours[d])
      && (f.Open? ==> r[day] == DayHours(f.time, hours[day].close, hours[day].closed))
      && (f.Close? ==> r[day] == DayHours(hours[day].open, f.time, hours[day].closed))
      && (f.Closed? ==> r[day] == DayHours(hours[day].open, hours[day].close, f.closed))
  {
  }

  /** Setting a field to the value it has changes nothing. */
  lemma UpdateToSameValue(hours: map<int, DayHours>, day: int)
    requires day in hours
    ensures UpdateDayHours(hours, day, Open(hours[day].open)) == hours
    ensures UpdateDayHours(hours, day, Close(hours[day].close)) == hours
    ensures UpdateDayHours(hours, day, Closed(hours[day].closed)) == hours
  {
  }

  // ---------------------------------------------------------------------------------
  // Saving.

  /** A `business_hours` write. */
  datatype HoursWrite =
    | UpdateHours(rowId: string, hours: DayHours)
    | InsertHours(businessId: string, day: int, hours: DayHours)

  /** The write for a day: update the day's existing row, or insert one. */
  function WriteFor(hours: map<int, DayHours>, existing: seq<HoursRow>, businessId: string, day: int): HoursWrite
    requires day in hours
  {
    var row := FindDay(existing, day);
    if row.Some? then UpdateHours(row.value.id, hours[day]) else InsertHours(businessId, day, hours[day])
  }

  /** The writes for the given days in order, skipping the days without an entry. */
  function Plan(hours: map<int, DayHours>, existing: seq<HoursRow>, businessId: string, days: seq<int>): seq<HoursWrite> {
    if days == [] then []
    else
      var last := days[|days| - 1];
      Plan(hours, existing, businessId, days[..|days| - 1])
        + (if last in hours then [WriteFor(hours, existing, businessId, last)] else [])
  }

  /** With every day present, the plan holds exactly one write per day, in editor order. */
  lemma {:induction false} PlanOnePerDay(hours: map<int, DayHours>, existing: seq<HoursRow>, businessId: string, days: seq<int>)
    requires forall d | d in days :: d in hours
    ensures |Plan(hours, existing, businessId, days)| == |days|
    ensures forall k | 0 <= k < |days| :: Plan(hours, existing, businessId, days)[k] == WriteFor(hours, existing, businessId, days[k])
  {
    if days != [] {
      var init := days[..|days| - 1];
      assert forall d | d in init :: d in days;
      PlanOnePerDay(hours, existing, businessId, init);
    }
  }

  /** A day with a stored row is updated in place; a day without one gets a new row of this business. */
  lemma WriteForCases(hours: map<int, DayHours>, existing: seq<HoursRow>, businessId: string, day: int)
    requires day in hours
    ensures WriteFor(hours, existing, businessId, day).UpdateHours? <==> exists i | 0 <= i < |existing| :: existing[i].dayOfWeek == day
    ensures WriteFor(hours, existing, businessId, day).UpdateHours? ==>
      exists i | 0 <= i < |existing| :: existing[i].id == WriteFor(hours, existing, businessId, day).rowId && existing[i].dayOfWeek == day
    ensures WriteFor(hours, existing, businessId, day).InsertHours? ==>
      WriteFor(hours, existing, businessId, day) == InsertHours(businessId, day, hours[day])
    ensures WriteFor(hours, existing, businessId, day).hours == hours[day]
  {
  }

  /** Whether the database refuses a write the hours loop issues. */
  predicate Refused(hours: map<int, DayHours>, refusedDay: Option<int>) {
    refusedDay.Some? && refusedDay.value in hours && 0 <= refusedDay.value < 7
  }

  /**
   * The hours loop of `handleSave`: one write per day in editor order; the write the database
   * refuses (that of `refusedDay`) throws and ends the save after it.
   */
  method SaveHours(hours: map<int, DayHours>, existing: seq<HoursRow>, businessId: string, refusedDay: Option<int>)
    returns (issued: seq<HoursWrite>, ok: bool)
    ensures ok <==> !Refused(hours, refusedDay)
    ensures ok ==> issued == Plan(hours, existing, businessId, DayValues())
    ensures !ok ==>
      exists k | 0 <= k < 7 :: DayValues()[k] == refusedDay.value && issued == Plan(hours, existing, businessId, DayValues()[..k + 1])
  {
    DaysOfWeekCoverWeek();
    var values := DayValues();
    issued := [];
    var i := 0;
    while i < |values|
      invariant 0 <= i <= |values|
      invariant issued == Plan(hours, existing, businessId, values[..i])
      invariant forall j | 0 <= j < i :: !(refusedDay == Some(values[j]) && values[j] in hours)
    {
      var day := values[i];
      var next := values[..i + 1];
      assert next[..|next| - 1] == values[..i] && next[|next| - 1] == day;
      if day in hours {
        issued := issued + [WriteFor(hours, existing, businessId, day)];
        if refusedDay == Some(day) {
          assert day in DayValues();
          return issued, false;
        }
      }
      i := i + 1;
    }
    assert values[..i] == values;
    assert forall d | d in values :: !(refusedDay == Some(d) && d in hours);
    ok := true;
  }

  /** A `business_settings` write. */
  datatype SettingsWrite =
    | UpdateSettings(slotDuration: Option<int>)
    | InsertSettings(businessId: string, slotDuration: Option<int>, advanceBookingDays: int, reminderHours: int)

  /** The settings write: `slot_duration: parseInt(slotDuration)`, and defaults for a new row. */
  function SettingsWriteFor(hasSettings: bool, businessId: string, slotDuration: string): (r: SettingsWrite)
  {
    if hasSettings then UpdateSettings(ParseInt(slotDuration))
    else InsertSettings(businessId, ParseInt(slotDuration), 30, 24)
  }

  /** A new settings row books up to 30 days ahead and reminds 24 hours before; both rows store the parsed duration. */
  lemma NewSettingsDefaults(hasSettings: bool, businessId: string, slotDuration: string)
    ensures var w := SettingsWriteFor(hasSettings, businessId, slotDuration);
      && (w.InsertSettings? <==> !hasSettings)
      && (w.InsertSettings? ==> w.businessId == businessId && w.advanceBookingDays == 30 && w.reminderHours == 24)
      && w.slotDuration == ParseInt(slotDuration)
  {
  }

  /** The writes `handleSave` issues, in order, and whether it all went through. */
  datatype SaveReport = SaveReport(businessUpdated: bool, hoursWrites: seq<HoursWrite>,
                                   settings: Option<SettingsWrite>, ok: bool)

  /** A business as `getUserBusinesses` returns it. */
  datatype Business = Business(id: string)

  /** What the database answers during a save. */
  datatype Answers = Answers(businessOk: bool, refusedDay: Option<int>, hasSettings: bool, settingsOk: bool)

  // ---------------------------------------------------------------------------------
  // The page state.

  class ConfigPage {
    var business: Option<Business>
    var hours: map<int, DayHours>
    var existing: seq<HoursRow>
    var slotDuration: string

    constructor()
      ensures business.None? && hours == map[] && existing == [] && slotDuration == "30"
    {
      business := None;
      hours := map[];
      existing := [];
      slotDuration := "30";
    }

    /**
     * `loadBusiness()`: the first business; its hours (when the query succeeds) and then its
     * settings row's duration, written back as text, or '30' when the row has none.
     * `settings` is None when there is no settings row, Some(None) when its duration is null.
     */
    method Load(businesses: seq<Business>, rows: Option<seq<HoursRow>>, settings: Option<Option<int>>)
      modifies this
      ensures businesses == [] ==> unchanged(this)
      ensures businesses != [] ==> business == Some(businesses[0])
      ensures businesses != [] && rows.Some? ==> hours == HoursMap(rows.value) && existing == rows.value
      ensures businesses == [] || rows.None? ==> hours == old(hours) && existing == old(existing)
      ensures slotDuration ==
        if businesses != [] && rows.Some? && settings.Some? then
          (if settings.value.Some? then IntToString(settings.value.value) else "30")
        else old(slotDuration)
    {
      if businesses == [] {
        return;
      }
      business := Some(businesses[0]);
      if rows.None? {
        return;
      }
      hours := BuildHours(rows.value);
      existing := rows.value;
      if settings.Some? {
        slotDuration := if settings.value.Some? then IntToString(settings.value.value) else "30";
      }
    }

    /** The editor's inputs. */
    method EditDay(day: int, f: Field)
      requires day in hours
      modifies this
      ensures hours == UpdateDayHours(old(hours), day, f)
      ensures business == old(business) && existing == old(existing) && slotDuration == old(slotDuration)
    {
      hours := UpdateDayHours(hours, day, f);
    }

    /**
     * `handleSave()`: update the business, then the hours day by day, then the settings; the
     * first refused write throws and ends the save. Without a business nothing is written.
     */
    method Save(a: Answers) returns (report: SaveReport)
      ensures business.None? ==> report == SaveReport(false, [], None, false)
      ensures business.Some? && !a.businessOk ==> report == SaveReport(true, [], None, false)
      ensures report.ok <==> business.Some? && a.businessOk && !Refused(hours, a.refusedDay) && a.settingsOk
      ensures report.settings.Some? <==> business.Some? && a.businessOk && !Refused(hours, a.refusedDay)
      ensures report.settings.Some? ==>
        && report.hoursWrites == Plan(hours, existing, business.value.id, DayValues())
        && report.settings.value == SettingsWriteFor(a.hasSettings, business.value.id, slotDuration)
    {
      if business.None? {
        return SaveReport(false, [], None, false);
      }
      if !a.businessOk {
        return SaveReport(true, [], None, false);
      }
      var issued, hoursOk := SaveHours(hours, existing, business.value.id, a.refusedDay);
      if !hoursOk {
        return SaveReport(true, issued, None, false);
      }
      var w := SettingsWriteFor(a.hasSettings, business.value.id, slotDuration);
      report := SaveReport(true, issued, Some(w), a.settingsOk);
    }
  }

  /** Saving right after loading a stored duration stores that same duration. */
  lemma DurationRoundTrip(hasSettings: bool, businessId: string, stored: int)
    ensures SettingsWriteFor(hasSettings, businessId, IntToString(stored)).slotDuration == Some(stored)
    ensures SettingsWriteFor(hasSettings, businessId, "30").slotDuration == Some(30)
  {
    IntToStringRoundTrip(stored);
    IntToStringRoundTrip(30);
    assert IntToString(30) == "30";
  }
}

/**
 * The month calendar of services: the grid of day cells, month navigation,
 * and the per-day service, status, conflict and today/past markers.
 */
module CalendarView {
  import opened Optional
  import opened Dates
  import opened Scheduling

  /** `new Date(year, month + 1, 0)` is the last day of the month: day 0 rolls back by one. */
  lemma DayZeroOfNextMonth(year: int, month: Month)
    ensures var next := if month == 12 then Date(year + 1, 1, 0) else Date(year, month + 1, 0);
      DayNumber(next) == DayNumber(Date(year, month, MonthLength(year, month)))
  {
    if month == 12 {
      NextYear(year);
      WholeYear(year);
    }
  }

  /**
   * `getDaysInMonth`: one blank cell per weekday before the 1st (0 = Sunday), then one cell per day
   * of the month in order; the grid never needs more than 37 cells.
   */
  method DaysInMonth(year: int, month: Month) returns (days: seq<Option<Date>>)
    ensures var blanks := Weekday(Date(year, month, 1));
      && |days| == blanks + MonthLength(year, month)
      && (forall i :: 0 <= i < blanks ==> days[i] == None)
      && (forall i :: blanks <= i < |days| ==> days[i] == Some(Date(year, month, i - blanks + 1)))
    ensures |days| <= 37
  {
    var startingDayOfWeek := Weekday(Date(year, month, 1));
    var daysInMonth := MonthLength(year, month);
    days := [];
    var i := 0;
    while i < startingDayOfWeek
      invariant 0 <= i <= startingDayOfWeek
      invariant |days| == i
      invariant forall k :: 0 <= k < i ==> days[k] == None
    {
      days := days + [None];
      i := i + 1;
    }
    var day := 1;
    while day <= daysInMonth
      invariant 1 <= day <= daysInMonth + 1
      invariant |days| == startingDayOfWeek + day - 1
      invariant forall k :: 0 <= k < startingDayOfWeek ==> days[k] == None
      invariant forall k :: startingDayOfWeek <= k < |days| ==> days[k] == Some(Date(year, month, k - startingDayOfWeek + 1))
    {
      days := days + [Some(Date(year, month, day))];
      day := day + 1;
    }
  }

  /** The calendar's state: the month on show, held as a full date as `new Date()` gives it. */
  class Calendar {
    var current: Date

    ghost predicate Valid()
      reads this
    {
      Dates.Valid(current)
    }

    constructor (today: Date)
      requires Dates.Valid(today)
      ensures Valid() && current == today
    {
      current := today;
    }

    /** `navigateMonth(direction)`: `setMonth(getMonth() + direction)` on a copy. */
    method Navigate(direction: int)
      requires Valid()
      modifies this
      ensures Valid()
      ensures current == AddMonths(old(current), direction)
    {
      current := AddMonths(current, direction);
    }

    /** The 'Today' button. */
    method GoToday(today: Date)
      requires Dates.Valid(today)
      modifies this
      ensures Valid() && current == today
    {
      current := today;
    }
  }

  /** Previous then Next returns to the same month and day whenever the day exists in every month. */
  lemma PreviousThenNext(d: Date)
    requires Dates.Valid(d) && d.day <= 28
    ensures AddMonths(AddMonths(d, -1), 1) == d
    ensures MonthIndex(AddMonths(d, 1)) == MonthIndex(d) + 1 && MonthIndex(AddMonths(d, -1)) == MonthIndex(d) - 1
  {
    AddMonthsInverse(d, -1);
  }

  /** `getServiceForDate`: the first service in list order on that day; blank cells have none. */
  function ServiceForDay(services: seq<Service>, day: Option<Date>): (r: Option<Service>)
    ensures day.None? ==> r.None?
    ensures r.Some? ==> day.Some? && exists i :: (0 <= i < |services| && services[i] == r.value && r.value.date == day.value
      && forall j :: 0 <= j < i ==> services[j].date != day.value)
    ensures day.Some? && r.None? ==> forall i :: 0 <= i < |services| ==> services[i].date != day.value
  {
    if day.None? then None else FirstOn(services, day.value)
  }

  function FirstOn(services: seq<Service>, d: Date): (r: Option<Service>)
    ensures r.Some? ==> exists i :: (0 <= i < |services| && services[i] == r.value && r.value.date == d
      && forall j :: 0 <= j < i ==> services[j].date != d)
    ensures r.None? ==> forall i :: 0 <= i < |services| ==> services[i].date != d
  {
    if services == [] then None
    else if services[0].date == d then Some(services[0])
    else
      var r := FirstOn(services[1..], d);
      assert forall i :: 0 < i < |services| ==> services[i] == services[1..][i - 1];
      if r.Some? then
        var i :| 0 <= i < |services| - 1 && services[1..][i] == r.value && r.value.date == d
                 && forall j :: 0 <= j < i ==> services[1..][j].date != d;
        assert services[i + 1] == r.value;
        r
      else
        r
  }

  /** `getConflictCount`: 0 without a service, otherwise the service's count (missing counts are 0). */
  function ConflictCount(service: Option<Service>): int {
    if service.None? then 0 else service.value.conflicts
  }

  /** `getAssignmentStatus`: 'none' without a service, otherwise the staffing rule. */
  function DayStatus(service: Option<Service>): Staffing {
    if service.None? then Unstaffed else StaffingOf(service.value)
  }

  /** The conflict dot shows exactly on days whose service reports conflicts. */
  lemma ConflictDot(services: seq<Service>, day: Option<Date>)
    ensures var s := ServiceForDay(services, day);
      ConflictCount(s) > 0 <==> s.Some? && s.value.conflicts > 0
    ensures var s := ServiceForDay(services, day);
      DayStatus(s) == Unstaffed <==> s.None? || |s.value.assignments| == 0
  {
  }

  /** `day.getTime() === today.getTime()` with `today` reset to midnight. */
  predicate IsToday(day: Date, today: Date) {
    DayNumber(day) == DayNumber(today)
  }

  /** `day < today`. */
  predicate IsPast(day: Date, today: Date) {
    DayNumber(day) < DayNumber(today)
  }

  /** For real dates, a cell is past exactly when it comes earlier in the calendar, and today exactly when it is the same date. */
  lemma PastAndToday(day: Date, today: Date)
    requires Dates.Valid(day) && Dates.Valid(today)
    ensures IsPast(day, today) <==> Before(day, today)
    ensures IsToday(day, today) <==> day == today
    ensures !(IsPast(day, today) && IsToday(day, today))
  {
    DayNumberOrder(day, today);
  }
}

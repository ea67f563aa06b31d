/** The schedule list screen's state: the in-memory schedule list with add,
    update, delete and enable toggling, the category / enabled-only filter,
    today's schedules and the next one due. The clock is a parameter. */
module ScheduleViewModel {
  import opened Wrappers
  import opened Sorting
  import opened Dates
  import opened Schedule
  import opened Data

  /** Time-of-day order: compareBy({ it.hour }, { it.minute }). */
  function ByTime(a: Schedule, b: Schedule): bool {
    a.hour < b.hour || (a.hour == b.hour && a.minute <= b.minute)
  }

  lemma ByTimeTotalPreorder()
    ensures TotalPreorder(ByTime)
  {
  }

  /** Calendar DAY_OF_WEEK (1 = Sunday) to the app's numbering, 1 = Monday .. 7 = Sunday. */
  function OurDayOfWeek(calendarDay: int): (d: int)
    requires SUNDAY <= calendarDay <= SATURDAY
    ensures 1 <= d <= 7
    ensures d == 7 <==> calendarDay == SUNDAY
    ensures calendarDay != SUNDAY ==> d == calendarDay - 1
  {
    if calendarDay == SUNDAY then 7 else calendarDay - 1
  }

  /** Different weekdays give different day numbers. */
  lemma OurDayOfWeekInjective(a: int, b: int)
    requires SUNDAY <= a <= SATURDAY && SUNDAY <= b <= SATURDAY
    ensures OurDayOfWeek(a) == OurDayOfWeek(b) ==> a == b
  {
  }

  predicate FilterMatch(s: Schedule, category: string, showEnabledOnly: bool) {
    (category == "All" || s.category == category) && (!showEnabledOnly || s.isEnabled)
  }

  /** The list updateFilteredSchedules publishes: the matching schedules,
      sorted by time of day. */
  function FilteredSchedules(schedules: seq<Schedule>, category: string, showEnabledOnly: bool): (r: seq<Schedule>)
    ensures Sorted(r, ByTime)
    ensures multiset(r) == multiset(Filter(schedules, s => FilterMatch(s, category, showEnabledOnly)))
  {
    var kept := Filter(schedules, s => FilterMatch(s, category, showEnabledOnly));
    ByTimeTotalPreorder();
    SortBySorted(kept, ByTime);
    SortBy(kept, ByTime)
  }

  /** A schedule is shown exactly when it is in the list and passes both filters;
      with "All" and not enabled-only, every schedule is shown. */
  lemma FilteredSchedulesMembers(schedules: seq<Schedule>, category: string, showEnabledOnly: bool, x: Schedule)
    ensures x in FilteredSchedules(schedules, category, showEnabledOnly) <==>
      x in schedules && FilterMatch(x, category, showEnabledOnly)
    ensures category == "All" && !showEnabledOnly ==>
      multiset(FilteredSchedules(schedules, category, showEnabledOnly)) == multiset(schedules)
  {
    var p := s => FilterMatch(s, category, showEnabledOnly);
    var kept := Filter(schedules, p);
    assert x in FilteredSchedules(schedules, category, showEnabledOnly) <==> x in multiset(kept);
    if x in schedules && p(x) {
      var i :| 0 <= i < |schedules| && schedules[i] == x;
    }
    if category == "All" && !showEnabledOnly {
      FilterAll(schedules, p);
    }
  }

  predicate OnDay(s: Schedule, ourDay: int) {
    s.isEnabled && ourDay in EnabledDays(s.daysOfWeek)
  }

  /** getTodaySchedules for a day whose Calendar DAY_OF_WEEK is `calendarDay`. */
  function TodaySchedules(schedules: seq<Schedule>, calendarDay: int): (r: seq<Schedule>)
    requires SUNDAY <= calendarDay <= SATURDAY
    ensures Sorted(r, ByTime)
    ensures multiset(r) == multiset(Filter(schedules, s => OnDay(s, OurDayOfWeek(calendarDay))))
    ensures forall i :: 0 <= i < |r| ==> OnDay(r[i], OurDayOfWeek(calendarDay))
  {
    var ourDay := OurDayOfWeek(calendarDay);
    var kept := Filter(schedules, s => OnDay(s, ourDay));
    ByTimeTotalPreorder();
    SortBySorted(kept, ByTime);
    var r := SortBy(kept, ByTime);
    assert forall i :: 0 <= i < |r| ==> r[i] in multiset(kept);
    r
  }

  predicate After(s: Schedule, hour: int, minute: int) {
    s.hour > hour || (s.hour == hour && s.minute > minute)
  }

  /** getNextSchedule over today's schedules: the first one strictly after the
      current time, else the first one of the day, else none. */
  function NextSchedule(today: seq<Schedule>, hour: int, minute: int): (r: Option<Schedule>)
    ensures r.None? <==> today == []
    ensures (exists i :: 0 <= i < |today| && After(today[i], hour, minute)) ==>
      exists i :: 0 <= i < |today| && r == Some(today[i]) && After(today[i], hour, minute)
        && forall j :: 0 <= j < i ==> !After(today[j], hour, minute)
    ensures today != [] && (forall i :: 0 <= i < |today| ==> !After(today[i], hour, minute)) ==>
      r == Some(today[0])
  {
    match FindAfter(today, hour, minute)
    case Some(s) => Some(s)
    case None => if today == [] then None else Some(today[0])
  }

  /** `find { it is after the given time }`. */
  function FindAfter(xs: seq<Schedule>, hour: int, minute: int): (r: Option<Schedule>)
    ensures r.None? <==> forall i :: 0 <= i < |xs| ==> !After(xs[i], hour, minute)
    ensures r.Some? ==>
      exists i :: 0 <= i < |xs| && r.value == xs[i] && After(xs[i], hour, minute)
        && forall j :: 0 <= j < i ==> !After(xs[j], hour, minute)
  {
    if xs == [] then None
    else if After(xs[0], hour, minute) then Some(xs[0])
    else
      var r := FindAfter(xs[1..], hour, minute);
      if r.Some? then
        var i :| 0 <= i < |xs[1..]| && r.value == xs[1..][i] && After(xs[1..][i], hour, minute)
          && forall j :: 0 <= j < i ==> !After(xs[1..][j], hour, minute);
        assert r.value == xs[i + 1];
        r
      else r
  }

  /** The three sample schedules. */
  function Samples(): (r: seq<Schedule>)
    ensures |r| == 3 && r[0].id == 1 && r[1].id == 2 && r[2].id == 3
  {
    [ Schedule(1, "Wake up", Some("Start the day"), 7, 0, true, "1,2,3,4,5", "#4CAF50", "Personal", 0),
      Schedule(2, "Work", Some("Start work"), 9, 0, true, "1,2,3,4,5", "#2196F3", "Work", 0),
      Schedule(3, "Lunch", Some("Lunch break"), 12, 0, true, "1,2,3,4,5,6,7", "#FF9800", "Personal", 0) ]
  }

  function IndexOfId(schedules: seq<Schedule>, id: int): (i: int)
    ensures -1 <= i < |schedules|
    ensures i >= 0 ==> schedules[i].id == id && forall j :: 0 <= j < i ==> schedules[j].id != id
    ensures i == -1 ==> forall j :: 0 <= j < |schedules| ==> schedules[j].id != id
  {
    if schedules == [] then -1
    else if schedules[0].id == id then 0
    else
      var k := IndexOfId(schedules[1..], id);
      if k == -1 then -1 else k + 1
  }

  const HourMs := 3_600_000

  /** The calendar event a schedule produces on the day of instant `t`: at the
      schedule's hour and minute that day, with id `schedule.id * 1000 + t / 1000`. */
  function ScheduleEvent(s: Schedule, t: int): (e: Event)
    ensures e.kind == "Schedule" && e.title == s.title && e.description == s.description
    ensures e.id == s.id * 1000 + TruncDiv(t, 1000)
    ensures DayOf(e.date) == DayOf(t) <== 0 <= s.hour < 24 && 0 <= s.minute < 60
  {
    Event(s.id * 1000 + TruncDiv(t, 1000), s.title, s.description,
          DayOf(t) * DayMs + s.hour * HourMs + s.minute * MinuteMs, "Schedule")
  }

  /** For a valid hour and minute the event falls on the day of `t`, at the
      schedule's hour and minute. */
  lemma ScheduleEventAt(s: Schedule, t: int)
    requires 0 <= s.hour < 24 && 0 <= s.minute < 60
    ensures var e := ScheduleEvent(s, t);
      DayOf(e.date) == DayOf(t) && e.date % DayMs == s.hour * HourMs + s.minute * MinuteMs
  {
  }

  /** One schedule's events at instants two seconds or more apart (one day
      apart, in generateEventsFromSchedules) have different ids, later ones
      larger. Truncation sends the whole open interval from -1000 to 1000 ms
      to the same quotient, hence two seconds rather than one. */
  lemma ScheduleEventIdsIncrease(s: Schedule, t1: int, t2: int)
    requires t1 + 2000 <= t2
    ensures ScheduleEvent(s, t1).id < ScheduleEvent(s, t2).id
  {
  }

  predicate IsEnabled(s: Schedule) { s.isEnabled }

  predicate RunsOn(s: Schedule, t: int) {
    OurDayOfWeek(DayOfWeek(t)) in EnabledDays(s.daysOfWeek)
  }

  /** What one schedule adds to the day of `t`; `runs` is the day test, which
      generateEventsFromSchedules instantiates with RunsOn. */
  function Contribution(s: Schedule, t: int, runs: (Schedule, int) -> bool): seq<Event> {
    if runs(s, t) then [ScheduleEvent(s, t)] else []
  }

  /** The events of one day, in the order of the schedule list. */
  function DayEvents(enabled: seq<Schedule>, t: int, runs: (Schedule, int) -> bool): seq<Event> {
    if enabled == [] then [] else Contribution(enabled[0], t, runs) + DayEvents(enabled[1..], t, runs)
  }

  /** An event of a day comes from a schedule running that day, and every such
      schedule contributes its event. */
  lemma {:induction false} DayEventsMembers(enabled: seq<Schedule>, t: int, runs: (Schedule, int) -> bool, x: Event)
    ensures x in DayEvents(enabled, t, runs) <==>
      exists i :: 0 <= i < |enabled| && runs(enabled[i], t) && x == ScheduleEvent(enabled[i], t)
  {
    if enabled != [] {
      DayEventsMembers(enabled[1..], t, runs, x);
      if x in DayEvents(enabled[1..], t, runs) {
        var i :| 0 <= i < |enabled[1..]| && runs(enabled[1..][i], t) && x == ScheduleEvent(enabled[1..][i], t);
        assert enabled[i + 1] == enabled[1..][i];
      }
      if exists i :: 0 <= i < |enabled| && runs(enabled[i], t) && x == ScheduleEvent(enabled[i], t) {
        var i :| 0 <= i < |enabled| && runs(enabled[i], t) && x == ScheduleEvent(enabled[i], t);
        if i > 0 {
          assert enabled[1..][i - 1] == enabled[i];
        }
      }
    }
  }

  /** The events of the `n` days starting at `start`, day by day. */
  function EventsOfDays(enabled: seq<Schedule>, start: int, n: nat, runs: (Schedule, int) -> bool): seq<Event> {
    if n == 0 then [] else EventsOfDays(enabled, start, n - 1, runs) + DayEvents(enabled, AddDays(start, n - 1), runs)
  }

  /** An event of the range belongs to one of its days. */
  lemma {:induction false} EventsOfDaysMembers(enabled: seq<Schedule>, start: int, n: nat, runs: (Schedule, int) -> bool, x: Event)
    ensures x in EventsOfDays(enabled, start, n, runs) <==>
      exists k :: 0 <= k < n && x in DayEvents(enabled, AddDays(start, k), runs)
  {
    if n > 0 {
      EventsOfDaysMembers(enabled, start, n - 1, runs, x);
      EventsOfDaysLast(enabled, start, n, runs, x);
      SomeDayLast(enabled, start, n, runs, x);
    }
  }

  lemma SomeDayLast(enabled: seq<Schedule>, start: int, n: nat, runs: (Schedule, int) -> bool, x: Event)
    requires n > 0
    ensures (exists k :: 0 <= k < n && x in DayEvents(enabled, AddDays(start, k), runs))
      <==> (exists k :: 0 <= k < n - 1 && x in DayEvents(enabled, AddDays(start, k), runs))
           || x in DayEvents(enabled, AddDays(start, n - 1), runs)
  {
    if exists k :: 0 <= k < n && x in DayEvents(enabled, AddDays(start, k), runs) {
      var k :| 0 <= k < n && x in DayEvents(enabled, AddDays(start, k), runs);
      if k < n - 1 {
        assert 0 <= k < n - 1 && x in DayEvents(enabled, AddDays(start, k), runs);
      }
    }
    if exists k :: 0 <= k < n - 1 && x in DayEvents(enabled, AddDays(start, k), runs) {
      var k :| 0 <= k < n - 1 && x in DayEvents(enabled, AddDays(start, k), runs);
      assert 0 <= k < n && x in DayEvents(enabled, AddDays(start, k), runs);
    }
    if x in DayEvents(enabled, AddDays(start, n - 1), runs) {
      assert 0 <= n - 1 < n && x in DayEvents(enabled, AddDays(start, n - 1), runs);
    }
  }

  lemma EventsOfDaysLast(enabled: seq<Schedule>, start: int, n: nat, runs: (Schedule, int) -> bool, x: Event)
    requires n > 0
    ensures x in EventsOfDays(enabled, start, n, runs)
      <==> x in EventsOfDays(enabled, start, n - 1, runs) || x in DayEvents(enabled, AddDays(start, n - 1), runs)
  {
  }

  /** The number of days the loop visits: start, start + 1 day, ... while not after `end`. */
  function DaysInRange(start: int, end: int): (n: nat)
    ensures n > 0 ==> AddDays(start, n - 1) <= end && AddDays(start, n) > end
    ensures n == 0 <==> start > end
  {
    if start > end then 0 else (end - start) / DayMs + 1
  }

  /** Day `n` of the range is visited exactly when it is not after the end. */
  lemma InRangeBeforeEnd(start: int, end: int, n: nat)
    ensures AddDays(start, n) <= end <==> n < DaysInRange(start, end)
  {
    if start <= end {
      var q := (end - start) / DayMs;
      assert q * DayMs <= end - start < (q + 1) * DayMs;
      if n <= q {
        assert n * DayMs <= q * DayMs;
      } else {
        assert n * DayMs >= (q + 1) * DayMs;
      }
    }
  }

  lemma DayEventsStep(enabled: seq<Schedule>, i: int, t: int, runs: (Schedule, int) -> bool)
    requires 0 <= i < |enabled|
    ensures DayEvents(enabled[i..], t, runs) == Contribution(enabled[i], t, runs) + DayEvents(enabled[i + 1..], t, runs)
  {
    assert enabled[i..][1..] == enabled[i + 1..];
  }

  /** The inner loop of generateEventsFromSchedules: one day's events. */
  method EventsOfDay(enabled: seq<Schedule>, t: int, runs: (Schedule, int) -> bool) returns (dayEvents: seq<Event>)
    ensures dayEvents == DayEvents(enabled, t, runs)
  {
    var i := 0;
    dayEvents := [];
    while i < |enabled|
      invariant 0 <= i <= |enabled|
      invariant dayEvents + DayEvents(enabled[i..], t, runs) == DayEvents(enabled, t, runs)
    {
      DayEventsStep(enabled, i, t, runs);
      var schedule := enabled[i];
      dayEvents := dayEvents + Contribution(schedule, t, runs);
      i := i + 1;
    }
    assert enabled[i..] == [];
  }

  /** The day loop of generateEventsFromSchedules, before sorting. */
  method EventsOfRange(enabled: seq<Schedule>, startDate: int, endDate: int, runs: (Schedule, int) -> bool) returns (events: seq<Event>)
    ensures events == EventsOfDays(enabled, startDate, DaysInRange(startDate, endDate), runs)
  {
    events := [];
    var t := startDate;
    ghost var n: nat := 0;
    InRangeBeforeEnd(startDate, endDate, 0);
    while t <= endDate
      invariant t == AddDays(startDate, n)
      invariant t <= endDate <==> n < DaysInRange(startDate, endDate)
      invariant n <= DaysInRange(startDate, endDate)
      invariant events == EventsOfDays(enabled, startDate, n, runs)
      decreases DaysInRange(startDate, endDate) - n
    {
      var dayEvents := EventsOfDay(enabled, t, runs);
      events := events + dayEvents;
      t := AddDays(t, 1);
      n := n + 1;
      InRangeBeforeEnd(startDate, endDate, n);
    }
  }

  function ByDate(a: Event, b: Event): bool { a.date <= b.date }

  lemma ByDateTotalPreorder()
    ensures TotalPreorder(ByDate)
  {
  }

  class ScheduleViewModel {
    var schedules: seq<Schedule>
    var selectedCategory: string
    var showEnabledOnly: bool
    /** The published, filtered and sorted list. */
    var visible: seq<Schedule>

    predicate Published()
      reads this
    {
      visible == FilteredSchedules(schedules, selectedCategory, showEnabledOnly)
    }

    /** The view model starts with the filters "All" and not enabled-only, then loads. */
    constructor ()
      ensures selectedCategory == "All" && !showEnabledOnly
      ensures schedules == Samples() && Published()
    {
      schedules := [];
      selectedCategory := "All";
      showEnabledOnly := false;
      visible := [];
      new;
      LoadSchedulesFromRepository();
    }

    method UpdateFilteredSchedules()
      modifies this
      ensures Published()
      ensures schedules == old(schedules) && selectedCategory == old(selectedCategory)
      ensures showEnabledOnly == old(showEnabledOnly)
    {
      visible := FilteredSchedules(schedules, selectedCategory, showEnabledOnly);
    }

    /** loadSchedulesFromRepository: seeds the samples only into an empty list. */
    method LoadSchedulesFromRepository()
      modifies this
      ensures old(schedules) == [] ==> schedules == Samples()
      ensures old(schedules) != [] ==> schedules == old(schedules)
      ensures selectedCategory == old(selectedCategory) && showEnabledOnly == old(showEnabledOnly)
      ensures Published()
    {
      if schedules == [] {
        schedules := schedules + Samples();
      }
      UpdateFilteredSchedules();
    }

    /** addSchedule: appends a new enabled schedule whose id is the clock reading. */
    method AddSchedule(title: string, description: Option<string>, hour: int, minute: int,
                       daysOfWeek: string, category: string, color: string, now: int)
      modifies this
      ensures schedules == old(schedules) + [Schedule(now, title, description, hour, minute, true,
                                                      daysOfWeek, color, category, now)]
      ensures selectedCategory == old(selectedCategory) && showEnabledOnly == old(showEnabledOnly)
      ensures Published()
    {
      var newSchedule := Schedule(now, title, description, hour, minute, true, daysOfWeek, color, category, now);
      schedules := schedules + [newSchedule];
      UpdateFilteredSchedules();
    }

    /** updateSchedule: replaces the first schedule with the same id; with none,
        nothing changes (and nothing is republished). */
    method UpdateSchedule(s: Schedule)
      modifies this
      ensures IndexOfId(old(schedules), s.id) >= 0 ==>
        schedules == old(schedules)[IndexOfId(old(schedules), s.id) := s] && Published()
      ensures IndexOfId(old(schedules), s.id) == -1 ==>
        schedules == old(schedules) && visible == old(visible)
      ensures |schedules| == |old(schedules)|
      ensures selectedCategory == old(selectedCategory) && showEnabledOnly == old(showEnabledOnly)
    {
      var index := IndexOfId(schedules, s.id);
      if index != -1 {
        schedules := schedules[index := s];
        UpdateFilteredSchedules();
      }
    }

    /** deleteSchedule: removes every schedule with that id, keeping the rest in order. */
    method DeleteSchedule(s: Schedule)
      modifies this
      ensures schedules == Filter(old(schedules), (x: Schedule) => x.id != s.id)
      ensures forall i :: 0 <= i < |schedules| ==> schedules[i].id != s.id
      ensures forall x :: x in old(schedules) && x.id != s.id ==> x in schedules
      ensures selectedCategory == old(selectedCategory) && showEnabledOnly == old(showEnabledOnly)
      ensures Published()
    {
      schedules := Filter(schedules, (x: Schedule) => x.id != s.id);
      UpdateFilteredSchedules();
    }

    /** toggleScheduleEnabled: updateSchedule with only isEnabled flipped. */
    method ToggleScheduleEnabled(s: Schedule)
      modifies this
      ensures IndexOfId(old(schedules), s.id) >= 0 ==>
        schedules == old(schedules)[IndexOfId(old(schedules), s.id) := s.(isEnabled := !s.isEnabled)]
        && Published()
      ensures IndexOfId(old(schedules), s.id) == -1 ==>
        schedules == old(schedules) && visible == old(visible)
      ensures selectedCategory == old(selectedCategory) && showEnabledOnly == old(showEnabledOnly)
    {
      UpdateSchedule(s.(isEnabled := !s.isEnabled));
    }

    method SetSelectedCategory(category: string)
      modifies this
      ensures selectedCategory == category && showEnabledOnly == old(showEnabledOnly)
      ensures schedules == old(schedules) && Published()
    {
      selectedCategory := category;
      UpdateFilteredSchedules();
    }

    method ToggleShowEnabledOnly()
      modifies this
      ensures showEnabledOnly == !old(showEnabledOnly) && selectedCategory == old(selectedCategory)
      ensures schedules == old(schedules) && Published()
    {
      showEnabledOnly := !showEnabledOnly;
      UpdateFilteredSchedules();
    }

    /** getTodaySchedules, with today's Calendar DAY_OF_WEEK as a parameter. */
    function GetTodaySchedules(calendarDay: int): seq<Schedule>
      reads this
      requires SUNDAY <= calendarDay <= SATURDAY
    {
      TodaySchedules(schedules, calendarDay)
    }

    /** getNextSchedule, with the current weekday, hour and minute as parameters. */
    function GetNextSchedule(calendarDay: int, hour: int, minute: int): (r: Option<Schedule>)
      reads this
      requires SUNDAY <= calendarDay <= SATURDAY
      ensures r.Some? ==> OnDay(r.value, OurDayOfWeek(calendarDay)) && r.value in schedules
    {
      var today := GetTodaySchedules(calendarDay);
      var r := NextSchedule(today, hour, minute);
      assert r.Some? ==> r.value in multiset(Filter(schedules, s => OnDay(s, OurDayOfWeek(calendarDay))));
      r
    }
    /** generateEventsFromSchedules: one event per enabled schedule and day of
        the range that the schedule runs on, sorted by date. */
    method GenerateEventsFromSchedules(startDate: int, endDate: int) returns (r: seq<Event>)
      ensures Sorted(r, ByDate)
      ensures multiset(r) == multiset(EventsOfDays(Filter(schedules, IsEnabled),
                                                   startDate, DaysInRange(startDate, endDate), RunsOn))
    {
      var enabledSchedules := Filter(schedules, IsEnabled);
      var events := EventsOfRange(enabledSchedules, startDate, endDate, RunsOn);
      ByDateTotalPreorder();
      SortBySorted(events, ByDate);
      r := SortBy(events, ByDate);
    }
  }
}

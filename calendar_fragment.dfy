/** The calendar screen: future events bucketed by year, month and day, the
    month shown with its events, the selected day and its events, and the
    42-cell month grid (Monday first). The calendar fields of a date (year,
    0-based month, day of the month), the weekday of a month's first day and
    the month's length come from java.util.Calendar and are inputs here. */
module CalendarFragment {
  import opened Data
  import opened Sorting
  import opened Dates

  /** YEAR, MONTH (0 = January) and DAY_OF_MONTH of a date. */
  datatype Ymd = Ymd(year: int, month: int, day: int)

  predicate ValidYmd(t: Ymd) {
    0 <= t.month < 12 && 1 <= t.day <= 31
  }

  // ---------------------------------------------------------- future or today

  /** The test the events observer applies: a later year, a later month of
      this year, or a day of this month not before today. */
  predicate IsFutureOrToday(t: Ymd, today: Ymd) {
    t.year > today.year
    || (t.year == today.year && t.month > today.month)
    || (t.year == today.year && t.month == today.month && t.day >= today.day)
  }

  /** The days of the calendar numbered in order. */
  function Ordinal(t: Ymd): int {
    (t.year * 12 + t.month) * 32 + t.day
  }

  /** For calendar dates the test is "not before today". */
  lemma FutureOrTodayIsNotBefore(t: Ymd, today: Ymd)
    requires ValidYmd(t) && ValidYmd(today)
    ensures IsFutureOrToday(t, today) <==> Ordinal(t) >= Ordinal(today)
  {
    var a := t.year * 12 + t.month;
    var b := today.year * 12 + today.month;
    if t.year > today.year {
      assert a >= b + 1;
    } else if t.year < today.year {
      assert a <= b - 1;
    }
  }

  // ---------------------------------------------------------- buckets

  /** allEvents: year -> month -> day -> the events of that day. */
  type Buckets = map<int, map<int, map<int, seq<Event>>>>

  /** `allEvents[y]?.get(m)?.get(d) ?: emptyList()`. */
  function Lookup(b: Buckets, t: Ymd): seq<Event> {
    if t.year in b && t.month in b[t.year] && t.day in b[t.year][t.month] then b[t.year][t.month][t.day] else []
  }

  /** No year, month or day is kept without events. */
  predicate Full(b: Buckets) {
    forall y :: y in b ==>
      b[y] != map[] && forall m :: m in b[y] ==>
        b[y][m] != map[] && forall d :: d in b[y][m] ==> b[y][m][d] != []
  }

  /** The containsKey checks that create the missing levels, then the add. */
  function Add(b: Buckets, t: Ymd, e: Event): (r: Buckets)
    ensures Lookup(r, t) == Lookup(b, t) + [e]
    ensures forall u :: u != t ==> Lookup(r, u) == Lookup(b, u)
  {
    var b1 := if t.year in b then b else b[t.year := map[]];
    var b2 := if t.month in b1[t.year] then b1 else b1[t.year := b1[t.year][t.month := map[]]];
    var b3 := if t.day in b2[t.year][t.month] then b2
              else b2[t.year := b2[t.year][t.month := b2[t.year][t.month][t.day := []]]];
    var days := b3[t.year][t.month];
    b3[t.year := b3[t.year][t.month := days[t.day := days[t.day] + [e]]]]
  }

  /** Adding never creates an empty year, month or day level. */
  lemma AddKeepsFull(b: Buckets, t: Ymd, e: Event)
    requires Full(b)
    ensures Full(Add(b, t, e))
  {
  }

  /** The buckets after the observer has seen `events`, each with its date's
      calendar fields. */
  function Bucket(events: seq<(Event, Ymd)>, today: Ymd): Buckets {
    if events == [] then map[]
    else
      var b := Bucket(events[..|events| - 1], today);
      var (e, t) := events[|events| - 1];
      if IsFutureOrToday(t, today) then Add(b, t, e) else b
  }

  /** The future-or-today events falling on day t, in the order received. */
  function DayList(events: seq<(Event, Ymd)>, today: Ymd, t: Ymd): seq<Event> {
    if events == [] then []
    else
      var (e, u) := events[|events| - 1];
      DayList(events[..|events| - 1], today, t) + (if u == t && IsFutureOrToday(u, today) then [e] else [])
  }

  /** Each day's bucket holds exactly that day's future-or-today events, in
      the order they arrived; a day before today has none. */
  lemma {:induction false} BucketLookup(events: seq<(Event, Ymd)>, today: Ymd, t: Ymd)
    ensures Lookup(Bucket(events, today), t) == DayList(events, today, t)
    ensures !IsFutureOrToday(t, today) ==> Lookup(Bucket(events, today), t) == []
  {
    if events != [] {
      BucketLookup(events[..|events| - 1], today, t);
    }
  }

  /** The buckets never keep an empty level. */
  lemma {:induction false} BucketFull(events: seq<(Event, Ymd)>, today: Ymd)
    ensures Full(Bucket(events, today))
  {
    if events != [] {
      BucketFull(events[..|events| - 1], today);
      var (e, t) := events[|events| - 1];
      if IsFutureOrToday(t, today) {
        AddKeepsFull(Bucket(events[..|events| - 1], today), t, e);
      }
    }
  }

  /** An event is in day t's list exactly when it arrived with day t and is
      not in the past. */
  lemma {:induction false} DayListMembers(events: seq<(Event, Ymd)>, today: Ymd, t: Ymd, e: Event)
    ensures e in DayList(events, today, t)
        <==> IsFutureOrToday(t, today) && exists i :: 0 <= i < |events| && events[i] == (e, t)
  {
    if events != [] {
      var init := events[..|events| - 1];
      DayListMembers(init, today, t, e);
      if e in DayList(init, today, t) {
        var i :| 0 <= i < |init| && init[i] == (e, t);
        assert events[i] == (e, t);
      }
      if IsFutureOrToday(t, today) && exists i :: 0 <= i < |events| && events[i] == (e, t) {
        var i :| 0 <= i < |events| && events[i] == (e, t);
        if i < |init| {
          assert init[i] == (e, t);
        }
      }
    }
  }

  // ---------------------------------------------------------- the month shown

  /** `allEvents[y][m]` when present: the month's day lists. */
  function MonthDays(b: Buckets, year: int, month: int): map<int, seq<Event>> {
    if year in b && month in b[year] then b[year][month] else map[]
  }

  /** The day lists of days 1..k, one after the other. */
  function MonthConcat(days: map<int, seq<Event>>, k: nat): seq<Event> {
    if k == 0 then [] else MonthConcat(days, k - 1) + (if k in days then days[k] else [])
  }

  /** The month's events are those of its days 1..k. */
  lemma MonthConcatMembers(b: Buckets, year: int, month: int, k: nat, e: Event)
    ensures e in MonthConcat(MonthDays(b, year, month), k)
        <==> exists d :: 1 <= d <= k && e in Lookup(b, Ymd(year, month, d))
  {
    if e in MonthConcat(MonthDays(b, year, month), k) {
      MonthConcatFrom(b, year, month, k, e);
    }
    if exists d :: 1 <= d <= k && e in Lookup(b, Ymd(year, month, d)) {
      var d :| 1 <= d <= k && e in Lookup(b, Ymd(year, month, d));
      MonthConcatHas(b, year, month, k, d, e);
    }
  }

  /** An event of the month's list comes from one of its days 1..k. */
  lemma {:induction false} MonthConcatFrom(b: Buckets, year: int, month: int, k: nat, e: Event)
    requires e in MonthConcat(MonthDays(b, year, month), k)
    ensures exists d :: 1 <= d <= k && e in Lookup(b, Ymd(year, month, d))
  {
    var days := MonthDays(b, year, month);
    var last := if k in days then days[k] else [];
    assert last == Lookup(b, Ymd(year, month, k));
    if e !in last {
      MonthConcatFrom(b, year, month, k - 1, e);
    }
  }

  /** An event of day d, 1 <= d <= k, is in the month's list. */
  lemma {:induction false} MonthConcatHas(b: Buckets, year: int, month: int, k: nat, d: int, e: Event)
    requires 1 <= d <= k && e in Lookup(b, Ymd(year, month, d))
    ensures e in MonthConcat(MonthDays(b, year, month), k)
  {
    var days := MonthDays(b, year, month);
    var last := if k in days then days[k] else [];
    assert last == Lookup(b, Ymd(year, month, k));
    if d < k {
      MonthConcatHas(b, year, month, k - 1, d, e);
    }
  }

  /** `sortedBy { it.date }`. */
  function ByDate(a: Event, b: Event): bool { a.date <= b.date }

  lemma ByDateTotal()
    ensures TotalPreorder(ByDate)
  {
  }

  /** The month's events, sorted by date. */
  function MonthEvents(days: map<int, seq<Event>>): (r: seq<Event>)
    ensures multiset(r) == multiset(MonthConcat(days, 31))
    ensures Sorted(r, ByDate)
  {
    ByDateTotal();
    SortBySorted(MonthConcat(days, 31), ByDate);
    SortBy(MonthConcat(days, 31), ByDate)
  }

  /** The selected day's events, sorted by date. */
  function DayEvents(b: Buckets, t: Ymd): (r: seq<Event>)
    ensures multiset(r) == multiset(Lookup(b, t))
    ensures Sorted(r, ByDate)
  {
    ByDateTotal();
    SortBySorted(Lookup(b, t), ByDate);
    SortBy(Lookup(b, t), ByDate)
  }

  // ---------------------------------------------------------- navigation

  /** `calendar.add(Calendar.MONTH, delta)` on the year and month. */
  function ShiftMonth(year: int, month: int, delta: int): (r: (int, int))
    requires 0 <= month < 12
    ensures 0 <= r.1 < 12
    ensures r.0 * 12 + r.1 == year * 12 + month + delta
  {
    var total := year * 12 + month + delta;
    (total / 12, total % 12)
  }

  /** Going back a month undoes going forward. */
  lemma ShiftMonthBack(year: int, month: int)
    requires 0 <= month < 12
    ensures var (y, m) := ShiftMonth(year, month, 1); ShiftMonth(y, m, -1) == (year, month)
  {
    var (y, m) := ShiftMonth(year, month, 1);
    var (y2, m2) := ShiftMonth(y, m, -1);
    assert y2 * 12 + m2 == year * 12 + month;
  }

  // ---------------------------------------------------------- the grid

  /** The grid column (1 = Monday .. 7 = Sunday) of a Calendar DAY_OF_WEEK. */
  function FirstDayPosition(dayOfWeek: int): (p: int)
    requires SUNDAY <= dayOfWeek <= SATURDAY
    ensures 1 <= p <= 7
    ensures dayOfWeek == SUNDAY <==> p == 7
    ensures (p - 1) % 7 == (dayOfWeek + 5) % 7
  {
    if dayOfWeek == SUNDAY then 7 else dayOfWeek - 1
  }

  datatype Style = Plain | SelectedCircle | TodayCircle | TodayBold

  /** What one grid cell shows: its day number (0 for none) and its styling. */
  datatype Cell = Cell(day: int, style: Style)

  /** The styling of day i: the selection wins, today is circled only when
      no day is selected and is bold otherwise. */
  function StyleOf(i: int, isSelected: bool, isToday: bool, selectedDay: int): (s: Style)
    ensures s == SelectedCircle <==> isSelected
    ensures s == TodayCircle <==> !isSelected && isToday && selectedDay <= 0
    ensures s == TodayBold <==> !isSelected && isToday && selectedDay > 0
  {
    if isSelected then SelectedCircle
    else if isToday && selectedDay <= 0 then TodayCircle
    else if isToday then TodayBold
    else Plain
  }

  /** Cell p of the grid: day p - firstDayPosition + 1 when that is a day of
      the month, otherwise an empty cell. */
  function GridDay(firstDayPosition: int, daysInMonth: int, p: int): (i: int)
    ensures i == 0 || (1 <= i <= daysInMonth && p == i + firstDayPosition - 1)
  {
    if firstDayPosition <= p < firstDayPosition + daysInMonth then p - firstDayPosition + 1 else 0
  }

  /** Day i's cell is at i + firstDayPosition - 1, inside the 42 cells, in
      the column of day i's weekday. */
  lemma GridPlacement(dayOfWeek: int, daysInMonth: int, i: int)
    requires SUNDAY <= dayOfWeek <= SATURDAY && 1 <= daysInMonth <= 31 && 1 <= i <= daysInMonth
    ensures var p := i + FirstDayPosition(dayOfWeek) - 1;
      1 <= p <= 42
      && GridDay(FirstDayPosition(dayOfWeek), daysInMonth, p) == i
      && (p - 1) % 7 == (dayOfWeek - 1 + i - 1 + 6) % 7
  {
    var f := FirstDayPosition(dayOfWeek);
    var p := i + f - 1;
    assert (p - 1) % 7 == ((f - 1) + (i - 1)) % 7;
    assert ((f - 1) + (i - 1)) % 7 == ((f - 1) % 7 + (i - 1)) % 7;
    assert (f - 1) % 7 == (dayOfWeek + 5) % 7;
    assert ((dayOfWeek + 5) % 7 + (i - 1)) % 7 == (dayOfWeek + 5 + i - 1) % 7;
  }

  class CalendarFragment {
    /** The 42 day cells, indexed 1..42 as dayViews is. */
    const cells: array<Cell>
    /** currentDate: when the screen was created. */
    const today: Ymd
    var allEvents: Buckets
    var dayEvents: map<int, seq<Event>>
    var monthEvents: seq<Event>
    /** The year and month of `calendar`, the month shown. */
    var viewYear: int
    var viewMonth: int
    var selectedDay: int
    var selectedMonth: int
    var selectedYear: int
    /** The events list: what was last submitted, and whether it is shown. */
    var submitted: seq<Event>
    var listVisible: bool

    predicate Valid()
      reads this
    {
      cells.Length == 43 && 0 <= viewMonth < 12
    }

    /** The cell contents updateCalendarForMonth writes for the month shown. */
    function GridCell(firstDayPosition: int, daysInMonth: int, p: int): Cell
      reads this
    {
      var i := GridDay(firstDayPosition, daysInMonth, p);
      if i == 0 then Cell(0, Plain)
      else
        var isSelected := i == selectedDay && viewMonth == selectedMonth && viewYear == selectedYear;
        var isToday := viewYear == today.year && viewMonth == today.month && i == today.day;
        Cell(i, StyleOf(i, isSelected, isToday, selectedDay))
    }

    /** onViewCreated: today's month shown, today selected, no events yet,
        and the grid drawn for today's month. */
    constructor (now: Ymd, firstDayOfWeek: int, daysInMonth: int)
      requires ValidYmd(now)
      requires SUNDAY <= firstDayOfWeek <= SATURDAY && 1 <= daysInMonth <= 31
      ensures Valid() && fresh(cells)
      ensures today == now && viewYear == now.year && viewMonth == now.month
      ensures selectedDay == now.day && selectedMonth == now.month && selectedYear == now.year
      ensures allEvents == map[] && monthEvents == [] && dayEvents == map[]
      ensures submitted == [] && !listVisible
      ensures forall p :: 1 <= p <= 42 ==> cells[p] == GridCell(FirstDayPosition(firstDayOfWeek), daysInMonth, p)
      ensures cells[0] == Cell(0, Plain)
    {
      cells := new Cell[43](_ => Cell(0, Plain));
      today := now;
      viewYear := now.year;
      viewMonth := now.month;
      selectedDay := now.day;
      selectedMonth := now.month;
      selectedYear := now.year;
      allEvents := map[];
      dayEvents := map[];
      monthEvents := [];
      submitted := [];
      listVisible := false;
      new;
      UpdateCalendarForMonth(firstDayOfWeek, daysInMonth);
    }

    /** updateCalendarForMonth: clears the 42 cells, then writes day i of the
        month into cell i + firstDayPosition - 1 with its styling. */
    method UpdateCalendarForMonth(firstDayOfWeek: int, daysInMonth: int)
      modifies cells
      requires Valid()
      requires SUNDAY <= firstDayOfWeek <= SATURDAY && 1 <= daysInMonth <= 31
      ensures forall p :: 1 <= p <= 42 ==> cells[p] == GridCell(FirstDayPosition(firstDayOfWeek), daysInMonth, p)
      ensures cells[0] == old(cells[0])
    {
      var firstDayPosition := FirstDayPosition(firstDayOfWeek);
      for p := 1 to 43
        invariant forall q :: 1 <= q < p ==> cells[q] == Cell(0, Plain)
        invariant cells[0] == old(cells[0])
      {
        cells[p] := Cell(0, Plain);
      }
      for i := 1 to daysInMonth + 1
        invariant forall q :: 1 <= q <= 42 ==>
          cells[q] == if firstDayPosition <= q < firstDayPosition + i - 1
                      then GridCell(firstDayPosition, daysInMonth, q) else Cell(0, Plain)
        invariant cells[0] == old(cells[0])
      {
        var position := i + firstDayPosition - 1;
        var isSelectedDay := i == selectedDay && viewMonth == selectedMonth && viewYear == selectedYear;
        var isToday := viewYear == today.year && viewMonth == today.month && i == today.day;
        cells[position] := Cell(i, StyleOf(i, isSelectedDay, isToday, selectedDay));
      }
    }

    /** updateEventsList: the selected day's events sorted by date; an empty
        day or no selection hides the list. */
    method UpdateEventsList()
      modifies this
      ensures var shown := DayEvents(allEvents, Ymd(selectedYear, selectedMonth, selectedDay));
        listVisible == (selectedDay > 0 && shown != [])
        && submitted == (if listVisible then shown else old(submitted))
      ensures allEvents == old(allEvents) && dayEvents == old(dayEvents) && monthEvents == old(monthEvents)
      ensures viewYear == old(viewYear) && viewMonth == old(viewMonth)
      ensures selectedDay == old(selectedDay) && selectedMonth == old(selectedMonth) && selectedYear == old(selectedYear)
    {
      if selectedDay > 0 {
        var filteredEvents := DayEvents(allEvents, Ymd(selectedYear, selectedMonth, selectedDay));
        if filteredEvents == [] {
          listVisible := false;
        } else {
          listVisible := true;
          submitted := filteredEvents;
        }
      } else {
        listVisible := false;
      }
    }

    /** updateEventsForCurrentMonth: the shown month's day lists and all its
        events sorted by date, then the events list. */
    method UpdateEventsForCurrentMonth()
      modifies this
      ensures dayEvents == MonthDays(allEvents, viewYear, viewMonth)
      ensures monthEvents == MonthEvents(dayEvents)
      ensures var shown := DayEvents(allEvents, Ymd(selectedYear, selectedMonth, selectedDay));
        listVisible == (selectedDay > 0 && shown != [])
        && submitted == (if listVisible then shown else old(submitted))
      ensures allEvents == old(allEvents) && viewYear == old(viewYear) && viewMonth == old(viewMonth)
      ensures selectedDay == old(selectedDay) && selectedMonth == old(selectedMonth) && selectedYear == old(selectedYear)
    {
      dayEvents := MonthDays(allEvents, viewYear, viewMonth);
      var collected := CollectMonth(dayEvents);
      monthEvents := SortBy(collected, ByDate);
      UpdateEventsList();
    }

    /** The loop of updateEventsForCurrentMonth: each day's list, in day
        order. The app walks the month's map in insertion order rather than
        by day number, but the lists are then sorted by date, stably, and each
        event sits under the day of its own date: events of different days
        never tie, and within a day both walks keep the list's order. */
    static method CollectMonth(days: map<int, seq<Event>>) returns (collected: seq<Event>)
      ensures collected == MonthConcat(days, 31)
    {
      collected := [];
      for day := 1 to 32
        invariant collected == MonthConcat(days, day - 1)
      {
        if day in days {
          collected := collected + days[day];
        }
      }
    }

    /** The observer's loop: each future-or-today event appended to the
        list of its year, month and day, the levels created as needed. */
    method BucketEvents(events: seq<(Event, Ymd)>, now: Ymd)
      modifies this
      ensures allEvents == Bucket(events, now)
      ensures dayEvents == old(dayEvents) && monthEvents == old(monthEvents)
      ensures viewYear == old(viewYear) && viewMonth == old(viewMonth)
      ensures selectedDay == old(selectedDay) && selectedMonth == old(selectedMonth) && selectedYear == old(selectedYear)
      ensures submitted == old(submitted) && listVisible == old(listVisible)
    {
      allEvents := map[];
      for i := 0 to |events|
        invariant allEvents == Bucket(events[..i], now)
        invariant viewYear == old(viewYear) && viewMonth == old(viewMonth)
        invariant selectedDay == old(selectedDay) && selectedMonth == old(selectedMonth)
        invariant selectedYear == old(selectedYear)
        invariant dayEvents == old(dayEvents) && monthEvents == old(monthEvents)
        invariant submitted == old(submitted) && listVisible == old(listVisible)
      {
        var (event, t) := events[i];
        assert events[..i + 1][..i] == events[..i];
        ghost var before := allEvents;
        if IsFutureOrToday(t, now) {
          if t.year !in allEvents {
            allEvents := allEvents[t.year := map[]];
          }
          if t.month !in allEvents[t.year] {
            allEvents := allEvents[t.year := allEvents[t.year][t.month := map[]]];
          }
          if t.day !in allEvents[t.year][t.month] {
            allEvents := allEvents[t.year := allEvents[t.year][t.month := allEvents[t.year][t.month][t.day := []]]];
          }
          var days := allEvents[t.year][t.month];
          allEvents := allEvents[t.year := allEvents[t.year][t.month := days[t.day := days[t.day] + [event]]]];
          assert allEvents == Add(before, t, event);
        }
      }
      assert events[..|events|] == events;
    }

    /** The events observer: buckets the future-or-today events, then shows
        the month and redraws the grid. */
    method ObserveEvents(events: seq<(Event, Ymd)>, now: Ymd, firstDayOfWeek: int, daysInMonth: int)
      modifies this, cells
      requires Valid()
      requires SUNDAY <= firstDayOfWeek <= SATURDAY && 1 <= daysInMonth <= 31
      ensures Valid()
      ensures allEvents == Bucket(events, now)
      ensures dayEvents == MonthDays(allEvents, viewYear, viewMonth)
      ensures monthEvents == MonthEvents(dayEvents)
      ensures var shown := DayEvents(allEvents, Ymd(selectedYear, selectedMonth, selectedDay));
        listVisible == (selectedDay > 0 && shown != [])
        && submitted == (if listVisible then shown else old(submitted))
      ensures viewYear == old(viewYear) && viewMonth == old(viewMonth)
      ensures selectedDay == old(selectedDay) && selectedMonth == old(selectedMonth) && selectedYear == old(selectedYear)
      ensures forall p :: 1 <= p <= 42 ==> cells[p] == GridCell(FirstDayPosition(firstDayOfWeek), daysInMonth, p)
    {
      BucketEvents(events, now);
      UpdateEventsForCurrentMonth();
      UpdateCalendarForMonth(firstDayOfWeek, daysInMonth);
    }

    /** A click on a cell holding a day selects that day in the month shown
        and redraws the grid; an empty cell does nothing. */
    method ClickDay(position: int, firstDayOfWeek: int, daysInMonth: int)
      modifies this, cells
      requires Valid() && 1 <= position <= 42
      requires SUNDAY <= firstDayOfWeek <= SATURDAY && 1 <= daysInMonth <= 31
      ensures Valid()
      ensures old(cells[position].day) > 0 ==>
        selectedDay == old(cells[position].day) && selectedMonth == viewMonth && selectedYear == viewYear
        && (forall p :: 1 <= p <= 42 ==> cells[p] == GridCell(FirstDayPosition(firstDayOfWeek), daysInMonth, p))
        && var shown := DayEvents(allEvents, Ymd(selectedYear, selectedMonth, selectedDay));
           listVisible == (shown != []) && submitted == (if listVisible then shown else old(submitted))
      ensures old(cells[position].day) <= 0 ==>
        selectedDay == old(selectedDay) && selectedMonth == old(selectedMonth) && selectedYear == old(selectedYear)
        && listVisible == old(listVisible) && submitted == old(submitted) && cells[..] == old(cells[..])
      ensures allEvents == old(allEvents) && viewYear == old(viewYear) && viewMonth == old(viewMonth)
      ensures dayEvents == old(dayEvents) && monthEvents == old(monthEvents)
    {
      var day := cells[position].day;
      if day > 0 {
        selectedDay := day;
        selectedMonth := viewMonth;
        selectedYear := viewYear;
        UpdateCalendarForMonth(firstDayOfWeek, daysInMonth);
        UpdateEventsList();
      }
    }

    /** The previous/next buttons: move the month shown by delta, drop a
        selection outside the new month, show its events and redraw. */
    method ChangeMonth(delta: int, firstDayOfWeek: int, daysInMonth: int)
      modifies this, cells
      requires Valid() && (delta == -1 || delta == 1)
      requires SUNDAY <= firstDayOfWeek <= SATURDAY && 1 <= daysInMonth <= 31
      ensures Valid()
      ensures (viewYear, viewMonth) == ShiftMonth(old(viewYear), old(viewMonth), delta)
      ensures selectedDay == if viewMonth != old(selectedMonth) || viewYear != old(selectedYear)
                             then -1 else old(selectedDay)
      ensures selectedMonth == old(selectedMonth) && selectedYear == old(selectedYear)
      ensures allEvents == old(allEvents)
      ensures dayEvents == MonthDays(allEvents, viewYear, viewMonth)
      ensures monthEvents == MonthEvents(dayEvents)
      ensures var shown := DayEvents(allEvents, Ymd(selectedYear, selectedMonth, selectedDay));
        listVisible == (selectedDay > 0 && shown != [])
        && submitted == (if listVisible then shown else old(submitted))
      ensures forall p :: 1 <= p <= 42 ==> cells[p] == GridCell(FirstDayPosition(firstDayOfWeek), daysInMonth, p)
    {
      var (y, m) := ShiftMonth(viewYear, viewMonth, delta);
      viewYear, viewMonth := y, m;
      if viewMonth != selectedMonth || viewYear != selectedYear {
        selectedDay := -1;
      }
      UpdateEventsForCurrentMonth();
      UpdateCalendarForMonth(firstDayOfWeek, daysInMonth);
    }
  }

  /** isSameDay: the same year, month and day of the month. */
  predicate IsSameDay(a: Ymd, b: Ymd) {
    a.year == b.year && a.month == b.month && a.day == b.day
  }

  /** Two calendar dates are the same day exactly when they are equal and
      exactly when their ordinals are. */
  lemma SameDayIsEqual(a: Ymd, b: Ymd)
    requires ValidYmd(a) && ValidYmd(b)
    ensures IsSameDay(a, b) <==> a == b
    ensures IsSameDay(a, b) <==> Ordinal(a) == Ordinal(b)
  {
    FutureOrTodayIsNotBefore(a, b);
    FutureOrTodayIsNotBefore(b, a);
  }
}

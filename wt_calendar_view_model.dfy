/** The lesson calendar's view model: the ids given to saved lesson slots, the
    stable ids of generated lesson events, and the end date of a student's
    subscription after a number of lessons, taken from the lesson events on or
    after the start date when there are any and otherwise by walking the
    calendar one day at a time. Lesson `dayOfWeek` values are compared with
    Calendar's DAY_OF_WEEK (1 = Sunday .. 7 = Saturday) directly. Firebase
    reads and writes, logging and the coroutine scope are left out. */
module WTCalendarViewModel {
  import opened Wrappers
  import opened Data
  import opened Sorting
  import opened Dates
  import opened LessonDates

  const LESSON_ID_BASE := 100_000_000

  // ---------------------------------------------------------- lesson ids

  /** The id a lesson is saved under: a lesson without an id (0) gets one
      derived from its weekday; any other id is kept. */
  function WithId(lesson: WTLesson): (r: WTLesson)
    ensures r == lesson.(id := r.id)
    ensures lesson.id != 0 ==> r.id == lesson.id
    ensures lesson.id == 0 && lesson.dayOfWeek >= 0 ==> r.id > LESSON_ID_BASE - 1
  {
    if lesson.id == 0 then lesson.(id := LESSON_ID_BASE + lesson.dayOfWeek) else lesson
  }

  /** setLessonSchedule's `lessons.map { ... lesson.copy(id = id) }`. */
  function LessonsWithIds(lessons: seq<WTLesson>): (r: seq<WTLesson>)
    ensures |r| == |lessons|
    ensures forall i :: 0 <= i < |r| ==> r[i] == WithId(lessons[i])
  {
    seq(|lessons|, i requires 0 <= i < |lessons| => WithId(lessons[i]))
  }

  /** Giving ids twice changes nothing more: a lesson with a weekday code of
      0 or more is never left with id 0. */
  lemma WithIdIdempotent(lesson: WTLesson)
    requires lesson.dayOfWeek >= 0
    ensures WithId(WithId(lesson)) == WithId(lesson)
  {
  }

  /** Two lessons without ids get the same id exactly when they are on the
      same weekday, so one lesson per weekday keeps ids apart. */
  lemma WithIdDistinct(a: WTLesson, b: WTLesson)
    requires a.id == 0 && b.id == 0
    ensures WithId(a).id == WithId(b).id <==> a.dayOfWeek == b.dayOfWeek
  {
  }

  // ---------------------------------------------------------- event ids

  /** generateStableEventId: the day number (truncating division, as Kotlin
      divides a Long) times ten plus the weekday. */
  function StableEventId(dayOfWeek: int, timestamp: int): (id: int)
    ensures 0 <= dayOfWeek <= 9 ==> id / 10 == TruncDiv(timestamp, DayMs) && id % 10 == dayOfWeek
  {
    TruncDiv(timestamp, DayMs) * 10 + dayOfWeek
  }

  /** For a one-digit weekday the id is the same exactly when the day and the
      weekday are: regenerating the event reproduces its id, and two events
      on different days or weekdays never share one. */
  lemma StableEventIdIff(d1: int, t1: int, d2: int, t2: int)
    requires 0 <= d1 <= 9 && 0 <= d2 <= 9
    ensures StableEventId(d1, t1) == StableEventId(d2, t2)
      <==> d1 == d2 && TruncDiv(t1, DayMs) == TruncDiv(t2, DayMs)
  {
    var a := StableEventId(d1, t1);
    var b := StableEventId(d2, t2);
    if a == b {
      assert a / 10 == b / 10 && a % 10 == b % 10;
    }
  }

  /** Two instants in the same day (on or after 1970) give the same id. */
  lemma StableEventIdSameDay(dayOfWeek: int, t1: int, t2: int)
    requires t1 >= 0 && t2 >= 0 && DayOf(t1) == DayOf(t2)
    ensures StableEventId(dayOfWeek, t1) == StableEventId(dayOfWeek, t2)
  {
  }

  // ---------------------------------------------------------- events

  /** The events counted by calculateEndDateFromEvents: those on or after
      start, in their order (`filter`, written on the last element). */
  function Qualifying(events: seq<Event>, start: int): (q: seq<Event>)
    ensures |q| <= |events|
  {
    if events == [] then []
    else
      var e := events[|events| - 1];
      Qualifying(events[..|events| - 1], start) + (if e.date >= start then [e] else [])
  }

  /** Every counted event is on or after start and is one of the events. */
  lemma {:induction false} QualifyingOnOrAfter(events: seq<Event>, start: int)
    ensures forall i :: 0 <= i < |Qualifying(events, start)| ==>
      Qualifying(events, start)[i].date >= start && Qualifying(events, start)[i] in events
  {
    if events != [] {
      QualifyingOnOrAfter(events[..|events| - 1], start);
    }
  }

  lemma QualifyingAppend(s: seq<Event>, e: Event, start: int)
    ensures Qualifying(s + [e], start) == Qualifying(s, start) + (if e.date >= start then [e] else [])
  {
    assert (s + [e])[..|s|] == s;
  }

  /** Going one event further counts that event when it is on or after start. */
  lemma QualifyingStep(events: seq<Event>, i: nat, start: int)
    requires i < |events|
    ensures Qualifying(events[..i + 1], start)
      == Qualifying(events[..i], start) + (if events[i].date >= start then [events[i]] else [])
  {
    assert events[..i + 1] == events[..i] + [events[i]];
    QualifyingAppend(events[..i], events[i], start);
  }

  /** The events counted among the first k are the first ones counted among all. */
  lemma {:induction false} QualifyingPrefix(events: seq<Event>, k: nat, start: int)
    requires k <= |events|
    ensures |Qualifying(events[..k], start)| <= |Qualifying(events, start)|
    ensures Qualifying(events[..k], start) == Qualifying(events, start)[..|Qualifying(events[..k], start)|]
    decreases |events| - k
  {
    if k < |events| {
      QualifyingPrefix(events, k + 1, start);
      assert events[..k + 1][..k] == events[..k];
      assert events[..|events|] == events;
    } else {
      assert events[..k] == events;
    }
  }

  /** Kotlin's Float.toInt(): truncation toward zero. */
  function ToInt(x: real): (n: int)
    ensures x >= 0.0 ==> n >= 0
    ensures x <= 0.0 ==> n <= 0
  {
    if x >= 0.0 then x.Floor else -((-x).Floor)
  }

  /** ToInt drops the fraction: the result is x's whole part, toward zero. */
  lemma ToIntTruncates(x: real)
    ensures x >= 0.0 ==> ToInt(x) as real <= x < ToInt(x) as real + 1.0
    ensures x < 0.0 ==> ToInt(x) as real - 1.0 < x <= ToInt(x) as real
  {
  }

  /** The whole days between event i-1 and event i (truncating). */
  function GapDays(events: seq<Event>, i: nat): int
    requires 1 <= i < |events|
  {
    TruncDiv(events[i].date - events[i - 1].date, DayMs)
  }

  /** The sum of the gaps among the first n events. */
  function TotalGapDays(events: seq<Event>, n: nat): int
    requires n <= |events|
  {
    if n <= 1 then 0 else TotalGapDays(events, n - 1) + GapDays(events, n - 1)
  }

  /** calculateAverageDaysBetweenLessons, with real numbers for floats. */
  function AverageGap(events: seq<Event>): (avg: real)
    ensures |events| < 2 ==> avg == 7.0
    ensures |events| >= 2 ==> avg * (|events| - 1) as real == TotalGapDays(events, |events|) as real
  {
    if |events| < 2 then 7.0 else TotalGapDays(events, |events|) as real / (|events| - 1) as real
  }

  /** The loop of calculateAverageDaysBetweenLessons. */
  method AverageDaysBetweenLessons(events: seq<Event>) returns (avg: real)
    ensures avg == AverageGap(events)
  {
    if |events| < 2 {
      return 7.0;
    }
    var totalDays := 0;
    var i := 1;
    while i < |events|
      invariant 1 <= i <= |events|
      invariant totalDays == TotalGapDays(events, i)
    {
      var diffMs := events[i].date - events[i - 1].date;
      totalDays := totalDays + TruncDiv(diffMs, DayMs);
      i := i + 1;
    }
    avg := totalDays as real / (|events| - 1) as real;
  }

  /** Events exactly d days apart have an average gap of d days. */
  lemma {:induction false} AverageGapEven(events: seq<Event>, d: int)
    requires |events| >= 2
    requires forall i :: 1 <= i < |events| ==> events[i].date - events[i - 1].date == d * DayMs
    ensures AverageGap(events) == d as real
  {
    TotalGapEven(events, d, |events|);
  }

  lemma {:induction false} TotalGapEven(events: seq<Event>, d: int, n: nat)
    requires 1 <= n <= |events|
    requires forall i :: 1 <= i < |events| ==> events[i].date - events[i - 1].date == d * DayMs
    ensures TotalGapDays(events, n) == (n - 1) * d
  {
    if n > 1 {
      TotalGapEven(events, d, n - 1);
      assert GapDays(events, n - 1) == d by {
        if d >= 0 {
          assert (d * DayMs) / DayMs == d;
        } else {
          assert ((-d) * DayMs) / DayMs == -d;
        }
      }
    }
  }

  /** Events in date order have no negative gaps. */
  lemma {:induction false} TotalGapNonNegative(events: seq<Event>, n: nat)
    requires n <= |events|
    requires Sorted(events, EarliestFirst)
    ensures TotalGapDays(events, n) >= 0
  {
    if n > 1 {
      TotalGapNonNegative(events, n - 1);
      assert EarliestFirst(events[n - 2], events[n - 1]);
    }
  }

  /** `sortedBy { it.date.time }`. */
  function EarliestFirst(a: Event, b: Event): bool { a.date <= b.date }

  lemma EarliestFirstTotal()
    ensures TotalPreorder(EarliestFirst)
  {
  }

  /** calculateEndDateFromEvents: the date of the Needed(lessonCount)-th event
      on or after start; with too few, the last such date (or start) moved on
      by the remaining lessons times the average gap (two or more events) or
      by a week per remaining lesson. */
  function EndFromEvents(start: int, lessonCount: int, events: seq<Event>): int
  {
    var q := Qualifying(events, start);
    var n := Needed(lessonCount);
    if |q| >= n then q[n - 1].date
    else Estimate(if q == [] then start else q[|q| - 1].date, lessonCount - |q|, events)
  }

  /** The estimate from the last counted date and the lessons still to come. */
  function Estimate(last: int, remaining: int, events: seq<Event>): int
  {
    if |events| >= 2 then AddDays(last, DaysFor(remaining, AverageGap(events)))
    else AddDays(last, remaining * 7)
  }

  /** `(remainingLessons * avgDaysBetweenLessons).toInt()`. */
  function DaysFor(remaining: int, avg: real): (n: int)
    ensures remaining >= 0 && avg >= 0.0 ==> n >= 0
  {
    ToInt(remaining as real * avg)
  }

  /** calculateEndDateFromEvents: the result is the date of the event at
      which the running count of events on or after start reaches
      Needed(lessonCount), or else the estimate. */
  method EndDateFromEvents(startDate: int, lessonCount: int, events: seq<Event>) returns (r: int)
    ensures r == EndFromEvents(startDate, lessonCount, events)
    ensures |Qualifying(events, startDate)| >= Needed(lessonCount) ==>
      exists i :: 0 <= i < |events| && r == events[i].date && events[i].date >= startDate
        && |Qualifying(events[..i + 1], startDate)| == Needed(lessonCount)
  {
    var reached, count, lastEventDate := CountEvents(startDate, lessonCount, events);
    if reached {
      ghost var i :| 0 <= i < |events| && lastEventDate == events[i].date && events[i].date >= startDate
        && |Qualifying(events[..i + 1], startDate)| == Needed(lessonCount);
      ReachedAt(startDate, lessonCount, events, i);
      return lastEventDate;
    }
    if |events| >= 2 {
      var avgDaysBetweenLessons := AverageDaysBetweenLessons(events);
      var remainingLessons := lessonCount - count;
      r := AddDays(lastEventDate, DaysFor(remainingLessons, avgDaysBetweenLessons));
    } else {
      r := AddDays(lastEventDate, (lessonCount - count) * 7);
      assert r == Estimate(lastEventDate, lessonCount - count, events);
    }
  }

  /** The for loop of calculateEndDateFromEvents: it counts the events on or
      after start and stops (`reached`) at the one that brings the count to
      lessonCount; otherwise it ends with the count of all of them and the
      date of the last (or start when there is none). */
  method CountEvents(startDate: int, lessonCount: int, events: seq<Event>)
    returns (reached: bool, count: int, lastEventDate: int)
    ensures reached <==> |Qualifying(events, startDate)| >= Needed(lessonCount)
    ensures reached ==>
      exists i :: 0 <= i < |events| && lastEventDate == events[i].date && events[i].date >= startDate
        && |Qualifying(events[..i + 1], startDate)| == Needed(lessonCount)
    ensures !reached ==> count == |Qualifying(events, startDate)|
    ensures !reached ==>
      lastEventDate == if count == 0 then startDate else Qualifying(events, startDate)[count - 1].date
  {
    count := 0;
    lastEventDate := startDate;
    ghost var q: seq<Event> := [];
    var i := 0;
    while i < |events|
      invariant 0 <= i <= |events|
      invariant q == Qualifying(events[..i], startDate)
      invariant count == |q| < Needed(lessonCount)
      invariant lastEventDate == if q == [] then startDate else q[|q| - 1].date
    {
      QualifyingStep(events, i, startDate);
      if events[i].date >= startDate {
        count := count + 1;
        lastEventDate := events[i].date;
        q := q + [events[i]];
        if count >= lessonCount {
          QualifyingPrefix(events, i + 1, startDate);
          return true, count, lastEventDate;
        }
      }
      i := i + 1;
    }
    assert events[..i] == events;
    assert q == Qualifying(events, startDate);
    reached := false;
  }

  /** The event at which the running count reaches Needed(lessonCount) gives
      the end date. */
  lemma ReachedAt(start: int, lessonCount: int, events: seq<Event>, i: nat)
    requires i < |events| && events[i].date >= start
    requires |Qualifying(events[..i + 1], start)| == Needed(lessonCount)
    ensures EndFromEvents(start, lessonCount, events) == events[i].date
    ensures |Qualifying(events, start)| >= Needed(lessonCount)
  {
    var n := Needed(lessonCount);
    var q1 := Qualifying(events[..i + 1], start);
    QualifyingPrefix(events, i + 1, start);
    assert Qualifying(events, start)[n - 1] == q1[n - 1];
    assert events[..i + 1] == events[..i] + [events[i]];
    QualifyingAppend(events[..i], events[i], start);
    assert q1 == Qualifying(events[..i], start) + [events[i]];
  }

  /** For events in date order and a lesson count of zero or more, the end
      date is never before the start date. */
  lemma EndFromEventsNotBeforeStart(start: int, lessonCount: int, events: seq<Event>)
    requires lessonCount >= 0
    requires Sorted(events, EarliestFirst)
    ensures EndFromEvents(start, lessonCount, events) >= start
  {
    var q := Qualifying(events, start);
    QualifyingOnOrAfter(events, start);
    if |q| < Needed(lessonCount) && |events| >= 2 {
      TotalGapNonNegative(events, |events|);
      assert AverageGap(events) >= 0.0;
    }
  }

  // ---------------------------------------------------------- the day-by-day walk

  /** How many of the days start+1 .. start+k fall on a weekday listed in lessonDays. */
  function CountedDays(start: int, lessonDays: seq<int>, k: nat): (n: nat)
    ensures n <= k
  {
    if k == 0 then 0
    else CountedDays(start, lessonDays, k - 1) + (if DayOfWeek(AddDays(start, k)) in lessonDays then 1 else 0)
  }

  /** Some listed day is a Calendar DAY_OF_WEEK value. */
  predicate HasWeekday(lessonDays: seq<int>) {
    exists i :: 0 <= i < |lessonDays| && SUNDAY <= lessonDays[i] <= SATURDAY
  }

  /** The loop of calculateEndDateAfterLessons as written: where it stands
      after at most `steps` iterations from `day` with `counted` lessons
      found — Some(date) once it has stopped, None while it still runs. */
  function FallbackAsWritten(day: int, counted: int, lessonDays: seq<int>, lessonCount: int, steps: nat): Option<int>
    decreases steps
  {
    if counted >= lessonCount then Some(day)
    else if steps == 0 then None
    else
      var next := AddDays(day, 1);
      FallbackAsWritten(next, counted + (if DayOfWeek(next) in lessonDays then 1 else 0), lessonDays, lessonCount, steps - 1)
  }

  /** When no listed day is a DAY_OF_WEEK value (a weekday stored as 0, say)
      and a lesson is still to be counted, the loop as written never stops. */
  lemma {:induction false} FallbackAsWrittenNeverStops(day: int, counted: int, lessonDays: seq<int>, lessonCount: int, steps: nat)
    requires !HasWeekday(lessonDays)
    requires counted < lessonCount
    ensures FallbackAsWritten(day, counted, lessonDays, lessonCount, steps) == None
    decreases steps
  {
    if steps > 0 {
      var next := AddDays(day, 1);
      assert DayOfWeek(next) !in lessonDays;
      FallbackAsWrittenNeverStops(next, counted, lessonDays, lessonCount, steps - 1);
    }
  }

  /** The concrete case: one lesson stored with weekday 0 and eight lessons
      to count, the number updateStudentSubscriptionEndDates asks for. */
  lemma WeekdayZeroNeverStops(start: int, steps: nat)
    ensures FallbackAsWritten(start, 0, [0], 8, steps) == None
  {
    FallbackAsWrittenNeverStops(start, 0, [0], 8, steps);
  }

  /** The count of lesson days never goes down. */
  lemma {:induction false} CountedMonotone(start: int, lessonDays: seq<int>, a: nat, b: nat)
    requires a <= b
    ensures CountedDays(start, lessonDays, a) <= CountedDays(start, lessonDays, b)
    decreases b - a
  {
    if a < b {
      CountedMonotone(start, lessonDays, a, b - 1);
    }
  }

  /** With a listed weekday every 7 days hold a lesson day. */
  lemma {:induction false} CountedWeekly(start: int, lessonDays: seq<int>, w: nat)
    requires HasWeekday(lessonDays)
    ensures CountedDays(start, lessonDays, 7 * w) >= w
  {
    if w > 0 {
      CountedWeekly(start, lessonDays, w - 1);
      var base := 7 * (w - 1);
      assert base + 7 == 7 * w;
      var k := CountedDayInWeek(start, lessonDays, base);
      CountedMonotone(start, lessonDays, base, base + k);
      CountedMonotone(start, lessonDays, base + 1 + k, 7 * w);
    }
  }

  /** Among the seven days after day `base` one is counted. */
  lemma CountedDayInWeek(start: int, lessonDays: seq<int>, base: nat) returns (k: nat)
    requires HasWeekday(lessonDays)
    ensures k < 7
    ensures CountedDays(start, lessonDays, base + 1 + k) == CountedDays(start, lessonDays, base + k) + 1
  {
    var i :| 0 <= i < |lessonDays| && SUNDAY <= lessonDays[i] <= SATURDAY;
    k := WeekdayWithinWeek(AddDays(start, base + 1), lessonDays[i]);
    assert AddDays(AddDays(start, base + 1), k) == AddDays(start, base + 1 + k);
  }

  lemma CountedLowerBound(start: int, lessonDays: seq<int>, k: nat)
    requires HasWeekday(lessonDays)
    ensures CountedDays(start, lessonDays, k) >= k / 7
  {
    CountedWeekly(start, lessonDays, k / 7);
    CountedMonotone(start, lessonDays, 7 * (k / 7), k);
  }

  /** Day start+k is the first at which the count reaches lessonCount. */
  predicate FirstReachedAt(start: int, lessonDays: seq<int>, lessonCount: int, k: nat) {
    CountedDays(start, lessonDays, k) >= lessonCount
    && forall j :: 0 <= j < k ==> CountedDays(start, lessonDays, j) < lessonCount
  }

  /** That day is unique, and for a positive count it is a lesson day on
      which the count is exactly lessonCount. */
  lemma FirstReachedAtUnique(start: int, lessonDays: seq<int>, lessonCount: int, k1: nat, k2: nat)
    requires FirstReachedAt(start, lessonDays, lessonCount, k1)
    requires FirstReachedAt(start, lessonDays, lessonCount, k2)
    ensures k1 == k2
  {
  }

  lemma FirstReachedIsLessonDay(start: int, lessonDays: seq<int>, lessonCount: int, k: nat)
    requires lessonCount >= 1
    requires FirstReachedAt(start, lessonDays, lessonCount, k)
    ensures k >= 1 && DayOfWeek(AddDays(start, k)) in lessonDays
    ensures CountedDays(start, lessonDays, k) == lessonCount
  {
    assert CountedDays(start, lessonDays, 0) < lessonCount;
    assert CountedDays(start, lessonDays, k - 1) < lessonCount;
  }

  /** Where the count first reaches lessonCount within `steps` days of day j,
      the loop as written stops there. */
  lemma {:induction false} FallbackAsWrittenStopsAt(start: int, lessonDays: seq<int>, lessonCount: int, j: nat, steps: nat, k: nat)
    requires j <= k <= j + steps
    requires CountedDays(start, lessonDays, k) >= lessonCount
    requires forall i :: j <= i < k ==> CountedDays(start, lessonDays, i) < lessonCount
    ensures FallbackAsWritten(AddDays(start, j), CountedDays(start, lessonDays, j), lessonDays, lessonCount, steps)
      == Some(AddDays(start, k))
    decreases steps
  {
    if j < k {
      assert AddDays(AddDays(start, j), 1) == AddDays(start, j + 1);
      FallbackAsWrittenStopsAt(start, lessonDays, lessonCount, j + 1, steps - 1, k);
    }
  }

  /** The corrected day-by-day walk: when the loop as written would never
      stop (no listed weekday and a positive count) it falls back to
      start + 8 weeks, as for an empty lesson list; otherwise it steps one
      day at a time from the day after start and stops on the day the
      lessonCount-th lesson day is reached, which is where the loop as
      written stops (start itself for a count of zero or less). */
  method FallbackEndDate(start: int, lessonDays: seq<int>, lessonCount: int) returns (r: int)
    ensures !HasWeekday(lessonDays) && lessonCount > 0 ==> r == AddWeeks(start, 8)
    ensures lessonCount <= 0 ==> r == start
    ensures HasWeekday(lessonDays) || lessonCount <= 0 ==>
      exists k: nat :: r == AddDays(start, k) && FirstReachedAt(start, lessonDays, lessonCount, k)
    ensures HasWeekday(lessonDays) || lessonCount <= 0 ==>
      exists steps: nat :: FallbackAsWritten(start, 0, lessonDays, lessonCount, steps) == Some(r)
  {
    var valid := false;
    var i := 0;
    while i < |lessonDays|
      invariant 0 <= i <= |lessonDays|
      invariant valid <==> exists j :: 0 <= j < i && SUNDAY <= lessonDays[j] <= SATURDAY
    {
      if SUNDAY <= lessonDays[i] <= SATURDAY {
        valid := true;
      }
      i := i + 1;
    }
    if !valid {
      if lessonCount > 0 {
        return AddWeeks(start, 8);
      }
      // The loop as written does not run: the date stays at start.
      assert AddDays(start, 0) == start;
      assert FirstReachedAt(start, lessonDays, lessonCount, 0);
      assert FallbackAsWritten(start, 0, lessonDays, lessonCount, 0) == Some(start);
      return start;
    }
    var calendar := start;
    var countedLessons := 0;
    ghost var k: nat := 0;
    while countedLessons < lessonCount
      invariant calendar == AddDays(start, k)
      invariant countedLessons == CountedDays(start, lessonDays, k)
      invariant forall j :: 0 <= j < k ==> CountedDays(start, lessonDays, j) < lessonCount
      decreases 7 * lessonCount - k
    {
      CountedLowerBound(start, lessonDays, k);
      calendar := AddDays(calendar, 1);
      k := k + 1;
      if DayOfWeek(calendar) in lessonDays {
        countedLessons := countedLessons + 1;
      }
    }
    r := calendar;
    assert FirstReachedAt(start, lessonDays, lessonCount, k);
    FallbackAsWrittenStopsAt(start, lessonDays, lessonCount, 0, k, k);
  }

  // ---------------------------------------------------------- the view model

  /** The events calculateEndDateAfterLessons counts: lesson events on or
      after start, earliest first. */
  function FutureLessons(events: seq<Event>, start: int): (r: seq<Event>)
    ensures multiset(r) == multiset(Filter(events, (e: Event) => e.kind == "Lesson" && e.date >= start))
    ensures forall i :: 0 <= i < |r| ==> r[i].kind == "Lesson" && r[i].date >= start
    ensures Sorted(r, EarliestFirst)
  {
    var kept := Filter(events, (e: Event) => e.kind == "Lesson" && e.date >= start);
    EarliestFirstTotal();
    SortBySorted(kept, EarliestFirst);
    var r := SortBy(kept, EarliestFirst);
    assert forall i :: 0 <= i < |r| ==> r[i] in multiset(kept);
    r
  }

  /** `lessons.map { it.dayOfWeek }`. */
  function WeekdayCodes(lessons: seq<WTLesson>): (r: seq<int>)
    ensures |r| == |lessons|
    ensures forall i :: 0 <= i < |r| ==> r[i] == lessons[i].dayOfWeek
  {
    seq(|lessons|, i requires 0 <= i < |lessons| => lessons[i].dayOfWeek)
  }

  /** `lessons.map { it.dayOfWeek }.sorted()`: the same codes in ascending order. */
  function LessonDays(lessons: seq<WTLesson>): (r: seq<int>)
    ensures multiset(r) == multiset(WeekdayCodes(lessons))
    ensures Sorted(r, (a: int, b: int) => a <= b)
  {
    SortBySorted(WeekdayCodes(lessons), (a: int, b: int) => a <= b);
    SortBy(WeekdayCodes(lessons), (a: int, b: int) => a <= b)
  }

  class WTCalendarViewModel {
    /** What `_lessonSchedule` and `_events` hold. */
    var lessonSchedule: seq<WTLesson>
    var events: seq<Event>

    constructor ()
      ensures lessonSchedule == [] && events == []
    {
      lessonSchedule := [];
      events := [];
    }

    /** setLessonSchedule, in memory: the lessons, each with an id. */
    method SetLessonSchedule(lessons: seq<WTLesson>)
      modifies this
      ensures lessonSchedule == LessonsWithIds(lessons)
      ensures events == old(events)
    {
      lessonSchedule := LessonsWithIds(lessons);
    }

    /** calculateEndDateAfterLessons: no lessons give start + 8 weeks; lesson
        events on or after start give EndFromEvents over them; otherwise the
        corrected day-by-day walk (start itself for a count of zero or less). */
    method CalculateEndDateAfterLessons(start: int, lessonCount: int, lessons: seq<WTLesson>) returns (r: int)
      ensures lessons == [] ==> r == AddWeeks(start, 8)
      ensures lessons != [] && FutureLessons(events, start) != [] ==>
        r == EndFromEvents(start, lessonCount, FutureLessons(events, start))
      ensures (lessons != [] && FutureLessons(events, start) == []
               && (HasWeekday(LessonDays(lessons)) || lessonCount <= 0)) ==>
        exists k: nat :: r == AddDays(start, k) && FirstReachedAt(start, LessonDays(lessons), lessonCount, k)
      ensures (lessons != [] && FutureLessons(events, start) == []
               && !HasWeekday(LessonDays(lessons)) && lessonCount > 0) ==>
        r == AddWeeks(start, 8)
    {
      var lessonDays := LessonDays(lessons);
      if lessonDays == [] {
        return AddWeeks(start, 8);
      }
      var futureEvents := FutureLessons(events, start);
      if futureEvents != [] {
        r := EndDateFromEvents(start, lessonCount, futureEvents);
        return;
      }
      r := FallbackEndDate(start, lessonDays, lessonCount);
    }
  }

  /** From future lesson events, and with a lesson count of zero or more, the
      end date is not before start. */
  lemma EndDateNotBeforeStart(start: int, lessonCount: int, events: seq<Event>)
    requires lessonCount >= 0
    ensures EndFromEvents(start, lessonCount, FutureLessons(events, start)) >= start
  {
    EndFromEventsNotBeforeStart(start, lessonCount, FutureLessons(events, start));
  }
}

/** The weekly-lesson date calculators shared by the calendar view model and
    the registration screen: the date of the N-th lesson, the next lesson
    date, and the week-based end-date estimate. These calculators read a
    lesson's `dayOfWeek` as 0 = Monday .. 6 = Sunday, as their own comments
    say. The lesson record's declaration documents Calendar constants
    (1 = Sunday .. 7 = Saturday) instead, and WTCalendarViewModel compares
    the value with DAY_OF_WEEK directly; the two readings disagree, and each
    module follows the code it models. */
module LessonDates {
  import opened Data
  import opened Dates

  /** The `when` that turns a lesson code into a Calendar DAY_OF_WEEK. */
  function CalendarDayOfLesson(code: int): (d: int)
    ensures 0 <= code <= 6 <==> SUNDAY <= d <= SATURDAY
    ensures !(0 <= code <= 6) ==> d == -1
  {
    if code == 0 then MONDAY
    else if code == 1 then TUESDAY
    else if code == 2 then WEDNESDAY
    else if code == 3 then THURSDAY
    else if code == 4 then FRIDAY
    else if code == 5 then SATURDAY
    else if code == 6 then SUNDAY
    else -1
  }

  /** Codes 0..6 name Monday..Sunday, one weekday each. */
  lemma CalendarDayOfLessonBijective(c1: int, c2: int)
    requires 0 <= c1 <= 6 && 0 <= c2 <= 6
    ensures CalendarDayOfLesson(c1) == CalendarDayOfLesson(c2) <==> c1 == c2
    ensures CalendarDayOfLesson(c1) == SUNDAY <==> c1 == 6
    ensures c1 <= 5 ==> CalendarDayOfLesson(c1) == c1 + 2
  {
  }

  /** A code outside 0..6 never matches any day. */
  lemma InvalidCodeNeverMatches(code: int, t: int)
    requires !(0 <= code <= 6)
    ensures CalendarDayOfLesson(code) != DayOfWeek(t)
  {
  }

  /** Some lesson falls on the weekday of instant `t`. */
  predicate IsLessonDay(t: int, lessons: seq<WTLesson>) {
    exists i :: 0 <= i < |lessons| && CalendarDayOfLesson(lessons[i].dayOfWeek) == DayOfWeek(t)
  }

  /** Some lesson has a valid weekday code. */
  predicate HasValidLesson(lessons: seq<WTLesson>) {
    exists i :: 0 <= i < |lessons| && 0 <= lessons[i].dayOfWeek <= 6
  }

  /** How many of the days start, start+1, ..., start+(k-1) are lesson days:
      each day counts once, however many lessons share its weekday. */
  function LessonDaysIn(start: int, lessons: seq<WTLesson>, k: nat): (n: nat)
    ensures n <= k
  {
    if k == 0 then 0
    else LessonDaysIn(start, lessons, k - 1) + (if IsLessonDay(AddDays(start, k - 1), lessons) then 1 else 0)
  }

  lemma {:induction false} LessonDaysInMonotone(start: int, lessons: seq<WTLesson>, a: nat, b: nat)
    requires a <= b
    ensures LessonDaysIn(start, lessons, a) <= LessonDaysIn(start, lessons, b)
    decreases b - a
  {
    if a < b {
      LessonDaysInMonotone(start, lessons, a, b - 1);
    }
  }

  /** Two lesson days with the same running count are the same day, so the
      day on which the count reaches N is unique. */
  lemma {:induction false} CountReachedOnce(start: int, lessons: seq<WTLesson>, k1: nat, k2: nat)
    requires IsLessonDay(AddDays(start, k1), lessons) && IsLessonDay(AddDays(start, k2), lessons)
    requires LessonDaysIn(start, lessons, k1 + 1) == LessonDaysIn(start, lessons, k2 + 1)
    ensures k1 == k2
  {
    if k1 < k2 {
      LessonDaysInMonotone(start, lessons, k1 + 1, k2);
    } else if k2 < k1 {
      LessonDaysInMonotone(start, lessons, k2 + 1, k1);
    }
  }

  /** With a valid lesson code every week holds a lesson day, so the first
      7w days hold at least w of them. */
  lemma {:induction false} WeeklyLessonDays(start: int, lessons: seq<WTLesson>, w: nat)
    requires HasValidLesson(lessons)
    ensures LessonDaysIn(start, lessons, 7 * w) >= w
  {
    if w > 0 {
      WeeklyLessonDays(start, lessons, w - 1);
      var base := 7 * (w - 1);
      var k := LessonDayInWeek(start, lessons, base);
      OneMoreLessonDay(start, lessons, base, base + k, 7 * w);
    }
  }

  /** Every seven consecutive days hold a lesson day when some code is valid. */
  lemma LessonDayInWeek(start: int, lessons: seq<WTLesson>, base: int) returns (k: nat)
    requires HasValidLesson(lessons)
    ensures k < 7 && IsLessonDay(AddDays(start, base + k), lessons)
  {
    var i :| 0 <= i < |lessons| && 0 <= lessons[i].dayOfWeek <= 6;
    k := WeekdayWithinWeek(AddDays(start, base), CalendarDayOfLesson(lessons[i].dayOfWeek));
    assert AddDays(AddDays(start, base), k) == AddDays(start, base + k);
  }

  /** A lesson day between day a and day b adds one to the count. */
  lemma OneMoreLessonDay(start: int, lessons: seq<WTLesson>, a: nat, k: nat, b: nat)
    requires a <= k < b && IsLessonDay(AddDays(start, k), lessons)
    ensures LessonDaysIn(start, lessons, b) >= LessonDaysIn(start, lessons, a) + 1
  {
    LessonDaysInMonotone(start, lessons, a, k);
    LessonDaysInMonotone(start, lessons, k + 1, b);
  }

  /** `lessonsFound >= lessonCount` first holds at the count max(1, lessonCount). */
  function Needed(lessonCount: int): (n: int)
    ensures n >= 1 && n >= lessonCount
    ensures lessonCount >= 1 ==> n == lessonCount
  {
    if lessonCount < 1 then 1 else lessonCount
  }

  /** calculateDateAfterNLessons / calculateEndDateAfterNLessons: walks up to 365 days
      from `start` and returns the day on which the Needed(lessonCount)-th lesson day
      falls; with no lessons, or too few lesson days in the year, start + 8 weeks. */
  method DateAfterNLessons(start: int, lessons: seq<WTLesson>, lessonCount: int) returns (r: int)
    ensures lessons == [] ==> r == AddWeeks(start, 8)
    ensures lessons != [] && LessonDaysIn(start, lessons, 365) >= Needed(lessonCount) ==>
      exists k :: 0 <= k < 365 && r == AddDays(start, k) && IsLessonDay(r, lessons)
        && LessonDaysIn(start, lessons, k + 1) == Needed(lessonCount)
    ensures lessons != [] && LessonDaysIn(start, lessons, 365) < Needed(lessonCount) ==>
      r == AddWeeks(start, 8)
  {
    if |lessons| == 0 {
      return AddWeeks(start, 8);
    }
    var current := start;
    var lessonsFound := 0;
    var day := 0;
    while day < 365
      invariant 0 <= day <= 365
      invariant current == AddDays(start, day)
      invariant lessonsFound == LessonDaysIn(start, lessons, day)
      invariant lessonsFound < Needed(lessonCount)
    {
      var dayOfWeek := DayOfWeek(current);
      var j := 0;
      var counted := false;
      while j < |lessons|
        invariant 0 <= j <= |lessons|
        invariant !counted
        invariant lessonsFound == LessonDaysIn(start, lessons, day)
        invariant forall i :: 0 <= i < j ==> CalendarDayOfLesson(lessons[i].dayOfWeek) != dayOfWeek
      {
        if dayOfWeek == CalendarDayOfLesson(lessons[j].dayOfWeek) {
          lessonsFound := lessonsFound + 1;
          if lessonsFound >= lessonCount {
            LessonDaysInMonotone(start, lessons, day + 1, 365);
            return current;
          }
          counted := true;
          break;
        }
        j := j + 1;
      }
      assert counted <==> IsLessonDay(current, lessons);
      current := AddDays(current, 1);
      day := day + 1;
    }
    return AddWeeks(start, 8);
  }

  /** Up to 52 lessons always fit in the 365-day scan when some lesson has a
      valid weekday code, so the 8-week fallback is not taken. */
  lemma ScanSucceeds(start: int, lessons: seq<WTLesson>, lessonCount: int)
    requires HasValidLesson(lessons) && lessonCount <= 52
    ensures LessonDaysIn(start, lessons, 365) >= Needed(lessonCount)
  {
    WeeklyLessonDays(start, lessons, 52);
    LessonDaysInMonotone(start, lessons, 364, 365);
  }

  /** calculateNextLessonDate: the first lesson day among start .. start+13 days,
      else start + 7 days (also when there are no lessons). */
  method NextLessonDate(start: int, lessons: seq<WTLesson>) returns (r: int)
    ensures lessons == [] ==> r == AddDays(start, 7)
    ensures lessons != [] ==>
      (exists k :: 0 <= k < 14 && r == AddDays(start, k) && IsLessonDay(r, lessons)
         && forall j :: 0 <= j < k ==> !IsLessonDay(AddDays(start, j), lessons))
      || (r == AddDays(start, 7) && forall j :: 0 <= j < 14 ==> !IsLessonDay(AddDays(start, j), lessons))
  {
    if |lessons| == 0 {
      return AddDays(start, 7);
    }
    var current := start;
    var day := 0;
    while day < 14
      invariant 0 <= day <= 14
      invariant current == AddDays(start, day)
      invariant forall j :: 0 <= j < day ==> !IsLessonDay(AddDays(start, j), lessons)
    {
      var dayOfWeek := DayOfWeek(current);
      var j := 0;
      while j < |lessons|
        invariant 0 <= j <= |lessons|
        invariant forall i :: 0 <= i < j ==> CalendarDayOfLesson(lessons[i].dayOfWeek) != dayOfWeek
      {
        if dayOfWeek == CalendarDayOfLesson(lessons[j].dayOfWeek) {
          return current;
        }
        j := j + 1;
      }
      current := AddDays(current, 1);
      day := day + 1;
    }
    return AddDays(start, 7);
  }

  /** With a valid lesson code the next lesson is at most 6 days away. */
  lemma NextLessonWithinWeek(start: int, lessons: seq<WTLesson>)
    requires HasValidLesson(lessons)
    ensures exists k :: 0 <= k < 7 && IsLessonDay(AddDays(start, k), lessons)
  {
    var i :| 0 <= i < |lessons| && 0 <= lessons[i].dayOfWeek <= 6;
    var k := WeekdayWithinWeek(start, CalendarDayOfLesson(lessons[i].dayOfWeek));
    assert IsLessonDay(AddDays(start, k), lessons);
  }

  /** calculateEndDateAfterLessons: start + ceil(lessonCount / |lessons|) weeks,
      or start + 8 weeks with no lessons or a count <= 0. The double quotient is
      rounded, but for Int operands its error is far below 1 / |lessons|, the
      least distance from a non-integer quotient to the next integer, so it never
      crosses an integer and its ceiling is the integer one. */
  function EndDateAfterLessons(start: int, lessonCount: int, lessons: seq<WTLesson>): (r: int)
    ensures |lessons| == 0 || lessonCount <= 0 ==> r == AddWeeks(start, 8)
    ensures |lessons| > 0 && lessonCount > 0 ==>
      exists w: int :: r == AddWeeks(start, w) && (w - 1) * |lessons| < lessonCount <= w * |lessons|
  {
    if |lessons| == 0 || lessonCount <= 0 then AddWeeks(start, 8)
    else
      var w := (lessonCount + |lessons| - 1) / |lessons|;
      assert (w - 1) * |lessons| < lessonCount <= w * |lessons|;
      AddWeeks(start, w)
  }
}

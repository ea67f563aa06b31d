/** The lesson editor: parsing and auto-formatting of the HH:MM time fields,
    the checks before lessons are added, and the order of the lesson list. */
module WTLessonsFragment {
  import opened Wrappers
  import opened Text
  import opened Sorting
  import opened Dates
  import opened Data
  import Schedule

  /** A parsed field: hour and minute of the day. */
  datatype Time = Time(hour: int, minute: int)

  predicate InDay(hour: int, minute: int) {
    0 <= hour <= 23 && 0 <= minute <= 59
  }

  /** The range check after both numbers were read; a part that did not
      parse (the caught NumberFormatException) gives null as well. */
  function Checked(hour: Option<int>, minute: Option<int>): (r: Option<Time>)
    ensures r.Some? <==> hour.Some? && minute.Some? && InDay(hour.value, minute.value)
    ensures r.Some? ==> r.value == Time(hour.value, minute.value)
  {
    if hour.Some? && minute.Some? && InDay(hour.value, minute.value) then Some(Time(hour.value, minute.value))
    else None
  }

  /** parseTimeField: "HH:MM" (each part trimmed) or, without a colon,
      exactly four characters "HHMM" (not trimmed). */
  function ParseTimeField(t: string): (r: Option<Time>)
    ensures r.Some? ==> InDay(r.value.hour, r.value.minute)
  {
    if ':' !in t then
      if |t| == 4 then
        assert t[2..4] == t[2..];
        Checked(ToIntOrNull(t[..2]), ToIntOrNull(t[2..4]))
      else None
    else
      var parts := Split(t, ':');
      if |parts| != 2 then None
      else Checked(ToIntOrNull(Trim(parts[0])), ToIntOrNull(Trim(parts[1])))
  }

  /** Without a colon only four characters can be read; with one, exactly
      two parts, each trimmed and read as a number. */
  lemma ParseTimeFieldCases(t: string)
    ensures ':' !in t && |t| != 4 ==> ParseTimeField(t).None?
    ensures ':' !in t && |t| == 4 ==> ParseTimeField(t) == Checked(ToIntOrNull(t[..2]), ToIntOrNull(t[2..]))
    ensures ':' in t && |Split(t, ':')| != 2 ==> ParseTimeField(t).None?
    ensures ':' in t && |Split(t, ':')| == 2 ==>
      ParseTimeField(t) == Checked(ToIntOrNull(Trim(Split(t, ':')[0])), ToIntOrNull(Trim(Split(t, ':')[1])))
  {
    if |t| == 4 {
      assert t[2..4] == t[2..];
    }
  }

  /** Two digits parse back as their value. */
  lemma TwoDigits(n: int)
    requires 0 <= n < 100
    ensures ToIntOrNull(Pad2(n)) == Some(n)
  {
    var s := Pad2(n);
    assert AllDigits(s);
    assert s[..1][..0] == [];
    assert DigitsValue(s[..1]) == DigitValue(s[0]);
    assert DigitsValue(s) == 10 * DigitValue(s[0]) + DigitValue(s[1]);
  }

  /** A time shown by the lesson dialog (String.format("%02d:%02d")) is read
      back as the same time, and so is the same text with its colon removed. */
  lemma ParseFormattedTime(hour: int, minute: int)
    requires InDay(hour, minute)
    ensures ParseTimeField(Schedule.FormattedTime(hour, minute)) == Some(Time(hour, minute))
    ensures ParseTimeField(Pad2(hour) + Pad2(minute)) == Some(Time(hour, minute))
  {
    var h, m := Pad2(hour), Pad2(minute);
    TwoDigits(hour);
    TwoDigits(minute);
    Schedule.TrimPlain(h);
    Schedule.TrimPlain(m);
    SplitNoSep(m, ':');
    SplitAfterField(h, ':', m);
    assert h + ":" + m == h + [':'] + m;
    assert (h + ":" + m)[2] == ':';
    var hm := h + m;
    assert hm[..2] == h && hm[2..] == m && |hm| == 4;
    assert ':' !in hm by {
      forall k | 0 <= k < |hm| ensures hm[k] != ':' {
        assert IsDigit(hm[k]);
      }
    }
    ParseTimeFieldCases(hm);
  }

  /** A part that is not a number gives null rather than an error. */
  lemma ParseRejectsLetters()
    ensures ParseTimeField("ab:30") == None
  {
    SplitLettersField();
    assert "ab"[0] == 'a' && !IsDigit('a');
    assert Trim("ab") == "ab" by { Schedule.TrimPlain("ab"); }
  }

  lemma SplitLettersField()
    ensures var parts := Split("ab:30", ':'); |parts| == 2 && parts[0] == "ab"
  {
    SplitNoSep("30", ':');
    SplitAfterField("ab", ':', "30");
    assert "ab" + [':'] + "30" == "ab:30";
  }

  /** Without a colon, the four characters are read as HHMM, and a letter
      among them gives null. */
  lemma ParseRejectsLetterInDigits()
    ensures ParseTimeField("1a30") == None
  {
    assert "1a30"[..2] == "1a";
    assert "1a"[1] == 'a' && "1a"[0] == '1';
  }

  /** `s.replace(":", "")`, one character at a time. */
  function RemoveColons(s: string): (r: string)
    ensures |r| <= |s|
    ensures forall k :: 0 <= k < |r| ==> r[k] != ':'
  {
    if s == [] then [] else (if s[0] == ':' then [] else [s[0]]) + RemoveColons(s[1..])
  }

  /** RemoveColons is the library's replace-all with an empty replacement. */
  lemma {:induction false} RemoveColonsIsReplaceAll(s: string)
    ensures RemoveColons(s) == ReplaceAll(s, ":", "")
  {
    if s != [] {
      RemoveColonsIsReplaceAll(s[1..]);
      assert s[..1] == [s[0]];
    }
  }

  lemma {:induction false} RemoveColonsNone(s: string)
    requires forall k :: 0 <= k < |s| ==> s[k] != ':'
    ensures RemoveColons(s) == s
  {
    if s != [] {
      RemoveColonsNone(s[1..]);
      assert [s[0]] + s[1..] == s;
    }
  }

  lemma {:induction false} RemoveColonsConcat(a: string, b: string)
    ensures RemoveColons(a + b) == RemoveColons(a) + RemoveColons(b)
  {
    if a == [] {
      assert a + b == b;
    } else {
      assert (a + b)[1..] == a[1..] + b;
      RemoveColonsConcat(a[1..], b);
    }
  }

  /** The time field's text watcher: colons are dropped, then three or more
      characters become "HH:MM" (at most four of them kept) and exactly two
      become "HH:"; shorter text is left as typed. */
  function AutoFormatted(s: string): (r: string)
    ensures |RemoveColons(s)| < 2 ==> r == s
  {
    var t := RemoveColons(s);
    if |t| >= 3 then t[..2] + ":" + t[2..Min(|t|, 4)]
    else if |t| == 2 then t + ":"
    else s
  }

  function Min(a: int, b: int): int {
    if a <= b then a else b
  }

  /** From two typed characters on, the watcher writes the first four of
      them (at most) with one colon after the second. */
  lemma AutoFormattedShape(s: string)
    requires |RemoveColons(s)| >= 2
    ensures var t, r := RemoveColons(s), AutoFormatted(s);
      |r| == Min(|t|, 4) + 1 && r[2] == ':' && RemoveColons(r) == t[..Min(|t|, 4)]
  {
    var t := RemoveColons(s);
    var a, b := t[..2], t[2..Min(|t|, 4)];
    var r := AutoFormatted(s);
    assert r == a + [':'] + b;
    assert forall k :: 0 <= k < |a| ==> a[k] == t[k];
    assert forall k :: 0 <= k < |b| ==> b[k] == t[k + 2];
    RemoveColonsAround(a, b);
    assert t[..Min(|t|, 4)] == a + b;
  }

  /** Dropping the one colon between two colon-free pieces joins them. */
  lemma RemoveColonsAround(a: string, b: string)
    requires forall k :: 0 <= k < |a| ==> a[k] != ':'
    requires forall k :: 0 <= k < |b| ==> b[k] != ':'
    ensures RemoveColons(a + [':'] + b) == a + b
  {
    var colon: string := [':'];
    assert RemoveColons(colon) == [] by {
      assert colon[1..] == [];
    }
    RemoveColonsNone(a);
    RemoveColonsConcat(a, colon);
    assert RemoveColons(a + colon) == a;
    RemoveColonsNone(b);
    RemoveColonsConcat(a + colon, b);
  }

  /** Formatting what the watcher wrote changes nothing, so the watcher's
      own edit settles at once. */
  lemma AutoFormattedIdempotent(s: string)
    ensures AutoFormatted(AutoFormatted(s)) == AutoFormatted(s)
  {
    var t := RemoveColons(s);
    if |t| >= 2 {
      AutoFormattedShape(s);
      var r := AutoFormatted(s);
      var u := t[..Min(|t|, 4)];
      assert RemoveColons(r) == u;
      assert u[..2] == t[..2];
      if |t| >= 3 {
        assert u[2..Min(|u|, 4)] == t[2..Min(|t|, 4)];
      }
    }
  }

  /** One addLesson call the fragment makes. */
  datatype LessonRequest = LessonRequest(dayOfWeek: int, startHour: int, startMinute: int,
                                         endHour: int, endMinute: int)

  /** How addLessons ends: one of its four toasts, or the lessons it adds. */
  datatype AddOutcome =
    | EmptyField
    | BadFormat
    | EndNotAfterStart
    | NoDaySelected
    | Added(requests: seq<LessonRequest>)

  /** The day chips in the order they were put in the map. */
  const ChipDays: seq<int> := [MONDAY, TUESDAY, WEDNESDAY, THURSDAY, FRIDAY, SATURDAY, SUNDAY]

  predicate After(end: Time, start: Time) {
    end.hour > start.hour || (end.hour == start.hour && end.minute > start.minute)
  }

  /** The selected days, in chip order. */
  function SelectedDays(selected: set<int>): (r: seq<int>)
    ensures forall d :: d in r <==> d in selected && d in ChipDays
  {
    Filter(ChipDays, d => d in selected)
  }

  function Requests(days: seq<int>, start: Time, end: Time): (r: seq<LessonRequest>)
    ensures |r| == |days|
    ensures forall i :: 0 <= i < |r| ==> r[i] == LessonRequest(days[i], start.hour, start.minute, end.hour, end.minute)
  {
    if days == [] then [] else [LessonRequest(days[0], start.hour, start.minute, end.hour, end.minute)] + Requests(days[1..], start, end)
  }

  /** addLessons: the checks in the order the fragment makes them. */
  function AddLessons(startText: string, endText: string, selected: set<int>): (r: AddOutcome)
    ensures r.Added? <==>
      startText != "" && endText != ""
      && ParseTimeField(startText).Some? && ParseTimeField(endText).Some?
      && After(ParseTimeField(endText).value, ParseTimeField(startText).value)
      && SelectedDays(selected) != []
    ensures r == EndNotAfterStart ==> ParseTimeField(endText).Some? && ParseTimeField(startText).Some? && !After(ParseTimeField(endText).value, ParseTimeField(startText).value)
    ensures r == NoDaySelected ==> (forall d :: d in ChipDays ==> d !in selected)
  {
    if startText == "" || endText == "" then EmptyField
    else
      var s, e := ParseTimeField(startText), ParseTimeField(endText);
      if s.None? || e.None? then BadFormat
      else if !After(e.value, s.value) then EndNotAfterStart
      else
        var days := SelectedDays(selected);
        if days == [] then NoDaySelected
        else Added(Requests(days, s.value, e.value))
  }

  /** Every lesson added is on a selected day and runs between the two
      parsed times, which lie within the day, end after start. */
  lemma AddLessonsRequests(startText: string, endText: string, selected: set<int>)
    requires AddLessons(startText, endText, selected).Added?
    ensures var rs := AddLessons(startText, endText, selected).requests;
      var s, e := ParseTimeField(startText).value, ParseTimeField(endText).value;
      |rs| == |SelectedDays(selected)| >= 1
      && InDay(s.hour, s.minute) && InDay(e.hour, e.minute) && After(e, s)
      && forall i :: 0 <= i < |rs| ==>
           rs[i].dayOfWeek in selected
           && Time(rs[i].startHour, rs[i].startMinute) == s
           && Time(rs[i].endHour, rs[i].endMinute) == e
  {
    var s, e := ParseTimeField(startText), ParseTimeField(endText);
    assert s.Some? && e.Some?;
    assert AddLessons(startText, endText, selected) == Added(Requests(SelectedDays(selected), s.value, e.value));
    RequestsOnSelected(selected, s.value, e.value);
  }

  lemma RequestsOnSelected(selected: set<int>, s: Time, e: Time)
    ensures var rs := Requests(SelectedDays(selected), s, e);
      forall i :: 0 <= i < |rs| ==>
        rs[i].dayOfWeek in selected && Time(rs[i].startHour, rs[i].startMinute) == s
        && Time(rs[i].endHour, rs[i].endMinute) == e
  {
    var days := SelectedDays(selected);
    var rs := Requests(days, s, e);
    forall i | 0 <= i < |rs|
      ensures rs[i].dayOfWeek in selected
    {
      assert rs[i].dayOfWeek == days[i] && days[i] in days;
    }
  }

  /** compareBy dayOfWeek, then startHour, then startMinute. */
  predicate ByDayAndStart(a: WTLesson, b: WTLesson) {
    a.dayOfWeek < b.dayOfWeek
    || (a.dayOfWeek == b.dayOfWeek
        && (a.startHour < b.startHour || (a.startHour == b.startHour && a.startMinute <= b.startMinute)))
  }

  lemma ByDayAndStartTotalPreorder()
    ensures TotalPreorder(ByDayAndStart)
  {
  }

  /** The lesson cards, in the order updateLessonsList shows them: sorted by
      day, then start time, and the same lessons as given. */
  function SortedLessons(lessons: seq<WTLesson>): (r: seq<WTLesson>)
    ensures multiset(r) == multiset(lessons)
    ensures Sorted(r, ByDayAndStart)
  {
    ByDayAndStartTotalPreorder();
    SortBySorted(lessons, ByDayAndStart);
    SortBy(lessons, ByDayAndStart)
  }
}

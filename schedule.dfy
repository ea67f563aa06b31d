/** A daily schedule template and its display helpers: the "HH:MM" time, the
    enabled days parsed from a comma-separated list, and the day names. */
module Schedule {
  import opened Wrappers
  import opened Text

  datatype Schedule = Schedule(id: int, title: string, description: Option<string>,
                               hour: int, minute: int, isEnabled: bool, daysOfWeek: string,
                               color: string, category: string, createdAt: int)

  /** The constructor defaults: enabled every day, green, "Personal". */
  function NewSchedule(id: int, title: string, description: Option<string>, hour: int, minute: int,
                       createdAt: int): (s: Schedule)
    ensures s.isEnabled && s.daysOfWeek == "1,2,3,4,5,6,7"
    ensures s.color == "#4CAF50" && s.category == "Personal"
    ensures s.id == id && s.title == title && s.hour == hour && s.minute == minute
  {
    Schedule(id, title, description, hour, minute, true, "1,2,3,4,5,6,7", "#4CAF50", "Personal", createdAt)
  }

  /** getFormattedTime: "%02d:%02d". */
  function FormattedTime(hour: int, minute: int): (r: string)
    ensures 0 <= hour < 24 && 0 <= minute < 60 ==>
      |r| == 5 && r[2] == ':'
      && IsDigit(r[0]) && IsDigit(r[1]) && IsDigit(r[3]) && IsDigit(r[4])
      && 10 * DigitValue(r[0]) + DigitValue(r[1]) == hour
      && 10 * DigitValue(r[3]) + DigitValue(r[4]) == minute
  {
    Pad2(hour) + ":" + Pad2(minute)
  }

  /** mapNotNull { it.trim().toIntOrNull() } over the tokens. */
  function ParseDayTokens(tokens: seq<string>): (r: seq<int>)
    ensures |r| <= |tokens|
    ensures (forall i :: 0 <= i < |tokens| ==> ToIntOrNull(Trim(tokens[i])).Some?) ==>
      |r| == |tokens| && forall i :: 0 <= i < |r| ==> r[i] == ToIntOrNull(Trim(tokens[i])).value
  {
    if tokens == [] then []
    else
      var rest := ParseDayTokens(tokens[1..]);
      match ToIntOrNull(Trim(tokens[0]))
      case Some(d) => [d] + rest
      case None => rest
  }

  /** getEnabledDays: blank means none; otherwise every comma-separated token
      that is an integer once trimmed, in order. */
  function EnabledDays(daysOfWeek: string): seq<int> {
    if IsBlank(daysOfWeek) then [] else ParseDayTokens(Split(daysOfWeek, ','))
  }

  function Numbers(days: seq<int>): (r: seq<string>)
    ensures |r| == |days| && forall i :: 0 <= i < |r| ==> r[i] == IntToString(days[i])
  {
    if days == [] then [] else [IntToString(days[0])] + Numbers(days[1..])
  }

  lemma NatToStringPlain(n: nat)
    ensures forall i :: 0 <= i < |NatToString(n)| ==> NatToString(n)[i] != ',' && !IsWhitespace(NatToString(n)[i])
  {
  }

  lemma TrimPlain(s: string)
    requires |s| > 0 && !IsWhitespace(s[0]) && !IsWhitespace(s[|s| - 1])
    ensures Trim(s) == s
  {
  }

  /** One rendered day number holds no comma, survives trim and parses back. */
  lemma TokenRoundTrip(n: int)
    requires INT_MIN <= n <= INT_MAX
    ensures ',' !in IntToString(n)
    ensures |IntToString(n)| >= 1
    ensures ToIntOrNull(Trim(IntToString(n))) == Some(n)
  {
    if n >= 0 {
      NatToStringPlain(n);
    } else {
      NatToStringPlain(-n);
    }
    TrimPlain(IntToString(n));
    IntToStringRoundTrip(n);
  }

  /** Writing days as "d1,d2,..." and reading them back gives the same days. */
  lemma {:induction false} EnabledDaysOfJoined(days: seq<int>)
    requires |days| >= 1
    requires forall i :: 0 <= i < |days| ==> INT_MIN <= days[i] <= INT_MAX
    ensures EnabledDays(Join(Numbers(days), ",")) == days
  {
    var tokens := Numbers(days);
    forall i | 0 <= i < |tokens|
      ensures ',' !in tokens[i]
      ensures ToIntOrNull(Trim(tokens[i])) == Some(days[i])
    {
      TokenRoundTrip(days[i]);
    }
    SplitJoin(tokens, ',');
    var s := Join(tokens, ",");
    TokenRoundTrip(days[0]);
    JoinStartsWithFirst(tokens, ",");
    assert !IsBlank(s) by {
      assert s[0] == tokens[0][0];
    }
    assert Split(s, ',') == tokens;
  }

  lemma {:induction false} JoinStartsWithFirst(xs: seq<string>, sep: string)
    requires |xs| >= 1 && |xs[0]| >= 1
    ensures |Join(xs, sep)| >= 1 && Join(xs, sep)[0] == xs[0][0]
  {
  }

  /** The label getDayNames gives a day number; None for numbers outside 1..7. */
  function DayName(d: int): Option<string> {
    if d == 1 then Some("Mon")
    else if d == 2 then Some("Tue")
    else if d == 3 then Some("Wed")
    else if d == 4 then Some("Thu")
    else if d == 5 then Some("Fri")
    else if d == 6 then Some("Sat")
    else if d == 7 then Some("Sun")
    else None
  }

  /** mapNotNull { dayMap[it] }. */
  function KnownDayNames(days: seq<int>): (r: seq<string>)
    ensures |r| <= |days|
    ensures (forall i :: 0 <= i < |days| ==> 1 <= days[i] <= 7) ==> |r| == |days|
    ensures forall i :: 0 <= i < |r| ==> r[i] in ["Mon", "Tue", "Wed", "Thu", "Fri", "Sat", "Sun"]
    ensures (forall i :: 0 <= i < |days| ==> 1 <= days[i] <= 7) ==>
      forall i :: 0 <= i < |r| ==> DayName(days[i]) == Some(r[i])
  {
    if days == [] then []
    else
      var rest := KnownDayNames(days[1..]);
      match DayName(days[0])
      case Some(n) => [n] + rest
      case None => rest
  }

  /** getDayNames. */
  function DayNames(daysOfWeek: string): (r: string)
    ensures |EnabledDays(daysOfWeek)| == 7 ==> r == "Every day"
    ensures |EnabledDays(daysOfWeek)| != 7 && EnabledDays(daysOfWeek) == [1, 2, 3, 4, 5] ==> r == "Weekdays"
    ensures |EnabledDays(daysOfWeek)| != 7 && EnabledDays(daysOfWeek) == [6, 7] ==> r == "Weekends"
    ensures (|EnabledDays(daysOfWeek)| != 7 && EnabledDays(daysOfWeek) != [1, 2, 3, 4, 5]
             && EnabledDays(daysOfWeek) != [6, 7]) ==>
      r == Join(KnownDayNames(EnabledDays(daysOfWeek)), ", ")
  {
    var days := EnabledDays(daysOfWeek);
    if |days| == 7 then "Every day"
    else if days == [1, 2, 3, 4, 5] then "Weekdays"
    else if days == [6, 7] then "Weekends"
    else Join(KnownDayNames(days), ", ")
  }

  /** A stored day list is shown by its own days: the three labels for their
      cases, else the names of the days 1..7 in the stored order. */
  lemma DayNamesOfStored(days: seq<int>)
    requires |days| >= 1
    requires forall i :: 0 <= i < |days| ==> INT_MIN <= days[i] <= INT_MAX
    ensures DayNames(Join(Numbers(days), ",")) ==
      if |days| == 7 then "Every day"
      else if days == [1, 2, 3, 4, 5] then "Weekdays"
      else if days == [6, 7] then "Weekends"
      else Join(KnownDayNames(days), ", ")
  {
    EnabledDaysOfJoined(days);
  }

  /** Names of three letters joined by ", " take five characters each, less
      the two of the missing last separator; the fourth is the first comma. */
  lemma {:induction false} NamesJoinedShape(names: seq<string>)
    requires forall i :: 0 <= i < |names| ==> |names[i]| == 3
    ensures names != [] ==> |Join(names, ", ")| + 2 == 5 * |names|
    ensures |names| >= 2 ==> Join(names, ", ")[3] == ','
  {
    if |names| >= 2 {
      NamesJoinedShape(names[1..]);
      assert Join(names, ", ") == names[0] + ", " + Join(names[1..], ", ");
    }
  }

  /** Each label is shown exactly in its own case: no list of day names
      reads "Every day", "Weekdays" or "Weekends". */
  lemma DayNamesLabels(daysOfWeek: string)
    ensures DayNames(daysOfWeek) == "Every day" <==> |EnabledDays(daysOfWeek)| == 7
    ensures DayNames(daysOfWeek) == "Weekdays" <==> EnabledDays(daysOfWeek) == [1, 2, 3, 4, 5]
    ensures DayNames(daysOfWeek) == "Weekends" <==> EnabledDays(daysOfWeek) == [6, 7]
  {
    var days := EnabledDays(daysOfWeek);
    if |days| != 7 && days != [1, 2, 3, 4, 5] && days != [6, 7] {
      JoinedNamesNoLabel(KnownDayNames(days));
    }
  }

  /** A list of three-letter names joined by ", " is none of the labels. */
  lemma JoinedNamesNoLabel(names: seq<string>)
    requires forall i :: 0 <= i < |names| ==> |names[i]| == 3
    ensures var shown := Join(names, ", ");
      shown != "Every day" && shown != "Weekdays" && shown != "Weekends"
  {
    NamesJoinedShape(names);
    var shown := Join(names, ", ");
    if |shown| == 8 {
      assert |names| == 2;
      assert shown[3] != "Weekdays"[3];
    }
  }

  /** The label counts the parsed days, not distinct ones: one day stored
      seven times also reads "Every day". */
  lemma RepeatedDayIsEveryDay()
    ensures DayNames(Join(Numbers([1, 1, 1, 1, 1, 1, 1]), ",")) == "Every day"
  {
    DayNamesOfStored([1, 1, 1, 1, 1, 1, 1]);
  }

  /** The default day list is shown as "Every day". */
  lemma DefaultIsEveryDay()
    ensures DayNames(NewSchedule(0, "", None, 0, 0, 0).daysOfWeek) == "Every day"
  {
    DefaultEnabledDays();
  }

  /** The default day list enables the days one to seven, in order. */
  lemma DefaultEnabledDays()
    ensures EnabledDays("1,2,3,4,5,6,7") == [1, 2, 3, 4, 5, 6, 7]
  {
    DefaultDaysJoined();
    EnabledDaysOfJoined([1, 2, 3, 4, 5, 6, 7]);
  }

  /** The default day list is the days one to seven joined by commas. */
  lemma DefaultDaysJoined()
    ensures Join(Numbers([1, 2, 3, 4, 5, 6, 7]), ",") == "1,2,3,4,5,6,7"
  {
    DefaultDaysRendered();
    DayDigitsJoined();
  }

  lemma DayDigitsJoined()
    ensures Join(["1", "2", "3", "4", "5", "6", "7"], ",") == "1,2,3,4,5,6,7"
  {
    var ns := ["1", "2", "3", "4", "5", "6", "7"];
    assert Join(ns[5..], ",") == "6,7";
    assert Join(ns[4..], ",") == "5,6,7";
    assert Join(ns[3..], ",") == "4,5,6,7";
    assert Join(ns[2..], ",") == "3,4,5,6,7";
    assert Join(ns[1..], ",") == "2,3,4,5,6,7";
  }

  lemma DefaultDaysRendered()
    ensures Numbers([1, 2, 3, 4, 5, 6, 7]) == ["1", "2", "3", "4", "5", "6", "7"]
  {
    DigitsJoined([1, 2, 3, 4, 5, 6, 7]);
  }

  /** Single-digit days are rendered as their digit. */
  lemma DigitsJoined(days: seq<int>)
    requires forall i :: 0 <= i < |days| ==> 0 <= days[i] <= 9
    ensures forall i :: 0 <= i < |days| ==> Numbers(days)[i] == [DigitChar(days[i])]
  {
    forall i | 0 <= i < |days|
      ensures Numbers(days)[i] == [DigitChar(days[i])]
    {
      assert NatToString(days[i]) == [DigitChar(days[i])];
    }
  }

  lemma WeekdaysExample()
    ensures DayNames("1,2,3,4,5") == "Weekdays"
  {
    assert Join(Numbers([1, 2, 3, 4, 5]), ",") == "1,2,3,4,5";
    EnabledDaysOfJoined([1, 2, 3, 4, 5]);
  }
}

/** The in-app error log: at most 50 entries, newest first, captured from
    logcat lines of level E or W and saved as "timestamp|level|tag|message"
    lines. The log file is a field holding its text (None when it does not
    exist), read back line by line as `useLines` does; the clock reading and
    the regex matches are parameters. */
module LogcatHelper {
  import opened Wrappers
  import opened Text
  import opened Sorting

  const MaxStoredLogs := 50

  datatype LogEntry = LogEntry(timestamp: int, level: string, tag: string, message: string)

  /** A logcat line the pattern matched: its level, tag and message groups. */
  datatype LogMatch = LogMatch(level: string, tag: string, message: string)

  function Min(a: int, b: int): int { if a <= b then a else b }

  /** addLogEntry on a list: the new entry first, then cut to 50. */
  function Added(entries: seq<LogEntry>, entry: LogEntry): (r: seq<LogEntry>)
    ensures |r| == Min(|entries| + 1, MaxStoredLogs)
    ensures r[0] == entry
    ensures forall i :: 1 <= i < |r| ==> r[i] == entries[i - 1]
  {
    var l := [entry] + entries;
    if |l| > MaxStoredLogs then l[..MaxStoredLogs] else l
  }

  /** Only levels "E" and "W" are kept. */
  predicate Kept(m: LogMatch) {
    m.level == "E" || m.level == "W"
  }

  /** The entry made of a match: the clock reading, the level, and the tag
      and message trimmed. */
  function EntryOf(m: LogMatch, now: int): LogEntry {
    LogEntry(now, m.level, Trim(m.tag), Trim(m.message))
  }

  /** The entries processLogLines adds, in the order it adds them. */
  function Captured(matches: seq<LogMatch>, now: int): (r: seq<LogEntry>)
    ensures |r| <= |matches|
    ensures forall i :: 0 <= i < |r| ==> r[i].level == "E" || r[i].level == "W"
  {
    if matches == [] then []
    else
      var m := matches[0];
      var rest := Captured(matches[1..], now);
      if Kept(m) then [EntryOf(m, now)] + rest else rest
  }

  /** The captured entries are exactly the E and W matches, in order, each
      made into its entry. */
  lemma {:induction false} CapturedKept(matches: seq<LogMatch>, now: int)
    ensures var kept, r := Filter(matches, Kept), Captured(matches, now);
      |r| == |kept| && forall i :: 0 <= i < |r| ==> r[i] == EntryOf(kept[i], now)
  {
    if matches != [] {
      var m, rest := matches[0], matches[1..];
      CapturedKept(rest, now);
      assert matches == [m] + rest;
      FilterCons(m, rest, Kept);
      var kept, r := Filter(rest, Kept), Captured(rest, now);
      if Kept(m) {
        assert Captured(matches, now) == [EntryOf(m, now)] + r;
        assert Filter(matches, Kept) == [m] + kept;
      } else {
        assert Captured(matches, now) == r;
        assert Filter(matches, Kept) == kept;
      }
    }
  }

  /** Adding entries one after the other. */
  function AddedAll(entries: seq<LogEntry>, added: seq<LogEntry>): (r: seq<LogEntry>)
    requires |entries| <= MaxStoredLogs
    ensures |r| <= MaxStoredLogs
    decreases |added|
  {
    if added == [] then entries else AddedAll(Added(entries, added[0]), added[1..])
  }

  /** `"$x|$rest"`. */
  function Bar(x: string, rest: string): string {
    x + "|" + rest
  }

  /** The saved line of an entry: "timestamp|level|tag|message". */
  function FormatLine(e: LogEntry): string {
    Bar(IntToString(e.timestamp), Bar(e.level, Bar(e.tag, e.message)))
  }

  /** One line of the file read back: four fields split at the first three
      '|', the first a Long; anything else is skipped. */
  function ParseLine(line: string): (r: Option<LogEntry>)
    ensures var parts := SplitLimit(line, '|', 4);
      r.Some? <==> |parts| == 4 && ToLongOrNull(parts[0]).Some?
    ensures var parts := SplitLimit(line, '|', 4);
      r.Some? ==> |parts| == 4 && r.value == LogEntry(ToLongOrNull(parts[0]).value, parts[1], parts[2], parts[3])
    ensures r.Some? ==>
      LONG_MIN <= r.value.timestamp <= LONG_MAX && '|' !in r.value.level && '|' !in r.value.tag
  {
    var parts := SplitLimit(line, '|', 4);
    if |parts| == 4 then
      SplitLimitFields(line, 4);
      match ToLongOrNull(parts[0])
      case Some(timestamp) => Some(LogEntry(timestamp, parts[1], parts[2], parts[3]))
      case None => None
    else None
  }

  /** The fields before the last of a limited split hold no delimiter. */
  lemma {:induction false} SplitLimitFields(s: string, n: nat)
    requires n >= 1
    ensures forall i :: 0 <= i < |SplitLimit(s, '|', n)| - 1 ==> '|' !in SplitLimit(s, '|', n)[i]
    decreases n
  {
    var i := IndexOf(s, '|');
    if !(n == 1 || i == |s|) {
      SplitLimitFields(s[i + 1..], n - 1);
      var r := SplitLimit(s, '|', n);
      assert r == [s[..i]] + SplitLimit(s[i + 1..], '|', n - 1);
      forall k | 0 <= k < |r| - 1 ensures '|' !in r[k] {
        if k > 0 {
          assert r[k] == SplitLimit(s[i + 1..], '|', n - 1)[k - 1];
        }
      }
    }
  }

  /** How many times `c` occurs in `s`. */
  function Count(s: string, c: char): nat {
    if s == [] then 0 else (if s[0] == c then 1 else 0) + Count(s[1..], c)
  }

  /** A line with fewer than three '|' has fewer than four fields and is skipped. */
  lemma FewBarsSkipped(line: string)
    requires Count(line, '|') < 3
    ensures ParseLine(line) == None
  {
    SplitLimitCount(line, '|', 4);
  }

  /** A limited split has at most one field more than there are delimiters. */
  lemma {:induction false} SplitLimitCount(s: string, sep: char, n: nat)
    requires n >= 1
    ensures |SplitLimit(s, sep, n)| <= Count(s, sep) + 1
    decreases n
  {
    var i := IndexOf(s, sep);
    if !(n == 1 || i == |s|) {
      SplitLimitCount(s[i + 1..], sep, n - 1);
      CountAtFirst(s, sep, i);
    }
  }

  /** Where `c` first occurs at i, the count is one more than after it. */
  lemma {:induction false} CountAtFirst(s: string, c: char, i: nat)
    requires i < |s| && s[i] == c
    requires forall j :: 0 <= j < i ==> s[j] != c
    ensures Count(s, c) == 1 + Count(s[i + 1..], c)
  {
    if i > 0 {
      CountAtFirst(s[1..], c, i - 1);
      assert s[1..][i..] == s[i + 1..];
    }
  }

  /** The entries loaded from the lines, in file order, before the cut to 50. */
  function ParsedLines(lines: seq<string>): (r: seq<LogEntry>)
    ensures |r| <= |lines|
  {
    if lines == [] then []
    else
      match ParseLine(lines[0])
      case Some(e) => [e] + ParsedLines(lines[1..])
      case None => ParsedLines(lines[1..])
  }

  function SavedLines(entries: seq<LogEntry>): (r: seq<string>)
    ensures |r| == |entries|
  {
    if entries == [] then [] else [FormatLine(entries[0])] + SavedLines(entries[1..])
  }

  /** What the writer puts in the file: each entry's line followed by the
      newline `newLine()` writes. */
  function SavedText(entries: seq<LogEntry>): (t: string)
    ensures |t| >= |entries|
  {
    if entries == [] then [] else WrittenLine(entries[0]) + SavedText(entries[1..])
  }

  /** `write(line)` then `newLine()`. */
  function WrittenLine(e: LogEntry): string {
    FormatLine(e) + "\n"
  }

  // ------------------------------------------------------------ reading lines

  /** A character at which `readLine` ends a line. */
  predicate IsLineBreak(c: char) {
    c == '\n' || c == '\r'
  }

  predicate NoLineBreak(s: string) {
    forall i :: 0 <= i < |s| ==> !IsLineBreak(s[i])
  }

  /** Where the first line of `t` ends: its first '\n' or '\r', or the end. */
  function LineBreakAt(t: string): (i: nat)
    ensures i <= |t|
    ensures i < |t| ==> IsLineBreak(t[i])
    ensures forall j :: 0 <= j < i ==> !IsLineBreak(t[j])
  {
    if t == [] || IsLineBreak(t[0]) then 0 else 1 + LineBreakAt(t[1..])
  }

  /** The lines `useLines` yields: a line ends at '\n', '\r' or "\r\n", and
      the text after the last terminator is a line when it is not empty. */
  function Lines(t: string): (r: seq<string>)
    ensures forall k :: 0 <= k < |r| ==> NoLineBreak(r[k])
    decreases |t|
  {
    if t == [] then []
    else
      var i := LineBreakAt(t);
      if i == |t| then [t]
      else
        var next := if t[i] == '\r' && i + 1 < |t| && t[i + 1] == '\n' then i + 2 else i + 1;
        [t[..i]] + Lines(t[next..])
  }

  /** A line without a break, written with its newline, reads back as that
      line followed by whatever comes after. */
  lemma LinesAfterLine(x: string, rest: string)
    requires NoLineBreak(x)
    ensures Lines(x + "\n" + rest) == [x] + Lines(rest)
  {
    var t := x + "\n" + rest;
    LineBreakAtAfter(x, t);
    assert t[..|x|] == x && t[|x| + 1..] == rest;
  }

  lemma {:induction false} LineBreakAtAfter(x: string, t: string)
    requires NoLineBreak(x) && |x| < |t| && t[..|x|] == x && t[|x|] == '\n'
    ensures LineBreakAt(t) == |x|
  {
    if x != [] {
      assert t[0] == x[0];
      LineBreakAtAfter(x[1..], t[1..]);
    }
  }

  /** An entry whose level and tag hold no '|', whose timestamp is a Long and
      whose fields hold no line break. */
  predicate Saveable(e: LogEntry) {
    LONG_MIN <= e.timestamp <= LONG_MAX && '|' !in e.level && '|' !in e.tag
    && NoLineBreak(e.level) && NoLineBreak(e.tag) && NoLineBreak(e.message)
  }

  /** The saved line of such an entry holds no line break. */
  lemma FormatLineNoBreak(e: LogEntry)
    requires Saveable(e)
    ensures NoLineBreak(FormatLine(e))
  {
    var d := IntToString(e.timestamp);
    var n := NatToString(if e.timestamp >= 0 then e.timestamp else -e.timestamp);
    assert forall i :: 0 <= i < |n| ==> IsDigit(n[i]);
    assert NoLineBreak(d);
  }

  /** The file written from saveable entries reads back as their saved lines. */
  lemma {:induction false} SavedTextLines(entries: seq<LogEntry>)
    requires forall i :: 0 <= i < |entries| ==> Saveable(entries[i])
    ensures Lines(SavedText(entries)) == SavedLines(entries)
  {
    if entries != [] {
      FormatLineNoBreak(entries[0]);
      LinesAfterLine(FormatLine(entries[0]), SavedText(entries[1..]));
      assert SavedText(entries) == FormatLine(entries[0]) + "\n" + SavedText(entries[1..]);
      SavedTextLines(entries[1..]);
    }
  }

  lemma IndexOfAfter(x: string, c: char, rest: string)
    requires c !in x
    ensures IndexOf(x + [c] + rest, c) == |x|
  {
    var s := x + [c] + rest;
    var i := IndexOf(s, c);
    assert s[|x|] == c;
  }

  lemma SplitLimitStep(x: string, rest: string, n: nat)
    requires n >= 2 && '|' !in x
    ensures SplitLimit(Bar(x, rest), '|', n) == [x] + SplitLimit(rest, '|', n - 1)
  {
    var s := Bar(x, rest);
    IndexOfAfter(x, '|', rest);
    assert s[..|x|] == x && s[|x| + 1..] == rest;
  }

  lemma IntToStringNoBar(n: int)
    ensures '|' !in IntToString(n)
  {
    var d := NatToString(if n >= 0 then n else -n);
    assert forall i :: 0 <= i < |d| ==> IsDigit(d[i]);
  }

  /** Four fields joined by '|' split back with limit 4 when the first three
      hold no '|'; the last may. */
  lemma SplitFour(a: string, b: string, c: string, d: string)
    requires '|' !in a && '|' !in b && '|' !in c
    ensures var r := SplitLimit(Bar(a, Bar(b, Bar(c, d))), '|', 4);
      |r| == 4 && r[0] == a && r[1] == b && r[2] == c && r[3] == d
  {
    SplitThree(b, c, d);
    SplitLimitStep(a, Bar(b, Bar(c, d)), 4);
  }

  lemma SplitThree(b: string, c: string, d: string)
    requires '|' !in b && '|' !in c
    ensures var r := SplitLimit(Bar(b, Bar(c, d)), '|', 3);
      |r| == 3 && r[0] == b && r[1] == c && r[2] == d
  {
    SplitTwo(c, d);
    SplitLimitStep(b, Bar(c, d), 3);
  }

  lemma SplitTwo(c: string, d: string)
    requires '|' !in c
    ensures var r := SplitLimit(Bar(c, d), '|', 2);
      |r| == 2 && r[0] == c && r[1] == d
  {
    assert SplitLimit(d, '|', 1) == [d];
    SplitLimitStep(c, d, 2);
  }

  /** A saved line splits back into its four fields; the message may contain '|'. */
  lemma SplitFormat(e: LogEntry)
    requires '|' !in e.level && '|' !in e.tag
    ensures var r := SplitLimit(FormatLine(e), '|', 4);
      |r| == 4 && r[0] == IntToString(e.timestamp) && r[1] == e.level && r[2] == e.tag && r[3] == e.message
  {
    IntToStringNoBar(e.timestamp);
    SplitFour(IntToString(e.timestamp), e.level, e.tag, e.message);
  }

  /** A saved line parses back to its entry. */
  lemma FormatParse(e: LogEntry)
    requires Saveable(e)
    ensures ParseLine(FormatLine(e)) == Some(e)
  {
    SplitFormat(e);
    IntToStringRoundTrip(e.timestamp);
    assert ToLongOrNull(IntToString(e.timestamp)) == Some(e.timestamp);
  }

  /** The saved lines parse back to the saved entries. */
  lemma {:induction false} ParseSavedLines(entries: seq<LogEntry>)
    requires forall i :: 0 <= i < |entries| ==> Saveable(entries[i])
    ensures ParsedLines(SavedLines(entries)) == entries
  {
    if entries != [] {
      FormatParse(entries[0]);
      ParseSavedLines(entries[1..]);
      assert SavedLines(entries)[1..] == SavedLines(entries[1..]);
    }
  }

  /** Saving and loading gives back the saved entries. */
  lemma SaveLoad(entries: seq<LogEntry>)
    requires forall i :: 0 <= i < |entries| ==> Saveable(entries[i])
    ensures ParsedLines(Lines(SavedText(entries))) == entries
  {
    SavedTextLines(entries);
    ParseSavedLines(entries);
  }

  /** A message holding a newline is saved on two lines; the second does
      not parse, so the entry comes back with its message cut at the break. */
  lemma MultiLineMessageCut()
    ensures ParsedLines(Lines(SavedText([LogEntry(1, "E", "T", "a\nb")]))) == [LogEntry(1, "E", "T", "a")]
  {
    var line := FormatLine(LogEntry(1, "E", "T", "a"));
    SavedOnTwoLines();
    CutEntryLine();
    LoneWordLine();
    LinesOfTwo(line, "b");
    ParsedFirstOfTwo(line, "b");
  }

  lemma CutEntryLine()
    ensures var e := LogEntry(1, "E", "T", "a");
      NoLineBreak(FormatLine(e)) && ParseLine(FormatLine(e)) == Some(e)
  {
    var e := LogEntry(1, "E", "T", "a");
    assert Saveable(e);
    FormatLineNoBreak(e);
    FormatParse(e);
  }

  lemma LoneWordLine()
    ensures NoLineBreak("b") && ParseLine("b") == None
  {
    FewBarsSkipped("b");
  }

  lemma LinesOfTwo(x: string, y: string)
    requires NoLineBreak(x) && NoLineBreak(y)
    ensures Lines(x + "\n" + (y + "\n")) == [x, y]
  {
    LinesAfterLine(x, y + "\n");
    assert y + "\n" == y + "\n" + [];
    LinesAfterLine(y, []);
  }

  lemma ParsedFirstOfTwo(x: string, y: string)
    requires ParseLine(x).Some? && ParseLine(y).None?
    ensures ParsedLines([x, y]) == [ParseLine(x).value]
  {
    assert [x, y][1..] == [y];
    assert [y][1..] == [];
  }

  lemma SavedOnTwoLines()
    ensures SavedText([LogEntry(1, "E", "T", "a\nb")]) == FormatLine(LogEntry(1, "E", "T", "a")) + "\n" + ("b" + "\n")
  {
    var f := FormatLine(LogEntry(1, "E", "T", "a"));
    assert FormatLine(LogEntry(1, "E", "T", "a\nb")) == f + "\nb";
    assert SavedText([LogEntry(1, "E", "T", "a\nb")]) == (f + "\nb") + "\n" + [];
  }

  class LogcatHelper {
    var logEntries: seq<LogEntry>
    /** The text of app_error_logs.txt; None while the file does not exist. */
    var file: Option<string>

    predicate Valid()
      reads this
    {
      |logEntries| <= MaxStoredLogs
    }

    constructor (savedFile: Option<string>)
      ensures Valid() && file == savedFile
      ensures savedFile.None? ==> logEntries == []
      ensures savedFile.Some? ==> logEntries == Take(ParsedLines(Lines(savedFile.value)))
    {
      logEntries := [];
      file := savedFile;
      new;
      LoadLogsFromFile();
    }

    /** addLogEntry: the entry goes first; past 50 only the oldest are dropped. */
    method AddLogEntry(entry: LogEntry)
      requires Valid()
      modifies this
      ensures Valid() && logEntries == Added(old(logEntries), entry) && file == old(file)
    {
      logEntries := [entry] + logEntries;
      if |logEntries| > MaxStoredLogs {
        logEntries := logEntries[..MaxStoredLogs];
      }
    }

    /** processLogLines over the lines the pattern matched, read at clock `now`. */
    method ProcessLogLines(matches: seq<LogMatch>, now: int)
      requires Valid()
      modifies this
      ensures Valid() && logEntries == AddedAll(old(logEntries), Captured(matches, now))
      ensures file == old(file)
    {
      var i := 0;
      while i < |matches|
        invariant 0 <= i <= |matches| && Valid() && file == old(file)
        invariant AddedAll(logEntries, Captured(matches[i..], now))
          == AddedAll(old(logEntries), Captured(matches, now))
      {
        var m := matches[i];
        assert matches[i..][1..] == matches[i + 1..];
        if m.level == "E" || m.level == "W" {
          AddLogEntry(LogEntry(now, m.level, Trim(m.tag), Trim(m.message)));
        }
        i := i + 1;
      }
    }

    /** clearLogs, then the save. */
    method ClearLogs()
      requires Valid()
      modifies this
      ensures Valid() && logEntries == [] && file == Some("")
    {
      logEntries := [];
      SaveLogsToFile();
    }

    /** The file write of saveLogsToFileAsync, done at once. */
    method SaveLogsToFile()
      requires Valid()
      modifies this
      ensures Valid() && logEntries == old(logEntries) && file == Some(SavedText(logEntries))
    {
      var text := WriteEntries(logEntries);
      file := Some(text);
    }

    /** loadLogsFromFile: with a file, the first 50 well-formed lines replace
        the entries; without one, nothing changes. */
    method LoadLogsFromFile()
      modifies this
      ensures file == old(file)
      ensures file.None? ==> logEntries == old(logEntries)
      ensures file.Some? ==> logEntries == Take(ParsedLines(Lines(file.value)))
      ensures file.Some? ==> Valid()
      ensures old(Valid()) ==> Valid()
    {
      if file.None? {
        return;
      }
      var lines := Lines(file.value);
      var entries: seq<LogEntry> := [];
      var i := 0;
      while i < |lines|
        invariant 0 <= i <= |lines|
        invariant entries + ParsedLines(lines[i..]) == ParsedLines(lines)
      {
        assert lines[i..][1..] == lines[i + 1..];
        var parsed := ParseLine(lines[i]);
        if parsed.Some? {
          entries := entries + [parsed.value];
        }
        i := i + 1;
      }
      assert lines[i..] == [];
      logEntries := Take(entries);
    }
  }

  /** The writer loop: one formatted line and a newline per entry, in list order. */
  method WriteEntries(entries: seq<LogEntry>) returns (text: string)
    ensures text == SavedText(entries)
  {
    text := [];
    var i := 0;
    while i < |entries|
      invariant 0 <= i <= |entries|
      invariant text == SavedText(entries[..i])
    {
      SavedTextStep(entries, i);
      text := text + WrittenLine(entries[i]);
      i := i + 1;
    }
    assert entries[..i] == entries;
  }

  /** `take(50)`. */
  function Take(entries: seq<LogEntry>): (r: seq<LogEntry>)
    ensures |r| == Min(|entries|, MaxStoredLogs) && r == entries[..|r|]
  {
    if |entries| > MaxStoredLogs then entries[..MaxStoredLogs] else entries
  }

  lemma SavedTextStep(entries: seq<LogEntry>, i: nat)
    requires i < |entries|
    ensures SavedText(entries[..i + 1]) == SavedText(entries[..i]) + WrittenLine(entries[i])
  {
    SavedTextSnoc(entries[..i], entries[i]);
    assert entries[..i + 1] == entries[..i] + [entries[i]];
  }

  lemma {:induction false} SavedTextSnoc(entries: seq<LogEntry>, e: LogEntry)
    ensures SavedText(entries + [e]) == SavedText(entries) + WrittenLine(e)
  {
    if entries == [] {
      assert SavedText([e]) == WrittenLine(e) + [];
    } else {
      assert (entries + [e])[1..] == entries[1..] + [e];
      SavedTextSnoc(entries[1..], e);
      var a, b := WrittenLine(entries[0]), SavedText(entries[1..]);
      assert a + (b + WrittenLine(e)) == (a + b) + WrittenLine(e);
    }
  }

  /** Saving a valid log and loading it back restores the log. */
  lemma SaveThenLoad(entries: seq<LogEntry>)
    requires |entries| <= MaxStoredLogs
    requires forall i :: 0 <= i < |entries| ==> Saveable(entries[i])
    ensures Take(ParsedLines(Lines(SavedText(entries)))) == entries
  {
    SaveLoad(entries);
  }
}

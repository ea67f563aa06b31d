/** The note editor's list formatting (bullet and checkbox toggling on the
    current line or on every selected line) and its comma-separated
    attachment URI lists. The editor is a class with the text and the
    selection; characters are UTF-16 units, and the three symbols used are
    single units. */
module EditNoteActivity {
  import opened Wrappers
  import opened Text
  import opened Sorting

  const Bullet: char := '\U{2022}'
  const Unchecked: char := '\U{2610}'
  const Checked: char := '\U{2611}'

  // ---------------------------------------------------------------- lines

  /** Where the line holding position `c` starts. */
  function LineStartOf(text: string, c: int): (s: int)
    requires 0 <= c <= |text|
    ensures 0 <= s <= c
    ensures s == 0 || text[s - 1] == '\n'
    ensures forall k :: s <= k < c ==> text[k] != '\n'
    decreases c
  {
    if c > 0 && text[c - 1] != '\n' then LineStartOf(text, c - 1) else c
  }

  /** Where the line holding position `c` ends (its '\n' or the end of text). */
  function LineEndOf(text: string, c: int): (e: int)
    requires 0 <= c <= |text|
    ensures c <= e <= |text|
    ensures e == |text| || text[e] == '\n'
    ensures forall k :: c <= k < e ==> text[k] != '\n'
    decreases |text| - c
  {
    if c < |text| && text[c] != '\n' then LineEndOf(text, c + 1) else c
  }

  /** Drops leading `\s` characters. */
  function DropRegexSpaces(s: string): (r: string)
    ensures |r| <= |s|
    ensures r == [] || !IsRegexSpace(r[0])
  {
    if s != [] && IsRegexSpace(s[0]) then DropRegexSpaces(s[1..]) else s
  }

  /** Only leading `\s` characters go: the result is a suffix of `s` and
      everything before it is a `\s` character. */
  lemma {:induction false} DropRegexSpacesSuffix(s: string)
    ensures var r := DropRegexSpaces(s);
      r == s[|s| - |r|..] && forall j :: 0 <= j < |s| - |r| ==> IsRegexSpace(s[j])
    decreases |s|
  {
    if s != [] && IsRegexSpace(s[0]) {
      DropRegexSpacesSuffix(s[1..]);
    }
  }

  lemma DropRegexSpacesNone(s: string)
    requires s == [] || !IsRegexSpace(s[0])
    ensures DropRegexSpaces(s) == s
  {
  }

  /** A line toggled by the bullet button: `^•\s*` removed when present,
      else "• " put in front. */
  function ToggledBulletLine(line: string): (r: string)
    ensures |line| > 0 && line[0] == Bullet ==> |r| < |line|
    ensures !(|line| > 0 && line[0] == Bullet) ==> r == [Bullet, ' '] + line
  {
    if |line| > 0 && line[0] == Bullet then DropRegexSpaces(line[1..]) else [Bullet, ' '] + line
  }

  /** Toggling a bulleted line removes the bullet and the `\s` characters
      after it, and nothing else: the rest of the line is kept as it was. */
  lemma BulletRemoved(line: string)
    requires |line| > 0 && line[0] == Bullet
    ensures var r := ToggledBulletLine(line);
      r == line[|line| - |r|..] && (r == [] || !IsRegexSpace(r[0]))
      && forall j :: 1 <= j < |line| - |r| ==> IsRegexSpace(line[j])
  {
    var rest := line[1..];
    DropRegexSpacesSuffix(rest);
    var r := DropRegexSpaces(rest);
    assert rest[|rest| - |r|..] == line[|line| - |r|..];
    forall j | 1 <= j < |line| - |r|
      ensures IsRegexSpace(line[j])
    {
      assert line[j] == rest[j - 1];
    }
  }

  /** Adding a bullet and toggling again gives the line back, unless it
      started with a `\s` character (those go with the bullet). */
  lemma BulletToggleTwice(line: string)
    requires !(|line| > 0 && line[0] == Bullet)
    requires line == [] || !IsRegexSpace(line[0])
    ensures ToggledBulletLine(ToggledBulletLine(line)) == line
  {
    var b := [Bullet, ' '] + line;
    assert b[1..] == [' '] + line;
    assert ([' '] + line)[1..] == line;
    DropRegexSpacesNone(line);
  }

  /** The selection mode of the bullet button: "• line\n" per line. */
  function BulletLines(lines: seq<string>): string {
    if lines == [] then [] else [Bullet, ' '] + lines[0] + "\n" + BulletLines(lines[1..])
  }

  /** The selection mode of the checkbox button: "☐ line\n" per non-empty line. */
  function CheckboxLines(lines: seq<string>): string {
    if lines == [] then []
    else (if lines[0] != [] then [Unchecked, ' '] + lines[0] + "\n" else []) + CheckboxLines(lines[1..])
  }

  /** Empty lines contribute nothing to the checkbox list. */
  lemma {:induction false} CheckboxLinesSkipEmpty(a: seq<string>, b: seq<string>)
    ensures CheckboxLines(a + [""] + b) == CheckboxLines(a + b)
  {
    if a == [] {
      assert a + [""] + b == [""] + b && a + b == b;
      assert ([""] + b)[1..] == b;
      assert CheckboxLines([""] + b) == [] + CheckboxLines(b);
    } else {
      assert (a + [""] + b)[1..] == a[1..] + [""] + b;
      assert (a + b)[1..] == a[1..] + b;
      CheckboxLinesSkipEmpty(a[1..], b);
    }
  }

  /** `^[☐☑]\s`. */
  predicate HasCheckbox(line: string) {
    |line| >= 2 && (line[0] == Unchecked || line[0] == Checked) && IsRegexSpace(line[1])
  }

  /** A line toggled by the checkbox button. A box followed by a space has
      every "☐ " (or every "☑ ") of the line swapped, as `replace` does; a box
      followed by another space character is left alone; any other line gets
      "☐ " in front. */
  function ToggledCheckboxLine(line: string): (r: string)
    ensures !HasCheckbox(line) ==> r == [Unchecked, ' '] + line
  {
    if HasCheckbox(line) then
      if StartsWith(line, [Unchecked, ' ']) then ReplaceAll(line, [Unchecked, ' '], [Checked, ' '])
      else if StartsWith(line, [Checked, ' ']) then ReplaceAll(line, [Checked, ' '], [Unchecked, ' '])
      else line
    else [Unchecked, ' '] + line
  }

  /** `pat` occurs in `s` at position `k`. */
  predicate OccursAt(s: string, pat: string, k: int)
    requires 0 <= k && k + |pat| <= |s|
  {
    s[k..k + |pat|] == pat
  }

  /** `pat` does not occur in `s`. */
  predicate Absent(s: string, pat: string) {
    forall k :: 0 <= k && k + |pat| <= |s| ==> !OccursAt(s, pat, k)
  }

  lemma {:induction false} ReplaceAllAbsent(s: string, pat: string, rep: string)
    requires |pat| > 0 && Absent(s, pat)
    ensures ReplaceAll(s, pat, rep) == s
    decreases |s|
  {
    if |s| >= |pat| {
      assert !OccursAt(s, pat, 0);
      assert s[0..|pat|] == s[..|pat|];
      assert Absent(s[1..], pat) by {
        forall k | 0 <= k && k + |pat| <= |s[1..]| ensures !OccursAt(s[1..], pat, k) {
          assert s[1..][k..k + |pat|] == s[k + 1..k + 1 + |pat|];
          assert !OccursAt(s, pat, k + 1);
        }
      }
      ReplaceAllAbsent(s[1..], pat, rep);
      assert [s[0]] + s[1..] == s;
    }
  }

  /** The box of a line whose text holds no other box is ticked and unticked. */
  lemma CheckboxToggle(rest: string)
    requires Absent(rest, [Unchecked, ' ']) && Absent(rest, [Checked, ' '])
    ensures ToggledCheckboxLine([Unchecked, ' '] + rest) == [Checked, ' '] + rest
    ensures ToggledCheckboxLine([Checked, ' '] + rest) == [Unchecked, ' '] + rest
  {
    ReplaceAllAbsent(rest, [Unchecked, ' '], [Checked, ' ']);
    ReplaceAllAbsent(rest, [Checked, ' '], [Unchecked, ' ']);
    var u := [Unchecked, ' '] + rest;
    var c := [Checked, ' '] + rest;
    assert u[..2] == [Unchecked, ' '] && u[2..] == rest;
    assert c[..2] == [Checked, ' '] && c[2..] == rest;
  }

  // ---------------------------------------------------------------- the editor

  /** The text field: its text and selection (start, end as Android reports
      them; both lie within the text). */
  class Editor {
    var text: string
    var selectionStart: int
    var selectionEnd: int

    predicate Valid()
      reads this
    {
      0 <= selectionStart <= |text| && 0 <= selectionEnd <= |text|
    }

    constructor (initial: string, start: int, end: int)
      requires 0 <= start <= |initial| && 0 <= end <= |initial|
      ensures Valid() && text == initial && selectionStart == start && selectionEnd == end
    {
      text := initial;
      selectionStart := start;
      selectionEnd := end;
    }

    /** `editor.text.replace(a, b, piece)` followed by `setSelection(cursor)`. */
    method Replace(a: int, b: int, piece: string, cursor: int)
      requires 0 <= a <= b <= |text| && 0 <= cursor <= a + |piece|
      modifies this
      ensures text == old(text[..a]) + piece + old(text[b..])
      ensures selectionStart == cursor && selectionEnd == cursor && Valid()
    {
      text := text[..a] + piece + text[b..];
      selectionStart := cursor;
      selectionEnd := cursor;
    }

    /** insertBulletList. A reversed selection makes `substring` throw, which
        the activity catches: nothing changes. */
    method InsertBulletList()
      requires Valid()
      modifies this
      ensures Valid()
      ensures old(selectionStart) > old(selectionEnd) ==>
        text == old(text) && selectionStart == old(selectionStart) && selectionEnd == old(selectionEnd)
      ensures old(selectionStart) < old(selectionEnd) ==>
        var piece := BulletLines(Split(old(text)[old(selectionStart)..old(selectionEnd)], '\n'));
        text == old(text)[..old(selectionStart)] + piece + old(text)[old(selectionEnd)..]
        && selectionStart == selectionEnd == old(selectionStart) + |piece|
      ensures old(selectionStart) == old(selectionEnd) ==>
        var ls := LineStartOf(old(text), old(selectionStart));
        var le := LineEndOf(old(text), old(selectionStart));
        var line := ToggledBulletLine(old(text)[ls..le]);
        text == old(text)[..ls] + line + old(text)[le..]
        && selectionStart == selectionEnd == ls + |line|
    {
      var start := selectionStart;
      var end := selectionEnd;
      if start > end {
        return;
      }
      if start != end {
        var lines := Split(text[start..end], '\n');
        var builder := BuildBulletLines(lines);
        Replace(start, end, builder, start + |builder|);
      } else {
        var lineStart := FindLineStart(text, start);
        var lineEnd := FindLineEnd(text, start);
        var line := text[lineStart..lineEnd];
        if |line| > 0 && line[0] == Bullet {
          var unbulleted := DropRegexSpaces(line[1..]);
          Replace(lineStart, lineEnd, unbulleted, lineStart + |unbulleted|);
        } else {
          var bulleted := [Bullet, ' '] + line;
          Replace(lineStart, lineEnd, bulleted, lineStart + |bulleted|);
        }
      }
    }

    /** insertCheckboxList, with the same exception path. */
    method InsertCheckboxList()
      requires Valid()
      modifies this
      ensures Valid()
      ensures old(selectionStart) > old(selectionEnd) ==>
        text == old(text) && selectionStart == old(selectionStart) && selectionEnd == old(selectionEnd)
      ensures old(selectionStart) < old(selectionEnd) ==>
        var piece := CheckboxLines(Split(old(text)[old(selectionStart)..old(selectionEnd)], '\n'));
        text == old(text)[..old(selectionStart)] + piece + old(text)[old(selectionEnd)..]
        && selectionStart == selectionEnd == old(selectionStart) + |piece|
      ensures old(selectionStart) == old(selectionEnd) ==>
        var ls := LineStartOf(old(text), old(selectionStart));
        var le := LineEndOf(old(text), old(selectionStart));
        var line := ToggledCheckboxLine(old(text)[ls..le]);
        text == old(text)[..ls] + line + old(text)[le..]
        && selectionStart == selectionEnd == ls + |line|
    {
      var start := selectionStart;
      var end := selectionEnd;
      if start > end {
        return;
      }
      if start != end {
        var lines := Split(text[start..end], '\n');
        var builder := BuildCheckboxLines(lines);
        Replace(start, end, builder, start + |builder|);
      } else {
        var lineStart := FindLineStart(text, start);
        var lineEnd := FindLineEnd(text, start);
        var line := text[lineStart..lineEnd];
        var toggled := ToggledCheckboxLine(line);
        Replace(lineStart, lineEnd, toggled, lineStart + |toggled|);
      }
    }
  }

  /** The backward scan for the line start. */
  method FindLineStart(text: string, start: int) returns (lineStart: int)
    requires 0 <= start <= |text|
    ensures lineStart == LineStartOf(text, start)
  {
    lineStart := start;
    while lineStart > 0 && text[lineStart - 1] != '\n'
      invariant 0 <= lineStart <= start
      invariant LineStartOf(text, lineStart) == LineStartOf(text, start)
    {
      lineStart := lineStart - 1;
    }
  }

  /** The forward scan for the line end. */
  method FindLineEnd(text: string, start: int) returns (lineEnd: int)
    requires 0 <= start <= |text|
    ensures lineEnd == LineEndOf(text, start)
  {
    lineEnd := start;
    while lineEnd < |text| && text[lineEnd] != '\n'
      invariant start <= lineEnd <= |text|
      invariant LineEndOf(text, lineEnd) == LineEndOf(text, start)
    {
      lineEnd := lineEnd + 1;
    }
  }

  lemma {:induction false} BulletLinesSnoc(lines: seq<string>, line: string)
    ensures BulletLines(lines + [line]) == BulletLines(lines) + [Bullet, ' '] + line + "\n"
  {
    if lines != [] {
      assert (lines + [line])[1..] == lines[1..] + [line];
      BulletLinesSnoc(lines[1..], line);
    } else {
      assert BulletLines([line]) == [Bullet, ' '] + line + "\n" + BulletLines([]);
    }
  }

  lemma {:induction false} CheckboxLinesSnoc(lines: seq<string>, line: string)
    ensures CheckboxLines(lines + [line])
      == CheckboxLines(lines) + (if line != [] then [Unchecked, ' '] + line + "\n" else [])
  {
    if lines != [] {
      assert (lines + [line])[1..] == lines[1..] + [line];
      CheckboxLinesSnoc(lines[1..], line);
    } else {
      assert CheckboxLines([line]) == (if line != [] then [Unchecked, ' '] + line + "\n" else []) + CheckboxLines([]);
    }
  }

  /** The StringBuilder loop of the bullet selection mode. */
  method BuildBulletLines(lines: seq<string>) returns (builder: string)
    ensures builder == BulletLines(lines)
  {
    builder := [];
    var i := 0;
    while i < |lines|
      invariant 0 <= i <= |lines|
      invariant builder == BulletLines(lines[..i])
    {
      BulletLinesSnoc(lines[..i], lines[i]);
      assert lines[..i + 1] == lines[..i] + [lines[i]];
      builder := builder + [Bullet, ' '] + lines[i] + "\n";
      i := i + 1;
    }
    assert lines[..i] == lines;
  }

  /** The StringBuilder loop of the checkbox selection mode. */
  method BuildCheckboxLines(lines: seq<string>) returns (builder: string)
    ensures builder == CheckboxLines(lines)
  {
    builder := [];
    var i := 0;
    while i < |lines|
      invariant 0 <= i <= |lines|
      invariant builder == CheckboxLines(lines[..i])
    {
      CheckboxLinesSnoc(lines[..i], lines[i]);
      assert lines[..i + 1] == lines[..i] + [lines[i]];
      if lines[i] != [] {
        builder := builder + [Unchecked, ' '] + lines[i] + "\n";
      }
      i := i + 1;
    }
    assert lines[..i] == lines;
  }

  // ---------------------------------------------------------------- URI lists

  predicate KeptUri(x: string, uri: string) {
    x != "" && x != uri
  }

  /** The filter that keeps a field when it is a URI other than `uri`. */
  function KeepsUri(uri: string): string -> bool {
    x => KeptUri(x, uri)
  }

  /** The URIs left after removing `uri`: split at ',', without empty entries
      and without any copy of `uri`. */
  function RemainingUris(uris: Option<string>, uri: string): (r: seq<string>)
    ensures uris.None? ==> r == []
    ensures forall i :: 0 <= i < |r| ==> r[i] != "" && r[i] != uri && ',' !in r[i]
  {
    match uris
    case None => []
    case Some(s) =>
      SplitFieldsHaveNoSep(s, ',');
      var r := Filter(Split(s, ','), KeepsUri(uri));
      assert forall i :: 0 <= i < |r| ==> r[i] in Split(s, ',');
      r
  }

  /** Each other non-empty field stays as often as the list holds it; empty
      fields and `uri` are gone. */
  lemma RemainingUrisCount(s: string, uri: string, x: string)
    ensures multiset(RemainingUris(Some(s), uri))[x]
      == if x != "" && x != uri then multiset(Split(s, ','))[x] else 0
  {
    FilterCount(Split(s, ','), KeepsUri(uri), x);
  }

  /** A list written from fields keeps the remaining fields in their order. */
  lemma RemainingUrisOfFields(fields: seq<string>, uri: string)
    requires |fields| >= 1
    requires forall i :: 0 <= i < |fields| ==> ',' !in fields[i]
    ensures RemainingUris(Some(Join(fields, ",")), uri) == Filter(fields, KeepsUri(uri))
  {
    SplitJoin(fields, ',');
  }

  /** Order: the URIs that remain of a list's first part come before those
      of its second part. */
  lemma RemainingUrisInOrder(a: seq<string>, b: seq<string>, uri: string)
    requires |a| >= 1 && |b| >= 1
    requires forall i :: 0 <= i < |a| ==> ',' !in a[i]
    requires forall i :: 0 <= i < |b| ==> ',' !in b[i]
    ensures RemainingUris(Some(Join(a + b, ",")), uri)
      == RemainingUris(Some(Join(a, ",")), uri) + RemainingUris(Some(Join(b, ",")), uri)
  {
    var ab := a + b;
    assert forall i :: 0 <= i < |ab| ==> ',' !in ab[i] by {
      forall i | 0 <= i < |ab| ensures ',' !in ab[i] {
        if i < |a| { assert ab[i] == a[i]; } else { assert ab[i] == b[i - |a|]; }
      }
    }
    RemainingUrisOfFields(ab, uri);
    RemainingUrisOfFields(a, uri);
    RemainingUrisOfFields(b, uri);
    FilterConcat(a, b, KeepsUri(uri));
  }

  /** The stored list after removing an image or video: null when nothing is left. */
  function RemoveUri(uris: Option<string>, uri: string): (r: Option<string>)
    ensures r.None? <==> RemainingUris(uris, uri) == []
  {
    var rest := RemainingUris(uris, uri);
    if rest == [] then None else Some(Join(rest, ","))
  }

  /** The stored list reads back as exactly the remaining URIs. */
  lemma RemoveUriFields(uris: Option<string>, uri: string)
    requires RemoveUri(uris, uri).Some?
    ensures Split(RemoveUri(uris, uri).value, ',') == RemainingUris(uris, uri)
  {
    SplitJoin(RemainingUris(uris, uri), ',');
  }

  /** Removing the same URI twice changes nothing more. */
  lemma RemoveUriIdempotent(uris: Option<string>, uri: string)
    ensures RemoveUri(RemoveUri(uris, uri), uri) == RemoveUri(uris, uri)
  {
    var rest := RemainingUris(uris, uri);
    if rest != [] {
      RemoveUriFields(uris, uri);
      FilterAll(rest, x => KeptUri(x, uri));
    }
  }

  datatype VoiceNote = VoiceNote(filePath: string, firebaseUrl: string)

  predicate Uploaded(v: VoiceNote) {
    v.firebaseUrl != "" && StartsWith(v.firebaseUrl, "http")
  }

  /** The firebaseUrls that are kept, in order. */
  function UploadedUrls(notes: seq<VoiceNote>): (r: seq<string>)
    ensures |r| <= |notes|
    ensures forall i :: 0 <= i < |r| ==> r[i] != "" && StartsWith(r[i], "http")
  {
    if notes == [] then []
    else (if Uploaded(notes[0]) then [notes[0].firebaseUrl] else []) + UploadedUrls(notes[1..])
  }

  /** The voiceNoteUris saved with a note: null without uploaded recordings. */
  function SavedVoiceUris(notes: seq<VoiceNote>): (r: Option<string>)
    ensures r.None? <==> UploadedUrls(notes) == []
  {
    if notes == [] then None
    else
      var urls := UploadedUrls(notes);
      if urls == [] then None else Some(Join(urls, ","))
  }

  /** Read back, the saved list holds only uploaded "http" URLs, provided
      none of them contains a comma. */
  lemma SavedVoiceUrisFields(notes: seq<VoiceNote>)
    requires SavedVoiceUris(notes).Some?
    requires forall i :: 0 <= i < |notes| ==> ',' !in notes[i].firebaseUrl
    ensures Split(SavedVoiceUris(notes).value, ',') == UploadedUrls(notes)
  {
    UploadedUrlsNoComma(notes);
    SplitJoin(UploadedUrls(notes), ',');
  }

  lemma {:induction false} UploadedUrlsNoComma(notes: seq<VoiceNote>)
    requires forall i :: 0 <= i < |notes| ==> ',' !in notes[i].firebaseUrl
    ensures forall i :: 0 <= i < |UploadedUrls(notes)| ==> ',' !in UploadedUrls(notes)[i]
  {
    if notes != [] {
      assert forall i :: 0 <= i < |notes[1..]| ==> notes[1..][i] == notes[i + 1];
      UploadedUrlsNoComma(notes[1..]);
    }
  }
}

/** The Instagram posts screen's pure parts: the "Xh Ym Zs" rendering of the
    average reel watch time, the display type given to each media item, and
    which insight metrics are requested for it. The Graph API calls are left
    out; a post's metrics start as the map built here. */
module InstagramPostsFragment {
  import opened Wrappers
  import opened Text
  import opened Dates

  // ---------------------------------------------------------- watch time

  /** The value stored under "ig_reels_avg_watch_time": an Int, a String, or
      anything else the JSON held. */
  datatype WatchTime = IntValue(i: int) | StringValue(s: string) | OtherValue

  /** The seconds formatWatchTime works on: a non-numeric string and any
      other value count as 0. */
  function TotalSeconds(v: WatchTime): (t: int)
    ensures v.IntValue? ==> t == v.i
    ensures v.StringValue? ==> t == ToIntOrNull(v.s).GetOr(0)
    ensures v.OtherValue? ==> t == 0
  {
    match v
    case IntValue(i) => i
    case StringValue(s) => ToIntOrNull(s).GetOr(0)
    case OtherValue => 0
  }

  /** Hours, minutes and seconds with Kotlin's truncating `/` and `%`. */
  function Units(total: int): (u: (int, int, int))
    ensures 3600 * u.0 + 60 * u.1 + u.2 == total
    ensures total >= 0 ==> u.0 >= 0 && 0 <= u.1 < 60 && 0 <= u.2 < 60
    ensures total < 0 ==> u.0 <= 0 && -60 < u.1 <= 0 && -60 < u.2 <= 0
  {
    var h := TruncDiv(total, 3600);
    var m := TruncDiv(TruncMod(total, 3600), 60);
    var s := TruncMod(total, 60);
    SecondsOfRemainder(total);
    (h, m, s)
  }

  /** The seconds of what is left after the hours are the seconds of the
      total: an hour is a whole number of minutes. */
  lemma SecondsOfRemainder(t: int)
    ensures TruncMod(TruncMod(t, 3600), 60) == TruncMod(t, 60)
  {
    var a := if t >= 0 then t else -t;
    var r := a % 3600;
    assert a == 60 * (60 * (a / 3600)) + r;
    MinutesVanish(60 * (a / 3600), r);
    TruncModIs(t, 3600);
    TruncModIs(t, 60);
    TruncModIs(TruncMod(t, 3600), 60);
  }

  lemma MinutesVanish(k: int, r: int)
    requires k >= 0 && r >= 0
    ensures (60 * k + r) % 60 == r % 60
  {
  }

  /** Truncating remainder in terms of the Euclidean one. */
  lemma TruncModIs(x: int, b: int)
    requires b > 0
    ensures TruncMod(x, b) == if x >= 0 then x % b else -((-x) % b)
  {
  }

  /** A shown unit: its value followed by its letter. */
  function Unit(n: int, letter: char): string {
    IntToString(n) + [letter]
  }

  function Shown(show: bool, n: int, letter: char): Option<string> {
    if show then Some(Unit(n, letter)) else None
  }

  /** The StringBuilder's content before the final trim: each shown unit
      followed by a space, except the seconds. */
  function Assemble(hs: Option<string>, ms: Option<string>, ss: Option<string>): string {
    (if hs.Some? then hs.value + " " else "")
    + (if ms.Some? then ms.value + " " else "")
    + (if ss.Some? then ss.value else "")
  }

  function ShownList(hs: Option<string>, ms: Option<string>, ss: Option<string>): seq<string> {
    (if hs.Some? then [hs.value] else [])
    + (if ms.Some? then [ms.value] else [])
    + (if ss.Some? then [ss.value] else [])
  }

  /** Which units formatWatchTime prints: each positive one, and the seconds
      also when nothing else is printed. */
  function ShowSeconds(h: int, m: int, s: int): bool {
    s > 0 || (h <= 0 && m <= 0)
  }

  /** formatWatchTime. */
  function FormatWatchTime(v: WatchTime): string {
    var (h, m, s) := Units(TotalSeconds(v));
    Trim(Assemble(Shown(h > 0, h, 'h'), Shown(m > 0, m, 'm'), Shown(ShowSeconds(h, m, s), s, 's')))
  }

  /** The units that are shown, in order. */
  function Parts(total: int): (r: seq<string>)
    ensures 1 <= |r| <= 3
  {
    var (h, m, s) := Units(total);
    (if h > 0 then [Unit(h, 'h')] else [])
    + (if m > 0 then [Unit(m, 'm')] else [])
    + (if ShowSeconds(h, m, s) then [Unit(s, 's')] else [])
  }

  lemma TrimStartKeeps(x: string)
    requires x != [] && !IsWhitespace(x[0])
    ensures TrimStart(x) == x
  {
  }

  lemma TrimEndKeeps(x: string)
    requires x != [] && !IsWhitespace(x[|x| - 1])
    ensures TrimEnd(x) == x
  {
  }

  lemma TrimEndSpace(x: string)
    ensures TrimEnd(x + " ") == TrimEnd(x)
  {
    assert (x + " ")[..|x|] == x;
  }

  /** A rendered unit starts with a digit or a minus sign and ends with its letter. */
  lemma UnitEnds(n: int, letter: char)
    ensures var u := Unit(n, letter); |u| >= 2 && !IsWhitespace(u[0]) && u[|u| - 1] == letter
  {
    if n >= 0 {
      assert !IsWhitespace(NatToString(n)[0]);
    }
  }

  /** A text made of non-blank-edged words. */
  predicate Word(w: string) {
    w != [] && !IsWhitespace(w[0]) && !IsWhitespace(w[|w| - 1])
  }

  /** The builder holds the shown words joined by single spaces, followed by
      one space when the last word is not the seconds. */
  lemma {:induction false} AssembleJoins(hs: Option<string>, ms: Option<string>, ss: Option<string>)
    requires hs.Some? || ms.Some? || ss.Some?
    ensures ss.Some? ==> Assemble(hs, ms, ss) == Join(ShownList(hs, ms, ss), " ")
    ensures ss.None? ==> Assemble(hs, ms, ss) == Join(ShownList(hs, ms, ss), " ") + " "
  {
    var l := ShownList(hs, ms, ss);
    if hs.Some? && ms.Some? && ss.Some? {
      assert l == [hs.value, ms.value, ss.value];
      assert l[1..] == [ms.value, ss.value];
      assert l[1..][1..] == [ss.value];
      assert Join(l[1..], " ") == ms.value + " " + ss.value;
    } else if hs.Some? && ms.Some? {
      assert l == [hs.value, ms.value];
      assert l[1..] == [ms.value];
    } else if hs.Some? && ss.Some? {
      assert l == [hs.value, ss.value];
      assert l[1..] == [ss.value];
    } else if ms.Some? && ss.Some? {
      assert l == [ms.value, ss.value];
      assert l[1..] == [ss.value];
    } else if hs.Some? {
      assert l == [hs.value];
    } else if ms.Some? {
      assert l == [ms.value];
    } else {
      assert l == [ss.value];
    }
  }

  /** Words joined by spaces start and end with a word's edge. */
  lemma {:induction false} JoinWords(ws: seq<string>)
    requires |ws| >= 1
    requires forall i :: 0 <= i < |ws| ==> Word(ws[i])
    ensures Word(Join(ws, " "))
  {
    if |ws| > 1 {
      JoinWords(ws[1..]);
      var j := Join(ws, " ");
      var t := Join(ws[1..], " ");
      assert j == ws[0] + " " + t;
      assert j[0] == ws[0][0];
      assert j[|j| - 1] == t[|t| - 1];
    }
  }

  lemma TrimWords(j: string, spaced: bool)
    requires Word(j)
    ensures Trim(if spaced then j + " " else j) == j
  {
    if spaced {
      TrimStartKeeps(j + " ");
      assert (j + " ")[0] == j[0];
      TrimEndSpace(j);
    } else {
      TrimStartKeeps(j);
    }
    TrimEndKeeps(j);
  }

  /** Shown words assembled by the builder and trimmed are the words joined
      by single spaces. */
  lemma TrimmedWords(hs: Option<string>, ms: Option<string>, ss: Option<string>)
    requires hs.Some? || ms.Some? || ss.Some?
    requires hs.Some? ==> Word(hs.value)
    requires ms.Some? ==> Word(ms.value)
    requires ss.Some? ==> Word(ss.value)
    ensures Trim(Assemble(hs, ms, ss)) == Join(ShownList(hs, ms, ss), " ")
  {
    var l := ShownList(hs, ms, ss);
    assert forall i :: 0 <= i < |l| ==> Word(l[i]);
    JoinWords(l);
    AssembleJoins(hs, ms, ss);
    TrimWords(Join(l, " "), ss.None?);
  }

  /** The text built from the units and trimmed is the shown units joined by
      single spaces. */
  lemma {:induction false} TrimmedAssemble(h: int, m: int, s: int)
    ensures var hs, ms, ss := Shown(h > 0, h, 'h'), Shown(m > 0, m, 'm'), Shown(ShowSeconds(h, m, s), s, 's');
      Trim(Assemble(hs, ms, ss)) == Join(ShownList(hs, ms, ss), " ")
  {
    UnitEnds(h, 'h');
    UnitEnds(m, 'm');
    UnitEnds(s, 's');
    TrimmedWords(Shown(h > 0, h, 'h'), Shown(m > 0, m, 'm'), Shown(ShowSeconds(h, m, s), s, 's'));
  }

  /** The trimmed text is the shown units separated by single spaces. */
  lemma {:induction false} WatchTimeIsParts(v: WatchTime)
    ensures FormatWatchTime(v) == Join(Parts(TotalSeconds(v)), " ")
  {
    var u := Units(TotalSeconds(v));
    TrimmedAssemble(u.0, u.1, u.2);
  }

  /** Zero, and any value that is not a number, reads "0s". */
  lemma ZeroWatchTime(v: WatchTime)
    requires TotalSeconds(v) == 0
    ensures FormatWatchTime(v) == "0s"
  {
    WatchTimeIsParts(v);
    PartsOfZero(TotalSeconds(v));
    assert Join(["0s"], " ") == "0s";
  }

  lemma PartsOfZero(t: int)
    requires t == 0
    ensures Parts(t) == ["0s"]
  {
    var u := Units(t);
    UnitsAtZero(t);
    PartsAllZero(t);
    ZeroSecondsUnit(u.2);
  }

  lemma PartsAllZero(t: int)
    requires Units(t) == (0, 0, 0)
    ensures Parts(t) == [Unit(Units(t).2, 's')]
  {
  }

  lemma UnitsAtZero(t: int)
    requires t == 0
    ensures Units(t) == (0, 0, 0)
  {
    var u := Units(t);
    assert u.0 == 0 && u.1 == 0 && u.2 == 0;
  }

  lemma ZeroSecondsUnit(n: int)
    requires n == 0
    ensures Unit(n, 's') == "0s"
  {
    assert NatToString(n) == [DigitChar(n)];
  }

  /** 3725 seconds read "1h 2m 5s". */
  lemma WatchTimeAllUnits()
    ensures FormatWatchTime(IntValue(3725)) == "1h 2m 5s"
  {
    WatchTimeIsParts(IntValue(3725));
    assert Units(3725) == (1, 2, 5);
    assert Unit(1, 'h') == "1h" && Unit(2, 'm') == "2m" && Unit(5, 's') == "5s";
    assert Parts(3725) == ["1h", "2m", "5s"];
    assert ["1h", "2m", "5s"][1..] == ["2m", "5s"];
    assert ["2m", "5s"][1..] == ["5s"];
    assert Join(["2m", "5s"], " ") == "2m 5s";
  }

  /** 3600 seconds read "1h": units that are zero are not shown. */
  lemma WatchTimeWholeHour()
    ensures FormatWatchTime(IntValue(3600)) == "1h"
  {
    WatchTimeIsParts(IntValue(3600));
    assert Units(3600) == (1, 0, 0);
    assert Unit(1, 'h') == "1h";
    assert Parts(3600) == ["1h"];
  }

  // ---------------------------------------------------------- media types

  datatype DisplayType = REELS | STORY | ALBUM | VIDEO | FEED

  /** The display type: the product type decides first, then the media type. */
  function DisplayMediaType(mediaType: string, mediaProductType: string): (d: DisplayType)
    ensures d == REELS <==> mediaProductType == "REELS"
    ensures d == STORY <==> mediaProductType == "STORY"
    ensures d == ALBUM <==> mediaProductType != "REELS" && mediaProductType != "STORY" && mediaType == "CAROUSEL_ALBUM"
    ensures d == VIDEO <==> mediaProductType != "REELS" && mediaProductType != "STORY" && mediaType == "VIDEO"
  {
    if mediaProductType == "REELS" then REELS
    else if mediaProductType == "STORY" then STORY
    else if mediaType == "CAROUSEL_ALBUM" then ALBUM
    else if mediaType == "VIDEO" then VIDEO
    else FEED
  }

  /** The media type fetchInsightsForPost is called with. */
  function InsightsType(d: DisplayType): string
    requires d != ALBUM
  {
    match d
    case REELS => "REELS"
    case STORY => "STORY"
    case _ => "FEED"
  }

  const BaseMetrics := "comments,likes,reach,saved,shares,total_interactions,views"

  /** The metric list of the insights request for a media type. */
  function Metrics(mediaType: string): (r: string)
    ensures mediaType == "STORY" ==> r == "impressions,reach,replies"
    ensures mediaType == "REELS" ==> r == BaseMetrics + ",ig_reels_avg_watch_time"
    ensures mediaType != "STORY" && mediaType != "REELS" ==> r == BaseMetrics
  {
    match mediaType
    case "REELS" => BaseMetrics + ",ig_reels_avg_watch_time"
    case "STORY" => "impressions,reach,replies"
    case _ => BaseMetrics
  }

  const AlbumNote := "Instagram does not provide insights for albums"

  /** What the listing does for one post: an album gets the note and no
      insights request; every other post one request, with its metrics. */
  datatype PostStart = PostStart(metrics: map<string, string>, request: Option<string>)

  function StartPost(d: DisplayType): (p: PostStart)
    ensures d == ALBUM <==> p.request.None?
    ensures d == ALBUM ==> p.metrics == map["note" := AlbumNote]
    ensures d != ALBUM ==> p.metrics == map[] && p.request == Some(Metrics(InsightsType(d)))
  {
    if d == ALBUM then PostStart(map["note" := AlbumNote], None)
    else PostStart(map[], Some(Metrics(InsightsType(d))))
  }

  /** The breakdown fetched after a successful insights request: profile
      activity for feed posts, story navigation for stories, none for reels. */
  datatype Breakdown = ProfileActivity | StoryNavigation | NoBreakdown

  function BreakdownFor(mediaType: string): Breakdown {
    if mediaType == "FEED" then ProfileActivity
    else if mediaType == "STORY" then StoryNavigation
    else NoBreakdown
  }

  /** The metrics requested depend only on the display type: videos and feed
      posts ask for the same list, reels add the watch time, stories ask for
      impressions, reach and replies, and only feed posts and stories get a
      breakdown. */
  lemma RequestByType(mediaType: string, mediaProductType: string)
    ensures var d := DisplayMediaType(mediaType, mediaProductType);
      match d
      case REELS => StartPost(d).request == Some(BaseMetrics + ",ig_reels_avg_watch_time")
                    && BreakdownFor(InsightsType(d)) == NoBreakdown
      case STORY => StartPost(d).request == Some("impressions,reach,replies")
                    && BreakdownFor(InsightsType(d)) == StoryNavigation
      case ALBUM => StartPost(d).request == None && "note" in StartPost(d).metrics
      case _ => StartPost(d).request == Some(BaseMetrics)
                && BreakdownFor(InsightsType(d)) == ProfileActivity
  {
  }
}

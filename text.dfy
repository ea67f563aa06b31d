/** String helpers with the semantics of the Kotlin/Java library calls the app
    uses: split, joinToString, trim, startsWith, contains, replace, decimal
    rendering (toString, "%d", "%02d") and parsing (toIntOrNull, toLong).
    Only ASCII letters are case-folded and only ASCII digits are digits. */
module Text {
  import opened Wrappers

  // ---------------------------------------------------------------- characters

  predicate IsDigit(c: char) { '0' <= c <= '9' }

  function DigitValue(c: char): (v: nat)
    requires IsDigit(c)
    ensures v < 10
  {
    (c as int) - ('0' as int)
  }

  function DigitChar(d: nat): (c: char)
    requires d < 10
    ensures IsDigit(c) && DigitValue(c) == d
  {
    (('0' as int) + d) as char
  }

  /** Kotlin's Char.isWhitespace: Java whitespace plus the Unicode space separators. */
  predicate IsWhitespace(c: char) {
    c == ' ' || c == '\t' || c == '\n' || c == '\U{000B}' || c == '\U{000C}' || c == '\r'
    || ('\U{001C}' <= c <= '\U{001F}') || c == '\U{00A0}' || c == '\U{1680}'
    || ('\U{2000}' <= c <= '\U{200A}') || c == '\U{2028}' || c == '\U{2029}'
    || c == '\U{202F}' || c == '\U{205F}' || c == '\U{3000}'
  }

  /** The character class `\s` of java.util.regex (without UNICODE_CHARACTER_CLASS). */
  predicate IsRegexSpace(c: char) {
    c == ' ' || c == '\t' || c == '\n' || c == '\U{000B}' || c == '\U{000C}' || c == '\r'
  }

  function ToLowerChar(c: char): char {
    if 'A' <= c <= 'Z' then ((c as int) + 32) as char else c
  }

  function ToLower(s: string): (r: string)
    ensures |r| == |s|
    ensures forall i :: 0 <= i < |s| ==> r[i] == ToLowerChar(s[i])
  {
    if s == [] then [] else [ToLowerChar(s[0])] + ToLower(s[1..])
  }

  // ------------------------------------------------------------- filters

  /** `s.replace(Regex("[^0-9]"), "")`. */
  function DigitsOnly(s: string): (r: string)
    ensures forall i :: 0 <= i < |r| ==> IsDigit(r[i])
    ensures |r| <= |s|
  {
    if s == [] then []
    else if IsDigit(s[0]) then [s[0]] + DigitsOnly(s[1..])
    else DigitsOnly(s[1..])
  }

  /** A string of digits is left as it is. */
  lemma {:induction false} DigitsOnlyOfDigits(s: string)
    requires forall i :: 0 <= i < |s| ==> IsDigit(s[i])
    ensures DigitsOnly(s) == s
  {
    if s != [] {
      DigitsOnlyOfDigits(s[1..]);
    }
  }

  lemma {:induction false} DigitsOnlyConcat(a: string, b: string)
    ensures DigitsOnly(a + b) == DigitsOnly(a) + DigitsOnly(b)
  {
    if a != [] {
      assert (a + b)[1..] == a[1..] + b;
      DigitsOnlyConcat(a[1..], b);
    } else {
      assert a + b == b;
    }
  }

  /** `s.replace(Regex("[^0-9+]"), "")`. */
  function DigitsAndPlus(s: string): (r: string)
    ensures forall i :: 0 <= i < |r| ==> IsDigit(r[i]) || r[i] == '+'
  {
    if s == [] then []
    else if IsDigit(s[0]) || s[0] == '+' then [s[0]] + DigitsAndPlus(s[1..])
    else DigitsAndPlus(s[1..])
  }

  /** Digits and '+' alone are left as they are. */
  lemma {:induction false} DigitsAndPlusKeeps(s: string)
    requires forall i :: 0 <= i < |s| ==> IsDigit(s[i]) || s[i] == '+'
    ensures DigitsAndPlus(s) == s
  {
    if s != [] {
      DigitsAndPlusKeeps(s[1..]);
    }
  }

  // ------------------------------------------------------------- comparisons

  predicate StartsWith(s: string, p: string) {
    |p| <= |s| && s[..|p|] == p
  }

  /** `s.contains(t)`. */
  predicate Contains(s: string, t: string)
    decreases |s|
  {
    StartsWith(s, t) || (|s| > 0 && Contains(s[1..], t))
  }

  /** `s.contains(t, ignoreCase = true)` for ASCII letters. */
  predicate ContainsIgnoreCase(s: string, t: string) {
    Contains(ToLower(s), ToLower(t))
  }

  lemma {:induction false} EmptyContained(s: string)
    ensures Contains(s, "")
  {
    assert StartsWith(s, "");
  }

  /** Kotlin String.compareTo: lexicographic on chars, a proper prefix first. */
  predicate StrLe(a: string, b: string)
    decreases |a|
  {
    if a == [] then true
    else if b == [] then false
    else if a[0] != b[0] then a[0] < b[0]
    else StrLe(a[1..], b[1..])
  }

  lemma {:induction false} StrLeTotal(a: string, b: string)
    ensures StrLe(a, b) || StrLe(b, a)
    decreases |a|
  {
    if a != [] && b != [] && a[0] == b[0] {
      StrLeTotal(a[1..], b[1..]);
    }
  }

  lemma {:induction false} StrLeTransitive(a: string, b: string, c: string)
    requires StrLe(a, b) && StrLe(b, c)
    ensures StrLe(a, c)
    decreases |a|
  {
    if a != [] && b != [] && c != [] && a[0] == b[0] && b[0] == c[0] {
      StrLeTransitive(a[1..], b[1..], c[1..]);
    }
  }

  // ------------------------------------------------------------- trimming

  function TrimStart(s: string): (r: string)
    ensures |r| <= |s|
    ensures r == [] || !IsWhitespace(r[0])
  {
    if s != [] && IsWhitespace(s[0]) then TrimStart(s[1..]) else s
  }

  function TrimEnd(s: string): (r: string)
    ensures |r| <= |s|
    ensures r == [] || (r[0] == s[0] && !IsWhitespace(r[|r| - 1]))
  {
    if s != [] && IsWhitespace(s[|s| - 1]) then TrimEnd(s[..|s| - 1]) else s
  }

  /** `s.trim()`. */
  function Trim(s: string): (r: string)
    ensures |r| <= |s|
    ensures r == [] || (!IsWhitespace(r[0]) && !IsWhitespace(r[|r| - 1]))
  {
    TrimEnd(TrimStart(s))
  }

  /** TrimStart drops only leading whitespace: the result is a suffix of `s`
      and everything before it is whitespace. */
  lemma {:induction false} TrimStartSuffix(s: string)
    ensures var r := TrimStart(s);
      r == s[|s| - |r|..] && forall j :: 0 <= j < |s| - |r| ==> IsWhitespace(s[j])
    decreases |s|
  {
    if s != [] && IsWhitespace(s[0]) {
      TrimStartSuffix(s[1..]);
    }
  }

  /** TrimEnd drops only trailing whitespace: the result is a prefix of `s`
      and everything after it is whitespace. */
  lemma {:induction false} TrimEndPrefix(s: string)
    ensures var r := TrimEnd(s);
      r == s[..|r|] && forall j :: |r| <= j < |s| ==> IsWhitespace(s[j])
    decreases |s|
  {
    if s != [] && IsWhitespace(s[|s| - 1]) {
      TrimEndPrefix(s[..|s| - 1]);
    }
  }

  /** Trim keeps the middle of `s`: the result is the slice between leading
      and trailing whitespace (both ends of the result being non-whitespace). */
  lemma TrimIsMiddle(s: string) returns (i: nat)
    ensures i + |Trim(s)| <= |s| && Trim(s) == s[i..i + |Trim(s)|]
    ensures forall j :: 0 <= j < i ==> IsWhitespace(s[j])
    ensures forall j :: i + |Trim(s)| <= j < |s| ==> IsWhitespace(s[j])
  {
    var t := TrimStart(s);
    var r := TrimEnd(t);
    TrimStartSuffix(s);
    TrimEndPrefix(t);
    i := |s| - |t|;
    assert t == s[i..];
    assert r == s[i..i + |r|];
    forall j | i + |r| <= j < |s|
      ensures IsWhitespace(s[j])
    {
      assert s[j] == t[j - i];
    }
    assert Trim(s) == r;
  }

  /** Trimming leaves nothing exactly when the text is blank. */
  lemma TrimEmptyIffBlank(s: string)
    ensures Trim(s) == [] <==> IsBlank(s)
  {
    var i := TrimIsMiddle(s);
    if Trim(s) != [] {
      assert Trim(s)[0] == s[i];
    }
  }

  /** `s.isBlank()`: empty or whitespace only. */
  predicate IsBlank(s: string) {
    forall i :: 0 <= i < |s| ==> IsWhitespace(s[i])
  }

  // ------------------------------------------------------------- split / join

  /** `s.split(sep)` with a one-character delimiter and no limit: every
      delimiter separates two (possibly empty) fields. */
  function Split(s: string, sep: char): (r: seq<string>)
    ensures |r| >= 1
    decreases |s|
  {
    if s == [] then [""]
    else
      var rest := Split(s[1..], sep);
      if s[0] == sep then [""] + rest else [[s[0]] + rest[0]] + rest[1..]
  }

  /** `xs.joinToString(sep)`. */
  function Join(xs: seq<string>, sep: string): string {
    if xs == [] then ""
    else if |xs| == 1 then xs[0]
    else xs[0] + sep + Join(xs[1..], sep)
  }

  lemma {:induction false} SplitNoSep(x: string, sep: char)
    requires sep !in x
    ensures Split(x, sep) == [x]
    decreases |x|
  {
    if x != [] {
      assert sep !in x[1..] by {
        forall j | 0 <= j < |x[1..]| ensures x[1..][j] != sep {
          assert x[1..][j] == x[j + 1];
        }
      }
      SplitNoSep(x[1..], sep);
      assert x[0] != sep;
      assert [x[0]] + x[1..] == x;
    }
  }

  lemma {:induction false} SplitAfterField(x: string, sep: char, rest: string)
    requires sep !in x
    ensures Split(x + [sep] + rest, sep) == [x] + Split(rest, sep)
    decreases |x|
  {
    if x == [] {
      assert x + [sep] + rest == [sep] + rest;
      assert ([sep] + rest)[1..] == rest;
    } else {
      assert (x + [sep] + rest)[1..] == x[1..] + [sep] + rest;
      SplitAfterField(x[1..], sep, rest);
      assert [x[0]] + x[1..] == x;
    }
  }

  /** Splitting what joinToString produced gives the fields back, provided no
      field contains the delimiter. */
  lemma {:induction false} SplitJoin(xs: seq<string>, sep: char)
    requires |xs| >= 1
    requires forall i :: 0 <= i < |xs| ==> sep !in xs[i]
    ensures Split(Join(xs, [sep]), sep) == xs
    decreases |xs|
  {
    if |xs| == 1 {
      SplitNoSep(xs[0], sep);
    } else {
      SplitJoin(xs[1..], sep);
      SplitAfterField(xs[0], sep, Join(xs[1..], [sep]));
      assert [xs[0]] + xs[1..] == xs;
    }
  }

  /** No field of a split contains the delimiter. */
  lemma {:induction false} SplitFieldsHaveNoSep(s: string, sep: char)
    ensures forall i :: 0 <= i < |Split(s, sep)| ==> sep !in Split(s, sep)[i]
    decreases |s|
  {
    if s != [] {
      SplitFieldsHaveNoSep(s[1..], sep);
    }
  }

  /** Index of the first `c` in `s`, or |s| when there is none. */
  function IndexOf(s: string, c: char): (i: nat)
    ensures i <= |s|
    ensures i < |s| ==> s[i] == c
    ensures forall j :: 0 <= j < i ==> s[j] != c
  {
    if s == [] then 0 else if s[0] == c then 0 else 1 + IndexOf(s[1..], c)
  }

  /** Index of the last `c` in `s`, or -1 (Kotlin lastIndexOf). */
  function LastIndexOf(s: string, c: char): (i: int)
    ensures -1 <= i < |s|
    ensures 0 <= i ==> s[i] == c
    ensures forall j :: i < j < |s| ==> s[j] != c
  {
    if s == [] then -1
    else if s[|s| - 1] == c then |s| - 1
    else LastIndexOf(s[..|s| - 1], c)
  }

  /** `s.substringAfterLast(c)`: the text after the last `c`, or all of `s`
      when there is none. */
  function SubstringAfterLast(s: string, c: char): (r: string)
    ensures c !in r
    ensures c !in s ==> r == s
  {
    var i := LastIndexOf(s, c);
    if i == -1 then s else s[i + 1..]
  }

  /** `s.split(sep, limit = n)`: at most n fields; the last one keeps the rest. */
  function SplitLimit(s: string, sep: char, n: nat): (r: seq<string>)
    requires n >= 1
    ensures 1 <= |r| <= n
    decreases n
  {
    var i := IndexOf(s, sep);
    if n == 1 || i == |s| then [s]
    else [s[..i]] + SplitLimit(s[i + 1..], sep, n - 1)
  }

  /** `s.replace(pat, rep)` for a non-empty `pat`: every non-overlapping
      occurrence, scanned left to right. */
  function ReplaceAll(s: string, pat: string, rep: string): string
    requires |pat| > 0
    decreases |s|
  {
    if |s| < |pat| then s
    else if s[..|pat|] == pat then rep + ReplaceAll(s[|pat|..], pat, rep)
    else [s[0]] + ReplaceAll(s[1..], pat, rep)
  }

  // ------------------------------------------------------------- numbers

  /** Decimal digits of a natural number, no leading zeros. */
  function NatToString(n: nat): (r: string)
    ensures |r| >= 1
    ensures forall i :: 0 <= i < |r| ==> IsDigit(r[i])
    decreases n
  {
    if n < 10 then [DigitChar(n)] else NatToString(n / 10) + [DigitChar(n % 10)]
  }

  /** `n.toString()` and `"%d".format(n)`. */
  function IntToString(n: int): string {
    if n >= 0 then NatToString(n) else "-" + NatToString(-n)
  }

  /** `"%02d".format(n)`: zero-padded to two characters; the sign counts. */
  function Pad2(n: int): (r: string)
    ensures 0 <= n < 100 ==>
      |r| == 2 && IsDigit(r[0]) && IsDigit(r[1]) && DigitValue(r[0]) == n / 10 && DigitValue(r[1]) == n % 10
  {
    if 0 <= n < 100 then [DigitChar(n / 10), DigitChar(n % 10)] else IntToString(n)
  }

  /** Value of a non-empty string of digits. */
  function DigitsValue(s: string): nat
    requires forall i :: 0 <= i < |s| ==> IsDigit(s[i])
  {
    if s == [] then 0 else 10 * DigitsValue(s[..|s| - 1]) + DigitValue(s[|s| - 1])
  }

  predicate AllDigits(s: string) {
    |s| > 0 && forall i :: 0 <= i < |s| ==> IsDigit(s[i])
  }

  /** Kotlin's decimal parse (toIntOrNull / toLong) before the range check:
      an optional sign followed by at least one digit. */
  function ParseInteger(s: string): (r: Option<int>)
    ensures r.Some? <==> (AllDigits(s) || (|s| >= 2 && (s[0] == '-' || s[0] == '+') && AllDigits(s[1..])))
  {
    if AllDigits(s) then Some(DigitsValue(s))
    else if |s| >= 2 && s[0] == '-' && AllDigits(s[1..]) then Some(0 - DigitsValue(s[1..]) as int)
    else if |s| >= 2 && s[0] == '+' && AllDigits(s[1..]) then Some(DigitsValue(s[1..]))
    else None
  }

  const INT_MIN := -0x8000_0000
  const INT_MAX := 0x7FFF_FFFF
  const LONG_MIN := -0x8000_0000_0000_0000
  const LONG_MAX := 0x7FFF_FFFF_FFFF_FFFF

  /** `s.toIntOrNull()`: null when malformed or outside the 32-bit range. */
  function ToIntOrNull(s: string): (r: Option<int>)
    ensures r.Some? ==> INT_MIN <= r.value <= INT_MAX && ParseInteger(s) == r
    ensures ParseInteger(s).Some? && INT_MIN <= ParseInteger(s).value <= INT_MAX ==> r.Some?
  {
    match ParseInteger(s)
    case Some(v) => if INT_MIN <= v <= INT_MAX then Some(v) else None
    case None => None
  }

  /** `s.toLong()`, with the NumberFormatException as None. */
  function ToLongOrNull(s: string): (r: Option<int>)
    ensures r.Some? ==> LONG_MIN <= r.value <= LONG_MAX && ParseInteger(s) == r
    ensures ParseInteger(s).Some? && LONG_MIN <= ParseInteger(s).value <= LONG_MAX ==> r.Some?
  {
    match ParseInteger(s)
    case Some(v) => if LONG_MIN <= v <= LONG_MAX then Some(v) else None
    case None => None
  }

  lemma {:induction false} DigitsValueOfNat(n: nat)
    ensures DigitsValue(NatToString(n)) == n
    decreases n
  {
    if n >= 10 {
      DigitsValueOfNat(n / 10);
      var s := NatToString(n);
      assert s[..|s| - 1] == NatToString(n / 10);
    }
  }

  /** Rendering an integer in decimal and parsing it back gives the integer. */
  lemma IntToStringRoundTrip(n: int)
    ensures ParseInteger(IntToString(n)) == Some(n)
  {
    if n >= 0 {
      DigitsValueOfNat(n);
    } else {
      var d := NatToString(-n);
      DigitsValueOfNat(-n);
      assert ("-" + d)[1..] == d;
    }
  }
}

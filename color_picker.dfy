/** The colour-wheel view: channel interpolation over a seven-stop palette and
    the touch state machine (tracking the centre dot, highlight, picking).
    Colours are 32-bit ARGB words read as unsigned numbers. The wheel angle
    (atan2) and the HSV brightness change are floating-point library work: the
    angle arrives as its `unit` in [0, 1] and the brightness change is a function
    supplied at construction. */
module ColorPicker {

  const CenterRadius := 32

  const RED: nat := 0xFFFF_0000
  const MAGENTA: nat := 0xFFFF_00FF
  const BLUE: nat := 0xFF00_00FF
  const CYAN: nat := 0xFF00_FFFF
  const GREEN: nat := 0xFF00_FF00
  const YELLOW: nat := 0xFFFF_FF00

  /** The wheel's palette, red back to red. */
  const COLORS: seq<nat> := [RED, MAGENTA, BLUE, CYAN, GREEN, YELLOW, RED]

  predicate IsArgb(c: int) { 0 <= c < 0x1_0000_0000 }

  predicate IsChannel(v: int) { 0 <= v < 256 }

  /** Color.alpha, red, green, blue: the bytes of the word, high to low. */
  function Alpha(c: nat): nat { c / 256 / 256 / 256 % 256 }
  function Red(c: nat): nat { c / 256 / 256 % 256 }
  function Green(c: nat): nat { c / 256 % 256 }
  function Blue(c: nat): nat { c % 256 }

  lemma ByteSplit(x: nat, y: nat)
    requires y < 256
    ensures (x * 256 + y) / 256 == x && (x * 256 + y) % 256 == y
  {
  }

  /** Color.argb: packs four channels into one word. */
  function Argb(a: int, r: int, g: int, b: int): (c: nat)
    requires IsChannel(a) && IsChannel(r) && IsChannel(g) && IsChannel(b)
    ensures IsArgb(c)
    ensures Alpha(c) == a && Red(c) == r && Green(c) == g && Blue(c) == b
  {
    ByteSplit((a * 256 + r) * 256 + g, b);
    ByteSplit(a * 256 + r, g);
    ByteSplit(a, r);
    ((a * 256 + r) * 256 + g) * 256 + b
  }

  /** Unpacking a word and packing its channels again gives the word back. */
  lemma ArgbOfChannels(c: nat)
    requires IsArgb(c)
    ensures Argb(Alpha(c), Red(c), Green(c), Blue(c)) == c
  {
    var q1 := c / 256;
    var q2 := q1 / 256;
    var q3 := q2 / 256;
    DivMod256(c);
    DivMod256(q1);
    DivMod256(q2);
    DivBelow(c, 0x100_0000);
    DivBelow(q1, 0x1_0000);
    DivBelow(q2, 256);
    assert Alpha(c) == q3 && Red(c) == q2 % 256 && Green(c) == q1 % 256 && Blue(c) == c % 256;
    calc {
      Argb(Alpha(c), Red(c), Green(c), Blue(c));
      ((q3 * 256 + q2 % 256) * 256 + q1 % 256) * 256 + c % 256;
      (q2 * 256 + q1 % 256) * 256 + c % 256;
      q1 * 256 + c % 256;
      c;
    }
  }

  lemma DivMod256(x: nat)
    ensures x == x / 256 * 256 + x % 256 && x % 256 < 256
  {
  }

  lemma DivBelow(x: nat, k: nat)
    requires x < k * 256
    ensures x / 256 < k
  {
    DivMod256(x);
  }

  /** Math.round on a float: the nearest integer, halves rounding up. */
  function Round(x: real): (n: int)
    ensures x - 1.0 / 2.0 < n as real <= x + 1.0 / 2.0
  {
    (x + 1.0 / 2.0).Floor
  }

  function Min(a: int, b: int): int { if a <= b then a else b }
  function Max(a: int, b: int): int { if a <= b then b else a }

  /** ave: the point a fraction p of the way from s to d, rounded. */
  function Ave(s: int, d: int, p: real): (r: int)
    ensures 0.0 <= p <= 1.0 ==> Min(s, d) <= r <= Max(s, d)
    ensures p == 0.0 ==> r == s
    ensures p == 1.0 ==> r == d
  {
    var x := p * (d - s) as real;
    assert 0.0 <= p <= 1.0 ==> Min(s, d) as real <= s as real + x <= Max(s, d) as real by {
      if 0.0 <= p <= 1.0 {
        ScaledBetween(p, s as real, d as real);
      }
    }
    s + Round(x)
  }

  /** The point a fraction p in [0, 1] of the way from a to b lies between them. */
  lemma ScaledBetween(p: real, a: real, b: real)
    requires 0.0 <= p <= 1.0
    ensures a <= b ==> a <= a + p * (b - a) <= b
    ensures b < a ==> b <= a + p * (b - a) <= a
  {
    var m := b - a;
    assert (1.0 - p) * m == m - p * m;
    if a <= b {
      assert p * m >= 0.0 && (1.0 - p) * m >= 0.0;
    } else {
      assert p * m <= 0.0 && (1.0 - p) * m <= 0.0;
    }
  }

  /** Every channel of c lies between the same channels of c0 and c1. */
  predicate ChannelsBetween(c: nat, c0: nat, c1: nat) {
    Min(Alpha(c0), Alpha(c1)) <= Alpha(c) <= Max(Alpha(c0), Alpha(c1))
    && Min(Red(c0), Red(c1)) <= Red(c) <= Max(Red(c0), Red(c1))
    && Min(Green(c0), Green(c1)) <= Green(c) <= Max(Green(c0), Green(c1))
    && Min(Blue(c0), Blue(c1)) <= Blue(c) <= Max(Blue(c0), Blue(c1))
  }

  /** The palette segment a unit in (0, 1) falls into: (int)(unit * (n - 1)). */
  function Segment(n: nat, unit: real): int {
    (unit * (n - 1) as real).Floor
  }

  predicate ValidPalette(colors: seq<nat>) {
    |colors| >= 2 && forall i :: 0 <= i < |colors| ==> IsArgb(colors[i])
  }

  /** interpColor: the colour at position `unit` along the palette. */
  function InterpColor(colors: seq<nat>, unit: real): (r: nat)
    requires ValidPalette(colors)
    ensures IsArgb(r)
    ensures unit <= 0.0 ==> r == colors[0]
    ensures unit >= 1.0 ==> r == colors[|colors| - 1]
    ensures 0.0 < unit < 1.0 ==>
      0 <= Segment(|colors|, unit) < |colors| - 1
      && ChannelsBetween(r, colors[Segment(|colors|, unit)], colors[Segment(|colors|, unit) + 1])
  {
    if unit <= 0.0 then colors[0]
    else if unit >= 1.0 then colors[|colors| - 1]
    else
      var p := unit * (|colors| - 1) as real;
      var i := p.Floor;
      assert 0 <= i < |colors| - 1;
      var f := p - i as real;
      var c0 := colors[i];
      var c1 := colors[i + 1];
      Argb(Ave(Alpha(c0), Alpha(c1), f), Ave(Red(c0), Red(c1), f),
           Ave(Green(c0), Green(c1), f), Ave(Blue(c0), Blue(c1), f))
  }

  /** At a stop's own position the wheel shows exactly that stop. */
  lemma {:induction false} InterpColorAtStop(colors: seq<nat>, k: nat)
    requires ValidPalette(colors) && 0 < k < |colors| - 1
    ensures InterpColor(colors, k as real / (|colors| - 1) as real) == colors[k]
  {
    var n := (|colors| - 1) as real;
    var unit := k as real / n;
    QuotientInUnit(k as real, n);
    InterpColorExact(colors, unit, k);
    ArgbOfChannels(colors[k]);
  }

  /** When the position lands exactly on segment i's start, the blend weight is 0. */
  lemma InterpColorExact(colors: seq<nat>, unit: real, i: nat)
    requires ValidPalette(colors) && 0.0 < unit < 1.0 && i < |colors| - 1
    requires unit * (|colors| - 1) as real == i as real
    ensures InterpColor(colors, unit)
      == Argb(Alpha(colors[i]), Red(colors[i]), Green(colors[i]), Blue(colors[i]))
  {
    var c0 := colors[i];
    var c1 := colors[i + 1];
    assert (unit * (|colors| - 1) as real).Floor == i;
    assert Ave(Alpha(c0), Alpha(c1), 0.0) == Alpha(c0);
    assert Ave(Red(c0), Red(c1), 0.0) == Red(c0);
    assert Ave(Green(c0), Green(c1), 0.0) == Green(c0);
    assert Ave(Blue(c0), Blue(c1), 0.0) == Blue(c0);
  }

  lemma QuotientInUnit(a: real, b: real)
    requires 0.0 < a < b
    ensures 0.0 < a / b < 1.0 && (a / b) * b == a
  {
    var q := a / b;
    assert q * b == a;
    assert q <= 0.0 ==> q * b <= 0.0;
    assert q >= 1.0 ==> (q - 1.0) * b >= 0.0;
  }

  /** Touch actions; Other stands for every action the view ignores. */
  datatype Action = Down | Move | Up | Other

  /** The touch point, relative to the wheel's centre, is on the centre dot. */
  predicate InCenter(x: real, y: real) {
    x * x + y * y <= (CenterRadius * CenterRadius) as real
  }

  class ColorPickerView {
    var tracking: bool
    var highlight: bool
    /** The centre paint's colour, i.e. the selected colour. */
    var centerColor: nat
    var brightness: real
    var hasListener: bool
    /** The colours handed to the listener, oldest first. */
    var notified: seq<nat>
    /** How many times the view asked to be redrawn. */
    var redraws: nat
    const colors: seq<nat>
    /** colorToHSV, replace V by the brightness, HSVToColor. */
    const withBrightness: (nat, real) -> nat

    constructor (withBrightness: (nat, real) -> nat)
      ensures colors == COLORS && ValidPalette(colors)
      ensures centerColor == RED && brightness == 1.0
      ensures !tracking && !highlight && !hasListener
      ensures notified == [] && redraws == 0
      ensures this.withBrightness == withBrightness
    {
      colors := COLORS;
      this.withBrightness := withBrightness;
      centerColor := RED;
      brightness := 1.0;
      tracking := false;
      highlight := false;
      hasListener := false;
      notified := [];
      redraws := 0;
    }

    /** The colour a touch at wheel position `unit` picks. */
    function Picked(unit: real): nat
      reads this
      requires ValidPalette(colors)
    {
      withBrightness(InterpColor(colors, unit), brightness)
    }

    /** The move branch of onTouchEvent. */
    method MoveBranch(inCenter: bool, unit: real)
      requires ValidPalette(colors)
      modifies this
      ensures tracking == old(tracking) && brightness == old(brightness)
      ensures hasListener == old(hasListener)
      ensures old(tracking) ==>
        highlight == inCenter && centerColor == old(centerColor) && notified == old(notified)
        && redraws == old(redraws) + (if old(highlight) != inCenter then 1 else 0)
      ensures !old(tracking) ==>
        highlight == old(highlight) && centerColor == old(Picked(unit))
        && notified == old(notified) + (if hasListener then [centerColor] else [])
        && redraws == old(redraws) + 1
    {
      if tracking {
        if highlight != inCenter {
          highlight := inCenter;
          redraws := redraws + 1;
        }
      } else {
        var color := InterpColor(colors, unit);
        color := withBrightness(color, brightness);
        centerColor := color;
        if hasListener {
          notified := notified + [color];
        }
        redraws := redraws + 1;
      }
    }

    /** onTouchEvent; (x, y) is the touch point relative to the centre and `unit`
        the wheel position of its angle. Always reports the event handled. */
    method OnTouchEvent(action: Action, x: real, y: real, unit: real) returns (handled: bool)
      requires ValidPalette(colors)
      modifies this
      ensures handled
      ensures brightness == old(brightness) && hasListener == old(hasListener)
      // DOWN on the centre dot: start tracking it, highlighted; no colour change, no callback.
      ensures action == Down && InCenter(x, y) ==>
        tracking && highlight && centerColor == old(centerColor)
        && notified == old(notified) && redraws == old(redraws) + 1
      // DOWN elsewhere falls through to MOVE without tracking: a colour is picked.
      ensures action == Down && !InCenter(x, y) ==>
        !tracking && highlight == old(highlight) && centerColor == old(Picked(unit))
        && notified == old(notified) + (if hasListener then [centerColor] else [])
        && redraws == old(redraws) + 1
      // MOVE while tracking only follows the touch with the highlight.
      ensures action == Move && old(tracking) ==>
        tracking && highlight == InCenter(x, y) && centerColor == old(centerColor)
        && notified == old(notified)
        && redraws == old(redraws) + (if old(highlight) != InCenter(x, y) then 1 else 0)
      ensures action == Move && !old(tracking) ==>
        !tracking && highlight == old(highlight) && centerColor == old(Picked(unit))
        && notified == old(notified) + (if hasListener then [centerColor] else [])
        && redraws == old(redraws) + 1
      // UP while tracking confirms the colour iff released on the centre.
      ensures action == Up && old(tracking) ==>
        !tracking && highlight == old(highlight) && centerColor == old(centerColor)
        && notified == old(notified) + (if InCenter(x, y) && hasListener then [centerColor] else [])
        && redraws == old(redraws) + 1
      // UP without tracking, and any other action, change nothing.
      ensures (action == Up && !old(tracking)) || action == Other ==>
        tracking == old(tracking) && highlight == old(highlight) && centerColor == old(centerColor)
        && notified == old(notified) && redraws == old(redraws)
    {
      var inCenter := InCenter(x, y);
      match action {
        case Down =>
          tracking := inCenter;
          if inCenter {
            highlight := true;
            redraws := redraws + 1;
          } else {
            MoveBranch(inCenter, unit);
          }
        case Move =>
          MoveBranch(inCenter, unit);
        case Up =>
          if tracking {
            if inCenter && hasListener {
              notified := notified + [centerColor];
            }
            tracking := false;
            redraws := redraws + 1;
          }
        case Other =>
      }
      return true;
    }

    /** setOnColorChangedListener, with `present` false for null. */
    method SetOnColorChangedListener(present: bool)
      modifies this
      ensures hasListener == present
      ensures tracking == old(tracking) && highlight == old(highlight)
      ensures centerColor == old(centerColor) && brightness == old(brightness)
      ensures notified == old(notified) && redraws == old(redraws)
    {
      hasListener := present;
    }

    /** getColor. */
    function GetColor(): nat
      reads this
    {
      centerColor
    }

    /** setColor: selects the colour without telling the listener. */
    method SetColor(color: nat)
      modifies this
      ensures GetColor() == color
      ensures notified == old(notified) && redraws == old(redraws) + 1
      ensures tracking == old(tracking) && highlight == old(highlight)
      ensures brightness == old(brightness) && hasListener == old(hasListener)
    {
      centerColor := color;
      redraws := redraws + 1;
    }

    /** setBrightness: stores it, applies it to the selected colour, redraws and
        reports the new colour when a listener is set. */
    method SetBrightness(b: real)
      modifies this
      ensures brightness == b
      ensures GetColor() == withBrightness(old(centerColor), b)
      ensures notified == old(notified) + (if hasListener then [GetColor()] else [])
      ensures redraws == old(redraws) + 1
      ensures tracking == old(tracking) && highlight == old(highlight)
      ensures hasListener == old(hasListener)
    {
      brightness := b;
      centerColor := withBrightness(centerColor, b);
      redraws := redraws + 1;
      if hasListener {
        notified := notified + [centerColor];
      }
    }
  }
}

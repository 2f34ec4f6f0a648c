/**
 The colours of the popsquares saver: the conversions between RGB and HSV, whose hue is a whole
 number of degrees, and the colour ramp.  Doubles are reals here.
 */
module Popsquares {
  import opened Basics

  datatype Rgb = Rgb(r: real, g: real, b: real)

  /** hue in degrees. */
  datatype Hsv = Hsv(h: int, s: real, v: real)

  function Clamp(x: real): real {
    if x < 0.0 then 0.0 else if x > 1.0 then 1.0 else x
  }

  /** The C remainder of h by 360. */
  function Degrees(h: int): int {
    h - 360 * Quotient(h, 360)
  }

  function HsvToRgb(c: Hsv): Rgb {
    var s, v := Clamp(c.s), Clamp(c.v);
    var hue := Degrees(c.h) as real / 60.0;
    var i := Truncated(hue);
    Sextant(i, hue - i as real, s, v)
  }

  /** The value and the three smaller components by sextant. */
  function Arranged(i: int, v: real, p1: real, p2: real, p3: real): Rgb {
    if i == 0 then Rgb(v, p3, p1)
    else if i == 1 then Rgb(p2, v, p1)
    else if i == 2 then Rgb(p1, v, p3)
    else if i == 3 then Rgb(p1, p2, v)
    else if i == 4 then Rgb(p3, p1, v)
    else Rgb(v, p1, p2)
  }

  function Sextant(i: int, f: real, s: real, v: real): Rgb {
    Arranged(i, v, v * (1.0 - s), v * (1.0 - s * f), v * (1.0 - s * (1.0 - f)))
  }

  function Max(c: Rgb): real {
    var m := if c.r < c.g then c.g else c.r;
    if m < c.b then c.b else m
  }

  function Min(c: Rgb): real {
    var m := if c.r < c.g then c.r else c.g;
    if m > c.b then c.b else m
  }

  /** Which component is the maximum, ties going to the earlier one. */
  function Strongest(c: Rgb): int {
    if (if c.r < c.g then c.g else c.r) < c.b then 3 else if c.r < c.g then 2 else 1
  }

  /** The hue as a number of sextants. */
  function Hue(c: Rgb): real {
    var d := Max(c) - Min(c);
    if d == 0.0 then 0.0
    else
      var k := Strongest(c);
      var h := if k == 1 then (c.g - c.b) / d else if k == 2 then 2.0 + (c.b - c.r) / d else 4.0 + (c.r - c.g) / d;
      if h < 0.0 then h + 6.0 else h
  }

  function RgbToHsv(c: Rgb): Hsv
    requires InCube(c)
  {
    var d := Max(c) - Min(c);
    Hsv(Truncated(Hue(c) * 60.0), if d == 0.0 then 0.0 else d / Max(c), Max(c))
  }

  predicate InCube(c: Rgb) {
    0.0 <= c.r <= 1.0 && 0.0 <= c.g <= 1.0 && 0.0 <= c.b <= 1.0
  }

  // ---------- what the two conversions mean ----------

  /** Clamping takes the nearest value in range. */
  lemma ClampNearest(x: real, y: real)
    requires 0.0 <= y <= 1.0
    ensures 0.0 <= Clamp(x) <= 1.0
    ensures (Clamp(x) - x) * (Clamp(x) - x) <= (y - x) * (y - x)
  {
    if x < 0.0 {
      Less(y, y - 2.0 * x);
    } else if x > 1.0 {
      Less(1.0 - y, 2.0 * x - 1.0 - y);
    } else {
      Square(y - x);
    }
  }

  lemma Square(a: real)
    ensures a * a >= 0.0
  {
  }

  lemma FullAt(h: int, i: int)
    requires 0 <= i <= 5 && h == 60 * i
    ensures HsvToRgb(Hsv(h, 1.0, 1.0)) == Arranged(i, 1.0, 0.0, 1.0, 0.0)
  {
    assert Degrees(h) == h;
    assert h as real / 60.0 == i as real;
    assert Truncated(h as real / 60.0) == i;
  }

  /** The six full colours round the circle. */
  lemma FullColours()
    ensures HsvToRgb(Hsv(0, 1.0, 1.0)) == Rgb(1.0, 0.0, 0.0) && HsvToRgb(Hsv(60, 1.0, 1.0)) == Rgb(1.0, 1.0, 0.0)
    ensures HsvToRgb(Hsv(120, 1.0, 1.0)) == Rgb(0.0, 1.0, 0.0) && HsvToRgb(Hsv(180, 1.0, 1.0)) == Rgb(0.0, 1.0, 1.0)
    ensures HsvToRgb(Hsv(240, 1.0, 1.0)) == Rgb(0.0, 0.0, 1.0) && HsvToRgb(Hsv(300, 1.0, 1.0)) == Rgb(1.0, 0.0, 1.0)
  {
    FullAt(0, 0);
    FullAt(60, 1);
    FullAt(120, 2);
    FullAt(180, 3);
    FullAt(240, 4);
    FullAt(300, 5);
  }

  /** The largest component is the value, and the smallest what the saturation leaves of it. */
  lemma Extremes(c: Hsv)
    requires Degrees(c.h) >= 0
    ensures Max(HsvToRgb(c)) == Clamp(c.v) && Min(HsvToRgb(c)) == Clamp(c.v) * (1.0 - Clamp(c.s))
  {
    var hue := Degrees(c.h) as real / 60.0;
    HueSextant(Degrees(c.h), hue);
    SextantExtremes(Truncated(hue), hue - Truncated(hue) as real, Clamp(c.s), Clamp(c.v));
  }

  /** Every component lies between the darkest and the brightest that saturation and value allow. */
  predicate Within(c: Rgb, low: real, high: real) {
    low <= c.r <= high && low <= c.g <= high && low <= c.b <= high
  }

  /** The remainder of a negative hue is negative.  The colour is still in range if and only if that is a
      multiple of 60. */
  lemma NegativeHue(c: Hsv)
    requires Degrees(c.h) < 0 && 0.0 < c.s <= 1.0 && 0.0 < c.v <= 1.0
    ensures Within(HsvToRgb(c), c.v * (1.0 - c.s), c.v) <==> Degrees(c.h) % 60 == 0
  {
    var h := Degrees(c.h);
    var hue := h as real / 60.0;
    var f := hue - Truncated(hue) as real;
    BelowZero(h, hue);
    BeyondShade(f, c.s, c.v);
    ArrangedBelow(Truncated(hue), c.v, c.v * (1.0 - c.s), c.v * (1.0 - c.s * f), c.v * (1.0 - c.s * (1.0 - f)));
  }

  lemma ArrangedBelow(i: int, v: real, p1: real, p2: real, p3: real)
    requires i <= 0 && p1 <= v
    ensures Within(Arranged(i, v, p1, p2, p3), p1, v) <==> if i == 0 then p1 <= p3 <= v else p1 <= p2 <= v
  {
  }

  lemma FloorOf(k: int, x: real)
    requires 60.0 * x == k as real
    ensures x.Floor == k / 60 && 60.0 * (x - x.Floor as real) == (k % 60) as real
  {
    assert k as real == (60 * (k / 60)) as real + (k % 60) as real;
    assert (60 * (k / 60)) as real == 60.0 * (k / 60) as real;
  }

  lemma BelowZero(h: int, hue: real)
    requires h < 0 && hue == h as real / 60.0
    ensures Truncated(hue) <= 0 && hue - Truncated(hue) as real <= 0.0
    ensures hue - Truncated(hue) as real == 0.0 <==> h % 60 == 0
    ensures h % 60 == 0 ==> Truncated(hue) < 0
  {
    FloorOf(-h, -hue);
    assert Truncated(hue) == -(-hue).Floor;
  }

  lemma BeyondShade(f: real, s: real, v: real)
    requires f <= 0.0 && 0.0 < s && 0.0 < v
    ensures v * (1.0 - s * f) >= v && v * (1.0 - s * (1.0 - f)) <= v * (1.0 - s)
    ensures f < 0.0 ==> v * (1.0 - s * f) > v && v * (1.0 - s * (1.0 - f)) < v * (1.0 - s)
    ensures v * (1.0 - s) <= v
  {
    var g := s * -f;
    Less(s, -f);
    Less(v, g);
    Less(v, s);
    assert f < 0.0 ==> g > 0.0;
    assert f < 0.0 ==> v * g > 0.0;
    assert v * (1.0 - s * f) == v + v * g;
    assert v * (1.0 - s * (1.0 - f)) == v * (1.0 - s) - v * g;
  }

  lemma HueSextant(h: int, hue: real)
    requires 0 <= h < 360 && hue == h as real / 60.0
    ensures 0 <= Truncated(hue) <= 5 && 0.0 <= hue - Truncated(hue) as real < 1.0
  {
    assert 0.0 <= hue < 6.0;
  }

  lemma SextantExtremes(i: int, f: real, s: real, v: real)
    requires 0 <= i <= 5 && 0.0 <= f < 1.0 && 0.0 <= s <= 1.0 && 0.0 <= v <= 1.0
    ensures Max(Sextant(i, f, s, v)) == v && Min(Sextant(i, f, s, v)) == v * (1.0 - s)
  {
    ShadeBetween(f, s, v);
    ShadeBetween(1.0 - f, s, v);
    ArrangedExtremes(i, v, v * (1.0 - s), v * (1.0 - s * f), v * (1.0 - s * (1.0 - f)));
  }

  lemma ArrangedExtremes(i: int, v: real, p1: real, p2: real, p3: real)
    requires p1 <= p2 <= v && p1 <= p3 <= v
    ensures Max(Arranged(i, v, p1, p2, p3)) == v && Min(Arranged(i, v, p1, p2, p3)) == p1
  {
  }

  lemma ShadeBetween(f: real, s: real, v: real)
    requires 0.0 <= f <= 1.0 && 0.0 <= s <= 1.0 && 0.0 <= v <= 1.0
    ensures v * (1.0 - s) <= v * (1.0 - s * f) <= v
  {
    Less(s, 1.0 - f);
    Less(s, f);
    assert s * f + s * (1.0 - f) == s;
    Less(v, s * f);
    Less(v, s - s * f);
    assert v * (1.0 - s * f) == v - v * (s * f);
    assert v * (1.0 - s) == v * (1.0 - s * f) - v * (s - s * f);
  }

  lemma Less(a: real, b: real)
    requires a >= 0.0 && b >= 0.0
    ensures a * b >= 0.0
  {
  }

  // ---------- the round trip ----------

  lemma HueInRange(c: Rgb)
    requires InCube(c)
    ensures 0.0 <= Hue(c) < 6.0
  {
    var d := Max(c) - Min(c);
    if d > 0.0 {
      Ratio(c.g - c.b, d);
      Ratio(c.b - c.r, d);
      Ratio(c.r - c.g, d);
    }
  }

  lemma Ratio(a: real, d: real)
    requires d > 0.0 && -d <= a <= d
    ensures -1.0 <= a / d <= 1.0 && a / d * d == a
  {
  }

  /** Truncating the hue to whole degrees keeps its sextant and loses less than a sixtieth of one. */
  lemma WholeDegrees(hue: real)
    requires 0.0 <= hue < 6.0
    ensures var h := Truncated(hue * 60.0);
            && 0 <= h < 360 && Degrees(h) == h
            && Truncated(h as real / 60.0) == hue.Floor
            && 0.0 <= hue - h as real / 60.0 < 1.0 / 60.0
  {
    var h := (hue * 60.0).Floor;
    var i := hue.Floor;
    assert i as real * 60.0 <= hue * 60.0 < (i as real + 1.0) * 60.0;
    assert (60 * i) as real == 60.0 * i as real;
    assert 60 * i <= h;
    assert h < 60 * i + 60;
    assert (60 * i) as real <= h as real < (60 * i + 60) as real;
  }

  /** Restored(x, y, top, bottom): y stands for x after the round trip. */
  predicate Restored(x: real, y: real, top: real, bottom: real) {
    && (x == top ==> y == top) && (x == bottom ==> y == bottom)
    && 60.0 * (y - x) <= top - bottom && 60.0 * (x - y) <= top - bottom
  }

  /** v * (1 - s * f) with v the maximum and s the saturation is the maximum less f of the difference. */
  lemma Shade(top: real, d: real, f: real)
    requires top > 0.0
    ensures top * (1.0 - d / top * f) == top - d * f
  {
    assert d / top * top == d;
    assert top * (d / top * f) == d / top * top * f;
  }

  /** The components of a colour whose hue lies f into sextant i. */
  function Exact(i: int, f: real, top: real, d: real): Rgb {
    Arranged(i, top, top - d, top - d * f, top - d * (1.0 - f))
  }

  lemma SextantIs(i: int, f: real, top: real, d: real)
    requires top > 0.0
    ensures Sextant(i, f, d / top, top) == Exact(i, f, top, d)
  {
    Shade(top, d, 1.0);
    Shade(top, d, f);
    Shade(top, d, 1.0 - f);
  }

  lemma Solve(a: real, d: real, q: real)
    requires d > 0.0 && q == a / d
    ensures d * q == a
  {
  }

  lemma FloorIs(hue: real, i: int, f: real)
    requires hue == i as real + f && 0.0 <= f < 1.0
    ensures hue.Floor == i && hue - hue.Floor as real == f
  {
  }

  lemma DescribedAt(c: Rgb, hue: real, i: int, f: real, top: real, d: real)
    requires hue == i as real + f && 0.0 <= f < 1.0 && c == Exact(i, f, top, d)
    ensures c == Exact(hue.Floor, hue - hue.Floor as real, top, d)
  {
    FloorIs(hue, i, f);
  }

  lemma Described(c: Rgb) returns (i: int, f: real)
    requires InCube(c) && Max(c) > Min(c)
    ensures 0.0 <= f < 1.0 && Hue(c) == i as real + f && c == Exact(i, f, Max(c), Max(c) - Min(c))
  {
    var d := Max(c) - Min(c);
    if Strongest(c) == 1 {
      var q := (c.g - c.b) / d;
      Ratio(c.g - c.b, d);
      Solve(c.g - c.b, d, q);
      i, f := RedDescribes(c, d, q);
    } else if Strongest(c) == 2 {
      var q := (c.b - c.r) / d;
      Ratio(c.b - c.r, d);
      Solve(c.b - c.r, d, q);
      i, f := GreenDescribes(c, d, q);
    } else {
      var q := (c.r - c.g) / d;
      Ratio(c.r - c.g, d);
      Solve(c.r - c.g, d, q);
      i, f := BlueDescribes(c, d, q);
    }
  }

  /** A colour is what its exact hue says: rgb_to_hsv without the truncation is inverted. */
  lemma HueDescribes(c: Rgb)
    requires InCube(c) && Max(c) > Min(c)
    ensures c == Exact(Hue(c).Floor, Hue(c) - Hue(c).Floor as real, Max(c), Max(c) - Min(c))
  {
    var i, f := Described(c);
    DescribedAt(c, Hue(c), i, f, Max(c), Max(c) - Min(c));
  }

  /** The products that occur in Exact for f = q and for f = q + 1. */
  lemma Products(d: real, q: real)
    ensures d * (1.0 - q) == d - d * q && d * (q + 1.0) == d * q + d && d * 0.0 == 0.0 && d * 1.0 == d
    ensures d * (1.0 - (q + 1.0)) == -(d * q)
  {
  }

  lemma Ends(d: real, q: real)
    requires d > 0.0 && -1.0 <= q <= 1.0
    ensures d * q == d <==> q == 1.0
    ensures d * q == -d <==> q == -1.0
    ensures d * q >= 0.0 <==> q >= 0.0
  {
    assert d * (1.0 - q) >= 0.0 && d * (1.0 + q) >= 0.0;
  }

  lemma RedDescribes(c: Rgb, d: real, q: real) returns (i: int, f: real)
    requires InCube(c) && d == Max(c) - Min(c) > 0.0 && Strongest(c) == 1
    requires -1.0 <= q <= 1.0 && d * q == c.g - c.b && Hue(c) == if q < 0.0 then q + 6.0 else q
    ensures 0.0 <= f < 1.0 && Hue(c) == i as real + f && c == Exact(i, f, Max(c), d)
  {
    Products(d, q);
    Ends(d, q);
    if q == 1.0 {
      i, f := 1, 0.0;
    } else if q >= 0.0 {
      i, f := 0, q;
    } else {
      i, f := 5, q + 1.0;
    }
  }

  lemma GreenDescribes(c: Rgb, d: real, q: real) returns (i: int, f: real)
    requires InCube(c) && d == Max(c) - Min(c) > 0.0 && Strongest(c) == 2
    requires -1.0 <= q <= 1.0 && d * q == c.b - c.r && Hue(c) == 2.0 + q
    ensures 0.0 <= f < 1.0 && Hue(c) == i as real + f && c == Exact(i, f, Max(c), d)
  {
    Products(d, q);
    Ends(d, q);
    if q == 1.0 {
      i, f := 3, 0.0;
    } else if q >= 0.0 {
      i, f := 2, q;
    } else {
      i, f := 1, q + 1.0;
    }
  }

  lemma BlueDescribes(c: Rgb, d: real, q: real) returns (i: int, f: real)
    requires InCube(c) && d == Max(c) - Min(c) > 0.0 && Strongest(c) == 3
    requires -1.0 <= q <= 1.0 && d * q == c.r - c.g && Hue(c) == 4.0 + q
    ensures 0.0 <= f < 1.0 && Hue(c) == i as real + f && c == Exact(i, f, Max(c), d)
  {
    Products(d, q);
    Ends(d, q);
    if q >= 0.0 {
      i, f := 4, q;
    } else {
      i, f := 3, q + 1.0;
    }
  }

  lemma Distribute(d: real, g: real, x: real)
    ensures d * (g + x) == d * g + d * x
  {
  }

  lemma Drift(d: real, f: real, g: real)
    requires d > 0.0 && 0.0 <= f - g < 1.0 / 60.0
    ensures 0.0 <= d * f - d * g && 60.0 * (d * f - d * g) <= d
  {
    var x := f - g;
    Distribute(d, g, x);
    assert g + x == f;
    SmallPart(d, x);
  }

  lemma SmallPart(d: real, x: real)
    requires d > 0.0 && 0.0 <= x < 1.0 / 60.0
    ensures 0.0 <= d * x && 60.0 * (d * x) <= d
  {
    assert d * (1.0 / 60.0 - x) >= 0.0;
    Distribute(d, 1.0 / 60.0 - x, x);
  }

  /** The component that falls as the hue rises. */
  lemma FallingShade(f: real, g: real, top: real, d: real)
    requires d > 0.0 && 0.0 <= g <= f < 1.0 && f - g < 1.0 / 60.0
    ensures Restored(top - d * f, top - d * g, top, top - d)
  {
    Drift(d, f, g);
    if f > 0.0 {
      Strict(d, f);
    }
  }

  /** The component that rises with the hue. */
  lemma RisingShade(f: real, g: real, top: real, d: real)
    requires d > 0.0 && 0.0 <= g <= f < 1.0 && f - g < 1.0 / 60.0
    ensures Restored(top - d * (1.0 - f), top - d * (1.0 - g), top, top - d)
  {
    Drift(d, f, g);
    Distribute(d, 1.0 - f, f);
    Distribute(d, 1.0 - g, g);
    assert 1.0 - f + f == 1.0 && 1.0 - g + g == 1.0;
    if f > 0.0 {
      Strict(d, f);
    }
  }

  /** Moving the hue down within its sextant by less than a sixtieth moves only the middle component,
      by less than a sixtieth of the spread. */
  lemma ExactDrift(i: int, f: real, g: real, top: real, d: real)
    requires d > 0.0 && 0 <= i < 6 && 0.0 <= g <= f < 1.0 && f - g < 1.0 / 60.0
    ensures var c, e := Exact(i, f, top, d), Exact(i, g, top, d);
            && Restored(c.r, e.r, top, top - d) && Restored(c.g, e.g, top, top - d) && Restored(c.b, e.b, top, top - d)
  {
    FallingShade(f, g, top, d);
    RisingShade(f, g, top, d);
  }

  lemma Strict(d: real, f: real)
    requires d > 0.0 && 0.0 < f < 1.0
    ensures 0.0 < d * f < d
  {
    assert d * (1.0 - f) > 0.0;
  }

  /** RGB to HSV and back, for every colour: the largest and the smallest component come back exactly,
      the middle one to within a sixtieth of their difference, and the hue stays in its sextant. */
  lemma RoundTrip(c: Rgb)
    requires InCube(c)
    ensures var e := HsvToRgb(RgbToHsv(c));
            && Restored(c.r, e.r, Max(c), Min(c)) && Restored(c.g, e.g, Max(c), Min(c))
            && Restored(c.b, e.b, Max(c), Min(c))
    ensures 0 <= RgbToHsv(c).h < 360 && RgbToHsv(c).h / 60 == Hue(c).Floor
  {
    var d, hue := Max(c) - Min(c), Hue(c);
    HueInRange(c);
    WholeDegrees(hue);
    SameSextant(hue);
    if d > 0.0 {
      RoundTripOfColour(c);
    }
  }

  lemma SameSextant(hue: real)
    requires 0.0 <= hue < 6.0
    ensures Truncated(hue * 60.0) / 60 == hue.Floor
  {
    var h := Truncated(hue * 60.0);
    WholeDegrees(hue);
    assert h as real / 60.0 == (h / 60) as real + (h % 60) as real / 60.0;
  }

  lemma SaturationInRange(top: real, d: real)
    requires 0.0 < d <= top <= 1.0
    ensures Clamp(d / top) == d / top && Clamp(top) == top
  {
    Ratio(d, top);
  }

  lemma RoundTripOfColour(c: Rgb)
    requires InCube(c) && Max(c) > Min(c)
    ensures var e := HsvToRgb(RgbToHsv(c));
            && Restored(c.r, e.r, Max(c), Min(c)) && Restored(c.g, e.g, Max(c), Min(c))
            && Restored(c.b, e.b, Max(c), Min(c))
  {
    var top, d, hue := Max(c), Max(c) - Min(c), Hue(c);
    var i := hue.Floor;
    var h := Truncated(hue * 60.0);
    var g := h as real / 60.0 - i as real;
    HueInRange(c);
    WholeDegrees(hue);
    SaturationInRange(top, d);
    HueDescribes(c);
    BackAgain(c, h, i, g, top, d);
    SextantIs(i, g, top, d);
    NotBelowSextant(hue, h);
    ExactDrift(i, hue - i as real, g, top, d);
  }

  lemma NotBelowSextant(hue: real, h: int)
    requires 0.0 <= hue < 6.0 && h == Truncated(hue * 60.0)
    ensures h as real / 60.0 >= hue.Floor as real
  {
    WholeDegrees(hue);
  }

  lemma BackAgain(c: Rgb, h: int, i: int, g: real, top: real, d: real)
    requires InCube(c) && d == Max(c) - Min(c) > 0.0 && top == Max(c)
    requires h == Truncated(Hue(c) * 60.0) && Degrees(h) == h && Truncated(h as real / 60.0) == i
    requires g == h as real / 60.0 - i as real && Clamp(d / top) == d / top && Clamp(top) == top
    ensures HsvToRgb(RgbToHsv(c)) == Sextant(i, g, d / top, top)
  {
  }

  /** No smaller bound holds: for every share of the difference below a sixtieth some colour whose
      components differ by 1 loses more than that. */
  lemma RoundTripLoses(share: real) returns (c: Rgb)
    requires 0.0 <= share < 1.0 / 60.0
    ensures InCube(c) && Max(c) - Min(c) == 1.0
    ensures c.g - HsvToRgb(RgbToHsv(c)).g > share
  {
    var g := (share + 1.0 / 60.0) / 2.0;
    c := Rgb(1.0, g, 0.0);
    assert Hue(c) == g;
    assert RgbToHsv(c) == Hsv(0, 1.0, 1.0);
    assert Degrees(0) == 0;
  }

  // ---------- the ramp ----------

  datatype Rgba = Rgba(rgb: Rgb, alpha: real)

  /** i of m equal parts of the way from a to b. */
  function Along(a: real, b: real, m: nat, i: nat): real
    requires m > 0
  {
    a + i as real * ((b - a) / m as real)
  }

  /** Where the i-th of m colours lies on the way from one hue, saturation and value to another. */
  function Stop(from: Hsv, to: Hsv, m: nat, i: nat): Hsv
    requires m > 0
  {
    Hsv(Truncated(Along(from.h as real, to.h as real, m, i)), Along(from.s, to.s, m, i), Along(from.v, to.v, m, i))
  }

  function RampColour(from: Hsv, to: Hsv, m: nat, i: nat): Rgba
    requires m > 0
  {
    Rgba(HsvToRgb(Stop(from, to, m, i)), 1.0)
  }

  /** x has gone i of m equal parts of the way from a to b. */
  predicate Gone(x: real, a: real, b: real, m: nat, i: nat) {
    m as real * (x - a) == i as real * (b - a)
  }

  lemma AlongGoes(a: real, b: real, m: nat, i: nat)
    requires m > 0
    ensures Gone(Along(a, b, m, i), a, b, m, i) && Along(a, b, m, 0) == a
  {
    var d := (b - a) / m as real;
    assert m as real * d == b - a;
    assert m as real * (i as real * d) == i as real * (m as real * d);
    assert 0.0 * d == 0.0;
  }

  /** The ramp starts at its first colour.  The i-th saturation and value have gone exactly i of m parts
      of the way, and the hue has too before it is truncated, so it is less than a degree off. */
  lemma RampGoes(from: Hsv, to: Hsv, m: nat, i: nat) returns (hue: real)
    requires m > 0
    ensures Stop(from, to, m, 0) == from
    ensures Gone(Stop(from, to, m, i).s, from.s, to.s, m, i) && Gone(Stop(from, to, m, i).v, from.v, to.v, m, i)
    ensures Gone(hue, from.h as real, to.h as real, m, i) && -1.0 < hue - Stop(from, to, m, i).h as real < 1.0
  {
    hue := Along(from.h as real, to.h as real, m, i);
    AlongGoes(from.h as real, to.h as real, m, i);
    AlongGoes(from.s, to.s, m, i);
    AlongGoes(from.v, to.v, m, i);
  }

  /** How many colours make_color_ramp computes; a closed ramp mirrors the rest. */
  function Computed(n: nat, closed: bool): nat {
    if closed then n / 2 + 1 else n
  }

  /** The computed part fits into the array exactly when a closed ramp has at least one colour. */
  lemma ComputedFits(n: nat, closed: bool)
    ensures Computed(n, closed) <= n <==> (closed ==> n >= 1)
  {
  }

  /** make_color_ramp.  A closed ramp is the same read forwards and backwards from its first colour. */
  method MakeColorRamp(from: Hsv, to: Hsv, colors: array<Rgba>, closed: bool)
    requires closed ==> colors.Length >= 1
    modifies colors
    ensures forall i :: 0 <= i < Computed(colors.Length, closed) ==>
              colors[i] == RampColour(from, to, Computed(colors.Length, closed), i)
    ensures closed ==> forall i :: 1 <= i < colors.Length ==> colors[i] == colors[colors.Length - i]
  {
    var n := colors.Length;
    var m := n;
    if closed {
      m := n / 2 + 1;
    }
    for i := 0 to m
      invariant forall j :: 0 <= j < i ==> colors[j] == RampColour(from, to, m, j)
    {
      colors[i] := RampColour(from, to, m, i);
    }
    if closed {
      for i := m to n
        invariant forall j :: 0 <= j < m ==> colors[j] == RampColour(from, to, m, j)
        invariant forall j :: m <= j < i ==> colors[j] == colors[n - j]
      {
        colors[i] := colors[n - i];
      }
      forall i | 1 <= i < n ensures colors[i] == colors[n - i] {
        if i < m && n - i < m {
          assert n - i == i;
        }
      }
    }
  }
}

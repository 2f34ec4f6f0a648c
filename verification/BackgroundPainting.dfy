/**
 Where a background image goes, and how tiles cover the screen.
 */
module Placement {
  import opened Basics

  datatype Dim = Dim(w: int, h: int)

  predicate Positive(d: Dim) {
    d.w > 0 && d.h > 0
  }

  datatype Mode = Spanned | Zoomed | FillScreen | Scaled | Centered | Tiled

  function Min(a: int, b: int): int {
    if a < b then a else b
  }

  function MinReal(a: real, b: real): real {
    if a < b then a else b
  }

  function MaxReal(a: real, b: real): real {
    if a > b then a else b
  }

  /** floor (n * factor + 0.5). */
  function Rounded(n: int, factor: real): int {
    (n as real * factor + 0.5).Floor
  }

  function FitFactor(src: Dim, max: Dim): real
    requires Positive(src)
  {
    MinReal(max.w as real / src.w as real, max.h as real / src.h as real)
  }

  function CoverFactor(src: Dim, min: Dim): real
    requires Positive(src)
  {
    MaxReal(min.w as real / src.w as real, min.h as real / src.h as real)
  }

  /** pixbuf_scale_to_fit. */
  function ScaleToFit(src: Dim, max: Dim): Dim
    requires Positive(src)
  {
    Dim(Rounded(src.w, FitFactor(src, max)), Rounded(src.h, FitFactor(src, max)))
  }

  /** The image pixbuf_scale_to_min scales to before it crops. */
  function ScaleToCover(src: Dim, min: Dim): Dim
    requires Positive(src)
  {
    Dim(Rounded(src.w, CoverFactor(src, min)), Rounded(src.h, CoverFactor(src, min)))
  }

  /** pixbuf_clip_to_fit. */
  function ClipToFit(src: Dim, max: Dim): Dim {
    if src.w < max.w && src.h < max.h then src else Dim(Min(src.w, max.w), Min(src.h, max.h))
  }

  /** The size of the image get_scaled_pixbuf returns. */
  function ScaledSize(mode: Mode, src: Dim, dest: Dim): Dim
    requires Positive(src)
  {
    match mode
    case Spanned => ScaleToFit(src, dest)
    case Zoomed => dest
    case FillScreen => dest
    case Scaled => ScaleToFit(src, dest)
    case Centered => ClipToFit(src, dest)
    case Tiled => ClipToFit(src, dest)
  }

  function Centre(outer: int, inner: int): int {
    Quotient(outer - inner, 2)
  }

  // ---------- scaling to fit ----------

  lemma DivTimes(a: int, b: int)
    requires b > 0
    ensures b as real * (a as real / b as real) == a as real
  {
  }

  lemma RoundedExact(n: int, factor: real, m: int)
    requires n as real * factor == m as real
    ensures Rounded(n, factor) == m
  {
  }

  lemma RoundedBelow(n: int, factor: real, m: int)
    requires n as real * factor <= m as real
    ensures Rounded(n, factor) <= m
  {
  }

  lemma RoundedAbove(n: int, factor: real, m: int)
    requires n as real * factor >= m as real
    ensures Rounded(n, factor) >= m
  {
  }

  lemma Smaller(n: int, f: real, g: real)
    requires n > 0 && f <= g
    ensures n as real * f <= n as real * g
  {
  }

  /** One side of the scaled image equals its bound and the other keeps within its own. */
  lemma FitsExactly(src: Dim, max: Dim)
    requires Positive(src) && Positive(max)
    ensures var d := ScaleToFit(src, max);
            && 0 <= d.w <= max.w && 0 <= d.h <= max.h
            && (d.w == max.w || d.h == max.h)
  {
    var f := FitFactor(src, max);
    DivTimes(max.w, src.w);
    DivTimes(max.h, src.h);
    Smaller(src.w, f, max.w as real / src.w as real);
    Smaller(src.h, f, max.h as real / src.h as real);
    RoundedBelow(src.w, f, max.w);
    RoundedBelow(src.h, f, max.h);
    FactorNonNegative(src, max);
    Smaller(src.w, 0.0, f);
    Smaller(src.h, 0.0, f);
    RoundedAbove(src.w, f, 0);
    RoundedAbove(src.h, f, 0);
    if f == max.w as real / src.w as real {
      RoundedExact(src.w, f, max.w);
    } else {
      RoundedExact(src.h, f, max.h);
    }
  }

  lemma FactorNonNegative(src: Dim, max: Dim)
    requires Positive(src) && Positive(max)
    ensures FitFactor(src, max) >= 0.0
  {
  }

  lemma RoundedPositive(n: int, factor: real)
    ensures Rounded(n, factor) > 0 <==> n as real * factor >= 0.5
  {
  }

  lemma CrossDivide(a: int, b: int, c: int, d: int)
    requires b > 0 && d > 0
    ensures a as real / b as real <= c as real / d as real <==> a * d <= c * b
  {
    var x, y := a as real / b as real, c as real / d as real;
    assert x * b as real == a as real && y * d as real == c as real;
    var p := b as real * d as real;
    assert x * p == (a * d) as real;
    assert y * p == (c * b) as real;
    if x <= y {
      assert (y - x) * p >= 0.0;
    } else {
      assert (x - y) * p > 0.0;
    }
  }

  /** The scaled side n * (a / b) rounds to something positive exactly when 2 * n * a >= b. */
  lemma SideSurvives(n: int, a: int, b: int)
    requires b > 0
    ensures Rounded(n, a as real / b as real) > 0 <==> 2 * n * a >= b
  {
    var q := a as real / b as real;
    RoundedPositive(n, q);
    HalfTest(n, a, b, q);
  }

  lemma HalfTest(n: int, a: int, b: int, q: real)
    requires b > 0 && q * b as real == a as real
    ensures n as real * q >= 0.5 <==> 2 * n * a >= b
  {
    var left := n as real * q;
    assert left * b as real == n as real * a as real;
    assert n as real * a as real == (n * a) as real;
    if left >= 0.5 {
      assert (left - 0.5) * b as real >= 0.0;
    } else {
      assert (0.5 - left) * b as real > 0.0;
    }
  }

  lemma OneCovers(n: int, a: int, b: int, m: int)
    requires n > 0 && a > 0 && b > 0 && m > 0 && a * m <= n * b
    ensures 2 * n * b >= m
  {
    assert a * m >= m;
  }

  /** The width decides the factor. */
  lemma WideNotEmpty(src: Dim, max: Dim)
    requires Positive(src) && Positive(max) && max.w * src.h <= max.h * src.w
    ensures FitFactor(src, max) == max.w as real / src.w as real
    ensures Positive(ScaleToFit(src, max)) <==> 2 * src.h * max.w >= src.w
    ensures 2 * src.w * max.h >= src.h
  {
    CrossDivide(max.w, src.w, max.h, src.h);
    DivTimes(max.w, src.w);
    RoundedExact(src.w, max.w as real / src.w as real, max.w);
    SideSurvives(src.h, max.w, src.w);
    OneCovers(src.w, max.w, max.h, src.h);
  }

  lemma HighNotEmpty(src: Dim, max: Dim)
    requires Positive(src) && Positive(max) && max.w * src.h > max.h * src.w
    ensures Positive(ScaleToFit(src, max)) <==> 2 * src.w * max.h >= src.h
    ensures 2 * src.h * max.w >= src.w
  {
    CrossDivide(max.w, src.w, max.h, src.h);
    DivTimes(max.h, src.h);
    RoundedExact(src.h, max.h as real / src.h as real, max.h);
    SideSurvives(src.w, max.h, src.h);
    OneCovers(src.h, max.h, max.w, src.w);
  }

  /** gdk_pixbuf_scale_simple gets positive sizes, and so returns an image, exactly when the source is
      not so elongated that its short side rounds to nothing. */
  lemma ScaledNotEmpty(src: Dim, max: Dim)
    requires Positive(src) && Positive(max)
    ensures Positive(ScaleToFit(src, max)) <==> 2 * src.w * max.h >= src.h && 2 * src.h * max.w >= src.w
  {
    if max.w * src.h <= max.h * src.w {
      WideNotEmpty(src, max);
    } else {
      HighNotEmpty(src, max);
    }
  }

  /** A picture a thousand times wider than high has no height left on a 100 by 100 screen. */
  lemma ScaledAway()
    ensures ScaleToFit(Dim(1000, 1), Dim(100, 100)) == Dim(100, 0)
  {
    var f := FitFactor(Dim(1000, 1), Dim(100, 100));
    assert f == 0.1;
    assert Rounded(1000, f) == 100;
    assert Rounded(1, f) == 0;
  }

  /** Rounding puts a scaled side off by at most a half. */
  lemma RoundedOff(n: int, f: real)
    ensures -0.5 < Rounded(n, f) as real - n as real * f <= 0.5
  {
  }

  /** Two sides scaled by the same factor and rounded have the shape of the source up to the rounding. */
  predicate KeepsShape(src: Dim, d: Dim) {
    -(src.w + src.h) <= 2 * (d.w * src.h - d.h * src.w) <= src.w + src.h
  }

  lemma SameFactor(src: Dim, f: real)
    requires Positive(src)
    ensures KeepsShape(src, Dim(Rounded(src.w, f), Rounded(src.h, f)))
  {
    RoundedOff(src.w, f);
    RoundedOff(src.h, f);
    ShapeOff(src, Rounded(src.w, f), Rounded(src.h, f), f);
  }

  lemma ShapeOff(src: Dim, w: int, h: int, f: real)
    requires Positive(src)
    requires -0.5 < w as real - src.w as real * f <= 0.5 && -0.5 < h as real - src.h as real * f <= 0.5
    ensures KeepsShape(src, Dim(w, h))
  {
    var u := (w as real - src.w as real * f) * src.h as real;
    var v := (h as real - src.h as real * f) * src.w as real;
    HalfOf(src.h, w as real - src.w as real * f, u);
    HalfOf(src.w, h as real - src.h as real * f, v);
    Apart(src.w as real, src.h as real, w as real, h as real, f, u, v);
    ProductReal(w, src.h);
    ProductReal(h, src.w);
    Halves(w * src.h, h * src.w, src.w, src.h, u, v);
  }

  lemma ProductReal(n: int, m: int)
    ensures (n * m) as real == n as real * m as real
  {
  }

  lemma Halves(p: int, q: int, a: int, b: int, u: real, v: real)
    requires p as real - q as real == u - v
    requires -(b as real) <= 2.0 * u <= b as real && -(a as real) <= 2.0 * v <= a as real
    ensures -(a + b) <= 2 * (p - q) <= a + b
  {
  }

  lemma Apart(a: real, b: real, w: real, h: real, f: real, u: real, v: real)
    requires u == (w - a * f) * b && v == (h - b * f) * a
    ensures w * b - h * a == u - v
  {
    assert u == w * b - a * f * b;
    assert v == h * a - b * f * a;
    assert a * f * b == b * f * a;
  }

  lemma HalfOf(n: int, x: real, u: real)
    requires n > 0 && -0.5 < x <= 0.5 && u == x * n as real
    ensures -(n as real) <= 2.0 * u <= n as real
  {
    assert (0.5 - x) * n as real >= 0.0 && (x + 0.5) * n as real >= 0.0;
  }

  // ---------- zooming ----------

  /** One side of the zoomed image. */
  lemma CoverSide(n: int, m: int, f: real)
    requires n > 0 && f >= m as real / n as real
    ensures Rounded(n, f) >= m && (f == m as real / n as real ==> Rounded(n, f) == m)
    ensures 0 <= Quotient(Rounded(n, f) - m, 2)
    ensures (Quotient(Rounded(n, f) - m, 2) + m) as real <= n as real * f
  {
    DivTimes(m, n);
    Smaller(n, m as real / n as real, f);
    WindowInside(n, f, m);
    if f == m as real / n as real {
      RoundedExact(n, f, m);
    }
  }

  /** pixbuf_scale_to_min: the scaled image is at least as large as the screen in both directions and
      exactly as large in one; the window it crops lies inside the scaled image, even inside its exact
      size before rounding. */
  lemma CropInside(src: Dim, min: Dim)
    requires Positive(src) && Positive(min)
    ensures var d := ScaleToCover(src, min);
            var f := CoverFactor(src, min);
            && d.w >= min.w && d.h >= min.h && (d.w == min.w || d.h == min.h)
            && 0 <= Quotient(d.w - min.w, 2) && (Quotient(d.w - min.w, 2) + min.w) as real <= src.w as real * f
            && 0 <= Quotient(d.h - min.h, 2) && (Quotient(d.h - min.h, 2) + min.h) as real <= src.h as real * f
  {
    CoverSide(src.w, min.w, CoverFactor(src, min));
    CoverSide(src.h, min.h, CoverFactor(src, min));
  }

  lemma WindowInside(n: int, f: real, m: int)
    requires n as real * f >= m as real
    ensures Rounded(n, f) >= m
    ensures 0 <= Quotient(Rounded(n, f) - m, 2)
    ensures (Quotient(Rounded(n, f) - m, 2) + m) as real <= n as real * f
  {
    var x := n as real * f;
    RoundedAbove(n, f, m);
    RoundingError(x, m, (x + 0.5).Floor);
  }

  lemma RoundingError(x: real, m: int, r: int)
    requires x >= m as real && r == (x + 0.5).Floor && r >= m
    ensures (Quotient(r - m, 2) + m) as real <= x
  {
    assert r as real <= x + 0.5;
    if r > m {
      assert (2 * Quotient(r - m, 2)) as real <= (r - m) as real;
      assert (r - m) as real >= 1.0;
    }
  }

  // ---------- every mode ----------

  lemma Centred(outer: int, inner: int)
    requires 0 <= inner <= outer
    ensures var x := Centre(outer, inner);
            0 <= x && x + inner <= outer && 0 <= (outer - inner - x) - x <= 1
  {
  }

  /** The zoomed picture is cropped in the middle. */
  lemma CropCentred(src: Dim, min: Dim)
    requires Positive(src) && Positive(min)
    ensures var d := ScaleToCover(src, min);
            && KeepsShape(src, d)
            && 0 <= (d.w - min.w - Quotient(d.w - min.w, 2)) - Quotient(d.w - min.w, 2) <= 1
            && 0 <= (d.h - min.h - Quotient(d.h - min.h, 2)) - Quotient(d.h - min.h, 2) <= 1
  {
    SameFactor(src, CoverFactor(src, min));
    CropInside(src, min);
  }

  /** What each mode makes of the picture.  Zoomed and filling it covers the screen exactly.  Scaled it
      keeps its shape and touches the screen in one direction.  Centred and tiled it keeps its scale, and
      in each direction either all of it shows or it fills the screen. */
  lemma ModeMeans(mode: Mode, src: Dim, dest: Dim)
    requires Positive(src) && Positive(dest)
    ensures var d := ScaledSize(mode, src, dest);
            && (mode.Zoomed? || mode.FillScreen? ==> d == dest)
            && (mode.Spanned? || mode.Scaled? ==>
                  KeepsShape(src, d) && d.w <= dest.w && d.h <= dest.h && (d.w == dest.w || d.h == dest.h))
            && (mode.Centered? || mode.Tiled? ==>
                  && d.w <= dest.w && d.w <= src.w && (d.w == dest.w || d.w == src.w)
                  && d.h <= dest.h && d.h <= src.h && (d.h == dest.h || d.h == src.h))
  {
    SameFactor(src, FitFactor(src, dest));
    FitsExactly(src, dest);
  }

  /** Whatever the mode, the image and its centring offset lie within the destination, and the margins
      on opposite sides differ by at most one pixel. */
  lemma PlacedInside(mode: Mode, src: Dim, dest: Dim)
    requires Positive(src) && Positive(dest)
    ensures var d := ScaledSize(mode, src, dest);
            var x, y := Centre(dest.w, d.w), Centre(dest.h, d.h);
            && 0 <= x && x + d.w <= dest.w && 0 <= (dest.w - d.w - x) - x <= 1
            && 0 <= y && y + d.h <= dest.h && 0 <= (dest.h - d.h - y) - y <= 1
  {
    FitsExactly(src, dest);
    var d := ScaledSize(mode, src, dest);
    Centred(dest.w, d.w);
    Centred(dest.h, d.h);
  }

  /** pixbuf_clip_to_fit copies an area that lies inside the source. */
  lemma ClipInside(src: Dim, max: Dim)
    requires Positive(src) && Positive(max)
    ensures var d := ClipToFit(src, max);
            var x, y := Quotient(src.w - d.w, 2), Quotient(src.h - d.h, 2);
            && Positive(d) && d.w <= max.w && d.h <= max.h
            && 0 <= x && x + d.w <= src.w && 0 <= y && y + d.h <= src.h
  {
    var d := ClipToFit(src, max);
    Centred(src.w, d.w);
    Centred(src.h, d.h);
  }
}

/**
 Compositing tiles.  A destination pixel holds the list of the source pixels composited onto it.
 */
module Tiling {
  type Log = seq<(int, int)>

  /** gdk_pixbuf_composite at scale 1, the rectangle lying in the destination: a pixel takes the source
      pixel at its place less the offset.  A rectangle of no size paints nothing. */
  method Composite(dest: array2<Log>, x: int, y: int, w: int, h: int, dx: int, dy: int)
    requires 0 <= x && x + w <= dest.Length1 && 0 <= y && y + h <= dest.Length0
    modifies dest
    ensures forall r, c :: 0 <= r < dest.Length0 && 0 <= c < dest.Length1 ==>
              dest[r, c] == if y <= r < y + h && x <= c < x + w then old(dest[r, c]) + [(c - dx, r - dy)]
                            else old(dest[r, c])
  {
    if w <= 0 || h <= 0 {
      return;
    }
    for j := y to y + h
      invariant forall r, c :: 0 <= r < dest.Length0 && 0 <= c < dest.Length1 ==>
                  dest[r, c] == if y <= r < j && x <= c < x + w then old(dest[r, c]) + [(c - dx, r - dy)]
                                else old(dest[r, c])
    {
      CompositeRow(dest, x, j, w, dx, dy);
    }
  }

  method CompositeRow(dest: array2<Log>, x: int, j: int, w: int, dx: int, dy: int)
    requires 0 <= x && 0 <= w && x + w <= dest.Length1 && 0 <= j < dest.Length0
    modifies dest
    ensures forall r, c :: 0 <= r < dest.Length0 && 0 <= c < dest.Length1 ==>
              dest[r, c] == if r == j && x <= c < x + w then old(dest[r, c]) + [(c - dx, r - dy)]
                            else old(dest[r, c])
  {
    for i := x to x + w
      invariant forall r, c :: 0 <= r < dest.Length0 && 0 <= c < dest.Length1 ==>
                  dest[r, c] == if r == j && x <= c < i then old(dest[r, c]) + [(c - dx, r - dy)]
                                else old(dest[r, c])
    {
      dest[j, i] := dest[j, i] + [(i - dx, j - dy)];
    }
  }

  // what pixbuf_blend does to a rectangle in one direction, whose extent there is size

  /** Where the rectangle begins after a negative place was moved to the edge. */
  function ClippedAt(at: int): int {
    if at < 0 then 0 else at
  }

  /** Its extent after it was cut at the far edge; the extent is not made smaller at the near edge. */
  function ClippedSize(at: int, size: int, destSize: int): int {
    if ClippedAt(at) + size > destSize then destSize - ClippedAt(at) else size
  }

  predicate Within(p: int, at: int, size: int) {
    at <= p < at + size
  }

  /** The clipped rectangle paints something exactly if it begins before the far edge.  Then it lies in
      the destination, and it is the part of the moved rectangle that does exactly when the place is
      not negative or the rectangle reaches the far edge anyway. */
  lemma ClippedInDestination(at: int, size: int, destSize: int)
    requires size > 0 && destSize > 0
    ensures ClippedSize(at, size, destSize) > 0 <==> at < destSize
    ensures 0 <= ClippedAt(at) && ClippedAt(at) + ClippedSize(at, size, destSize) <= destSize
    ensures at < destSize ==>
              ((forall p :: 0 <= p < destSize ==>
                  (Within(p, at, size) <==> Within(p, ClippedAt(at), ClippedSize(at, size, destSize))))
               <==> at >= 0 || at + size >= destSize)
  {
    if at < 0 && at + size < destSize {
      var p := if at + size < 0 then 0 else at + size;
      assert 0 <= p < destSize && !Within(p, at, size);
      assert Within(p, ClippedAt(at), ClippedSize(at, size, destSize));
    }
  }

  /** The source pixels it takes lie in the source exactly when the place is not negative, or the
      source has that much more beyond the rectangle. */
  lemma ClippedInSource(from: int, size: int, sourceSize: int, at: int, destSize: int)
    requires 0 <= from && 0 < size && from + size <= sourceSize && at < destSize && destSize > 0
    ensures var first := ClippedAt(at) - (at - from);
            (0 <= first && first + ClippedSize(at, size, destSize) <= sourceSize)
            <==> at >= 0 || (if size < destSize then size else destSize) - at <= sourceSize - from
  {
  }

  /** pixbuf_blend.  A negative size stands for the whole source. */
  method Blend(dest: array2<Log>, sourceWidth: int, sourceHeight: int,
               fromX: int, fromY: int, width: int, height: int, atX: int, atY: int)
    modifies dest
    ensures var w := if width < 0 then sourceWidth else width;
            var h := if height < 0 then sourceHeight else height;
            var x, y := ClippedAt(atX), ClippedAt(atY);
            forall r, c :: 0 <= r < dest.Length0 && 0 <= c < dest.Length1 ==>
              dest[r, c] == if y <= r < y + h && x <= c < x + w
                            then old(dest[r, c]) + [(c - atX + fromX, r - atY + fromY)] else old(dest[r, c])
  {
    var offsetX, offsetY := atX - fromX, atY - fromY;
    var w := if width < 0 then sourceWidth else width;
    var h := if height < 0 then sourceHeight else height;
    var x := if atX < 0 then 0 else atX;
    var y := if atY < 0 then 0 else atY;
    if x + w > dest.Length1 {
      w := dest.Length1 - x;
    }
    if y + h > dest.Length0 {
      h := dest.Length0 - y;
    }
    Composite(dest, x, y, w, h, offsetX, offsetY);
  }

  lemma InTile(p: int, at: int, size: int)
    requires size > 0 && 0 <= at && at % size == 0 && at <= p < at + size
    ensures p - at == p % size
  {
    var k := at / size;
    assert at == k * size;
    assert p == k * size + (p - at);
    ModOf(k, size, p - at);
  }

  lemma Multiple(e: int, size: int)
    requires size > 0
    ensures e >= 1 ==> e * size >= size
    ensures e <= -1 ==> e * size <= -size
  {
  }

  lemma SameRemainder(q: int, r: int, k: int, d: int, size: int)
    requires 0 <= r < size && 0 <= d < size && q * size + r == k * size + d
    ensures r == d
  {
    assert (q - k) * size == d - r;
    Multiple(q - k, size);
  }

  lemma ModOf(k: int, size: int, d: int)
    requires 0 <= d < size
    ensures (k * size + d) % size == d
  {
    var p := k * size + d;
    SameRemainder(p / size, p % size, k, d, size);
  }

  lemma NextTile(at: int, size: int)
    requires size > 0 && at % size == 0
    ensures (at + size) % size == 0
  {
    ModOf(at / size + 1, size, 0);
    assert at + size == (at / size + 1) * size;
  }

  /** pixbuf_tile: every destination pixel is painted exactly once, with the tile's pixel at its
      coordinates modulo the tile's size. */
  method Tile(dest: array2<Log>, tileWidth: int, tileHeight: int)
    requires tileWidth > 0 && tileHeight > 0
    requires forall r, c :: 0 <= r < dest.Length0 && 0 <= c < dest.Length1 ==> dest[r, c] == []
    modifies dest
    ensures forall r, c :: 0 <= r < dest.Length0 && 0 <= c < dest.Length1 ==>
              dest[r, c] == [(c % tileWidth, r % tileHeight)]
  {
    var y := 0;
    while y < dest.Length0
      invariant 0 <= y && y % tileHeight == 0
      invariant forall r, c :: 0 <= r < dest.Length0 && 0 <= c < dest.Length1 ==>
                  dest[r, c] == if r < y then [(c % tileWidth, r % tileHeight)] else []
    {
      TileRow(dest, tileWidth, tileHeight, y);
      NextTile(y, tileHeight);
      y := y + tileHeight;
    }
  }

  /** One row of tiles. */
  method TileRow(dest: array2<Log>, tileWidth: int, tileHeight: int, y: int)
    requires tileWidth > 0 && tileHeight > 0 && 0 <= y < dest.Length0 && y % tileHeight == 0
    requires forall r, c :: y <= r < dest.Length0 && 0 <= c < dest.Length1 ==> dest[r, c] == []
    modifies dest
    ensures forall r, c :: 0 <= r < dest.Length0 && 0 <= c < dest.Length1 ==>
              dest[r, c] == if y <= r < y + tileHeight then [(c % tileWidth, r % tileHeight)] else old(dest[r, c])
  {
    var x := 0;
    while x < dest.Length1
      invariant 0 <= x && x % tileWidth == 0
      invariant forall r, c :: 0 <= r < dest.Length0 && 0 <= c < dest.Length1 ==>
                  dest[r, c] == if y <= r < y + tileHeight && c < x then [(c % tileWidth, r % tileHeight)]
                                else old(dest[r, c])
    {
      label Before:
      Blend(dest, tileWidth, tileHeight, 0, 0, tileWidth, tileHeight, x, y);
      forall r, c | 0 <= r < dest.Length0 && 0 <= c < dest.Length1 && y <= r < y + tileHeight && x <= c < x + tileWidth
        ensures dest[r, c] == [(c % tileWidth, r % tileHeight)]
      {
        InTile(r, y, tileHeight);
        InTile(c, x, tileWidth);
      }
      NextTile(x, tileWidth);
      x := x + tileWidth;
    }
  }
}

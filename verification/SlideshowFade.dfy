/**
 The cross-fade of the slideshow saver.

 Cairo composites every pixel by itself, so the model follows one pixel of the back buffer, at an
 arbitrary place and in an arbitrary colour channel.
 */
module SlideshowFade {
  import opened Basics

  const MINIMUM_FPS := 3.0

  /** An image scaled for the window: its size, and its channel value and alpha at the pixel followed,
      which are used only where the image covers it. */
  datatype Image = Image(width: nat, height: nat, value: real, alpha: real)

  /** What is composited at the pixel followed. */
  datatype Paint = Paint(value: real, alpha: real)

  datatype Rect = Rect(left: int, top: int, right: int, bottom: int)

  predicate In(r: Rect, x: int, y: int) {
    r.left <= x < r.right && r.top <= y < r.bottom
  }

  /** Where start_fade puts the image in a window. */
  function Placed(image: Image, w: nat, h: nat): Rect {
    var x, y := Quotient(w - image.width, 2), Quotient(h - image.height, 2);
    Rect(x, y, x + image.width, y + image.height)
  }

  /** start_fade puts the image in the middle: opposite margins, or overhangs, differ by at most a pixel. */
  lemma PlacedInTheMiddle(image: Image, w: nat, h: nat)
    ensures var r := Placed(image, w, h);
            && r.right - r.left == image.width && r.bottom - r.top == image.height
            && -1 <= (w - r.right) - r.left <= 1 && -1 <= (h - r.bottom) - r.top <= 1
  {
  }

  /** The five areas update_display paints, the image last. */
  function Areas(r: Rect, w: nat, h: nat): seq<Rect> {
    [Rect(0, 0, w, r.top), Rect(0, r.top, r.left, r.bottom), Rect(0, r.bottom, w, h),
     Rect(r.right, r.top, w, r.bottom), r]
  }

  /** Whatever the sizes, even an image larger than the window, each pixel of the window lies in
      exactly one of the five areas: none is composited twice in one tick and none is left out. */
  lemma PaintedOnce(image: Image, w: nat, h: nat, x: nat, y: nat)
    requires x < w && y < h
    ensures exists n :: 0 <= n < 5 && In(Areas(Placed(image, w, h), w, h)[n], x, y)
    ensures forall m, n :: 0 <= m < n < 5 && In(Areas(Placed(image, w, h), w, h)[m], x, y)
              ==> !In(Areas(Placed(image, w, h), w, h)[n], x, y)
  {
    var r := Placed(image, w, h);
    var areas := Areas(r, w, h);
    if y < r.top {
      assert In(areas[0], x, y);
    } else if y >= r.bottom {
      assert In(areas[2], x, y);
    } else if x < r.left {
      assert In(areas[1], x, y);
    } else if x >= r.right {
      assert In(areas[3], x, y);
    } else {
      assert In(areas[4], x, y);
    }
  }

  /** The OVER operator with a source of this alpha: also the new picture at that opacity over the old. */
  function Over(source: real, alpha: real, under: real): real {
    alpha * source + (1.0 - alpha) * under
  }

  /** What start_fade makes of an image: with a background colour it becomes opaque.  flattenTo is the
      value that colour has there.  For an opaque pixel this changes nothing. */
  function Flattened(image: Image, flattenTo: Option<real>): Image {
    match flattenTo
    case Some(color) => image.(value := Over(image.value, image.alpha, color), alpha := 1.0)
    case None => image
  }

  // ---------- the fade as a value ----------

  datatype Fade = Fade(pat1: Option<Image>, pat2: Option<Image>, ticks: nat, alpha: real, disabled: bool, pixel: real)

  /** What one tick composites: the image where it covers the pixel, the background elsewhere. */
  function Target(image: Image, w: nat, h: nat, x: int, y: int, background: real): Paint {
    if In(Placed(image, w, h), x, y) then Paint(image.value, image.alpha) else Paint(background, 1.0)
  }

  function Opacity(k: nat, n: nat): real
    requires n > 0
  {
    k as real / n as real
  }

  /** Whether the frame rate after this many ticks is below the minimum.  No time elapsed is no low rate. */
  predicate Slow(ticks: nat, elapsed: real) {
    elapsed > 0.0 && ticks as real / elapsed < MINIMUM_FPS
  }

  /** Fading is given up when a tick took more than a third of a second on average. */
  lemma SlowMeans(ticks: nat, elapsed: real)
    requires elapsed >= 0.0
    ensures Slow(ticks, elapsed) <==> ticks as real < 3.0 * elapsed
  {
    if elapsed > 0.0 {
      var q := ticks as real / elapsed;
      assert q * elapsed == ticks as real;
      assert q < 3.0 ==> (3.0 - q) * elapsed > 0.0;
      assert q >= 3.0 ==> (q - 3.0) * elapsed >= 0.0;
    }
  }

  /** update_display at this alpha. */
  function Composited(paint: Paint, alpha: real, under: real): real {
    Over(paint.value, paint.alpha * alpha, under)
  }

  /** draw_iter for N fade ticks, paint being what the new picture has at the pixel. */
  function Tick(f: Fade, n: nat, paint: Paint, elapsed: real): Fade
    requires n > 0 && (f.pat2.Some? ==> f.ticks < n)
  {
    if f.pat2.None? then f
    else if f.disabled then
      f.(alpha := 1.0, pixel := Composited(paint, 1.0, f.pixel), pat1 := f.pat2, pat2 := None)
    else
      var k := f.ticks + 1;
      var alpha := 1.0 - (1.0 - Opacity(k, n)) / (1.0 - Opacity(f.ticks, n));
      var g := f.(ticks := k, alpha := alpha, pixel := Composited(paint, alpha, f.pixel));
      if Slow(k, elapsed) then g.(ticks := n - 1, disabled := true)
      else if k >= n then g.(pat1 := f.pat2, pat2 := None)
      else g
  }

  function Ticks(f: Fade, n: nat, paint: Paint, readings: seq<real>): (r: Fade)
    requires n > 0 && (f.pat2.Some? ==> f.ticks < n)
    ensures r.pat2.Some? ==> r.ticks < n
  {
    if readings == [] then f
    else Tick(Ticks(f, n, paint, readings[..|readings| - 1]), n, paint, readings[|readings| - 1])
  }

  // ---------- what a fade shows ----------

  /** The divisor in the computation of alpha2 is never zero. */
  lemma DivisorPositive(k: nat, n: nat)
    requires k < n
    ensures 1.0 - Opacity(k, n) > 0.0
  {
  }

  function StepAlpha(k: nat, n: nat): real
    requires 0 < k <= n
  {
    1.0 - (1.0 - Opacity(k, n)) / (1.0 - Opacity(k - 1, n))
  }

  /** The computed alpha is in (0, 1], and 1 exactly at the last tick. */
  lemma AlphaInRange(k: nat, n: nat)
    requires 0 < k <= n
    ensures 0.0 < StepAlpha(k, n) <= 1.0 && (StepAlpha(k, n) == 1.0 <==> k == n)
  {
    DivisorPositive(k - 1, n);
    var a, b := 1.0 - Opacity(k - 1, n), 1.0 - Opacity(k, n);
    Quotients(a, b);
    assert Opacity(k, n) == Opacity(k - 1, n) + 1.0 / n as real;
  }

  lemma Quotients(a: real, b: real)
    requires a > 0.0
    ensures b / a * a == b
    ensures 0.0 <= b < a ==> 0.0 <= b / a < 1.0
    ensures b == 0.0 <==> b / a == 0.0
  {
    var q := b / a;
    assert q * a == b;
    assert q >= 1.0 ==> (q - 1.0) * a >= 0.0;
    assert q < 0.0 ==> q * a < 0.0;
  }

  /** Compositing once more multiplies what is left of the old picture. */
  lemma OverAgain(value: real, alpha: real, left: real, under: real)
    ensures Over(value, alpha, Over(value, 1.0 - left, under)) == Over(value, 1.0 - left * (1.0 - alpha), under)
  {
    calc {
      alpha * value + (1.0 - alpha) * ((1.0 - left) * value + left * under);
    ==
      alpha * value + (1.0 - alpha) * value - (1.0 - alpha) * left * value + (1.0 - alpha) * left * under;
    ==
      value - left * (1.0 - alpha) * value + left * (1.0 - alpha) * under;
    }
  }

  /** The same for a tick, what is left before and after it being given. */
  lemma CompositedAgain(paint: Paint, alpha: real, left: real, less: real, before: real, under: real)
    requires before == Over(paint.value, 1.0 - left, under) && less == left * (1.0 - paint.alpha * alpha)
    ensures Composited(paint, alpha, before) == Over(paint.value, 1.0 - less, under)
  {
    OverAgain(paint.value, paint.alpha * alpha, left, under);
  }

  lemma SteadyTick(f: Fade, n: nat, paint: Paint, elapsed: real)
    requires n > 0 && f.pat2.Some? && f.ticks < n && !f.disabled && !Slow(f.ticks + 1, elapsed)
    ensures var g := Tick(f, n, paint, elapsed);
            && g.pixel == Composited(paint, StepAlpha(f.ticks + 1, n), f.pixel)
            && g.ticks == f.ticks + 1 && !g.disabled
            && (if f.ticks + 1 < n then g.pat2 == f.pat2 && g.pat1 == f.pat1 else g.pat2.None? && g.pat1 == f.pat2)
  {
  }

  /** No frame-rate reading of the ticks so far disabled fading. */
  predicate Steady(readings: seq<real>) {
    forall k :: 0 <= k < |readings| ==> !Slow(k + 1, readings[k])
  }

  lemma {:induction false} SteadyTicks(f: Fade, n: nat, paint: Paint, readings: seq<real>)
    requires n > 0 && f.pat2.Some? && f.ticks == 0 && !f.disabled
    requires |readings| <= n && Steady(readings)
    ensures var g := Ticks(f, n, paint, readings);
            && g.ticks == |readings| && !g.disabled
            && (if |readings| < n then g.pat2 == f.pat2 && g.pat1 == f.pat1 else g.pat2.None? && g.pat1 == f.pat2)
  {
    if readings != [] {
      var most := readings[..|readings| - 1];
      SteadyTicks(f, n, paint, most);
      SteadyTick(Ticks(f, n, paint, most), n, paint, readings[|readings| - 1]);
    }
  }

  /** After k ticks left is what is left of the old picture: 1 - k/N of it under an opaque picture, and
      more under one that is not. */
  predicate Share(paint: Paint, left: real, k: nat, n: nat)
    requires n > 0
  {
    && left >= 1.0 - Opacity(k, n)
    && (left == 1.0 - Opacity(k, n) <==> paint.alpha == 1.0 || k == 0)
  }

  /** How a tick's alpha leads from one opacity to the next. */
  lemma SteadyAlpha(g: Fade, n: nat, paint: Paint, elapsed: real) returns (alpha: real)
    requires n > 0 && g.pat2.Some? && g.ticks < n && !g.disabled && !Slow(g.ticks + 1, elapsed)
    ensures 0.0 < alpha <= 1.0 && 1.0 - Opacity(g.ticks, n) > 0.0
    ensures (1.0 - Opacity(g.ticks, n)) * (1.0 - alpha) == 1.0 - Opacity(g.ticks + 1, n)
    ensures Tick(g, n, paint, elapsed).pixel == Composited(paint, alpha, g.pixel)
  {
    alpha := StepAlpha(g.ticks + 1, n);
    AlphaInRange(g.ticks + 1, n);
    DivisorPositive(g.ticks, n);
    Quotients(1.0 - Opacity(g.ticks, n), 1.0 - Opacity(g.ticks + 1, n));
    SteadyTick(g, n, paint, elapsed);
  }

  lemma Product(x: real, y: real)
    requires x >= 0.0 && y >= 0.0
    ensures x * y >= 0.0 && (x > 0.0 && y > 0.0 ==> x * y > 0.0)
  {
  }

  /** The alphas telescope, for an opaque picture exactly. */
  lemma AlphaTelescopes(a: real, alpha: real, left: real, less: real, r: real, r1: real)
    requires 0.0 <= a <= 1.0 && 0.0 < alpha <= 1.0 && left >= r > 0.0
    requires r * (1.0 - alpha) == r1 && less == left * (1.0 - a * alpha)
    ensures less >= r1
    ensures a == 1.0 && left == r ==> less == r1
    ensures a < 1.0 ==> less > r1
  {
    var keep := 1.0 - a * alpha;
    var gap := keep - (1.0 - alpha);
    Product(alpha, 1.0 - a);
    assert gap == alpha * (1.0 - a);
    assert less - r1 == (left - r) * keep + r * gap;
    Product(left - r, keep);
    Product(r, gap);
  }

  lemma SteadyPixelMore(g: Fade, n: nat, paint: Paint, elapsed: real, left: real, under: real) returns (less: real)
    requires n > 0 && g.pat2.Some? && g.ticks < n && !g.disabled && !Slow(g.ticks + 1, elapsed)
    requires 0.0 <= paint.alpha <= 1.0 && Share(paint, left, g.ticks, n)
    requires g.pixel == Over(paint.value, 1.0 - left, under)
    ensures Share(paint, less, g.ticks + 1, n)
    ensures Tick(g, n, paint, elapsed).pixel == Over(paint.value, 1.0 - less, under)
  {
    var alpha := SteadyAlpha(g, n, paint, elapsed);
    less := left * (1.0 - paint.alpha * alpha);
    AlphaTelescopes(paint.alpha, alpha, left, less, 1.0 - Opacity(g.ticks, n), 1.0 - Opacity(g.ticks + 1, n));
    CompositedAgain(paint, alpha, left, less, g.pixel, under);
  }

  lemma {:induction false} SteadyPixel(f: Fade, n: nat, paint: Paint, readings: seq<real>) returns (left: real)
    requires n > 0 && f.pat2.Some? && f.ticks == 0 && !f.disabled && 0.0 <= paint.alpha <= 1.0
    requires |readings| <= n && Steady(readings)
    ensures Share(paint, left, |readings|, n)
    ensures Ticks(f, n, paint, readings).pixel == Over(paint.value, 1.0 - left, f.pixel)
  {
    left := 1.0;
    if readings == [] {
      NothingYet(paint.value, f.pixel);
    } else {
      var k := |readings|;
      var most := readings[..k - 1];
      left := SteadyPixel(f, n, paint, most);
      SteadyTicks(f, n, paint, most);
      left := SteadyPixelMore(Ticks(f, n, paint, most), n, paint, readings[k - 1], left, f.pixel);
    }
  }

  /** While fading goes on, the k-th tick shows exactly k/N of the new picture and the rest of the old if
      and only if the new one is opaque at the pixel, or the two are the same there. */
  lemma FadeIsLinear(f: Fade, n: nat, paint: Paint, readings: seq<real>)
    requires n > 0 && f.pat2.Some? && f.ticks == 0 && !f.disabled && 0.0 <= paint.alpha <= 1.0
    requires 0 < |readings| <= n && Steady(readings)
    ensures var g := Ticks(f, n, paint, readings);
            && (g.pixel == Over(paint.value, Opacity(|readings|, n), f.pixel)
                <==> paint.alpha == 1.0 || f.pixel == paint.value)
            && g.ticks == |readings| && !g.disabled
            && (if |readings| < n then g.pat2 == f.pat2 && g.pat1 == f.pat1 else g.pat2.None? && g.pat1 == f.pat2)
  {
    SteadyTicks(f, n, paint, readings);
    var left := SteadyPixel(f, n, paint, readings);
    SameMix(paint.value, 1.0 - left, Opacity(|readings|, n), f.pixel);
  }

  lemma SameMix(value: real, a: real, b: real, under: real)
    ensures Over(value, a, under) == Over(value, b, under) <==> a == b || under == value
  {
    assert Over(value, a, under) - Over(value, b, under) == (a - b) * (value - under);
  }

  lemma NothingYet(value: real, under: real)
    ensures Over(value, 0.0, under) == under
  {
  }

  /** How many ticks a fade can still take. */
  function Left(f: Fade, n: nat): int
    requires f.pat2.Some? ==> f.ticks < n
  {
    if f.pat2.None? then 0 else if f.disabled then 1 else n - f.ticks + 1
  }

  /** A tick brings the end nearer and composites the new picture at some alpha, which is 1 if the fade
      is over then. */
  lemma TickProgress(f: Fade, n: nat, paint: Paint, elapsed: real) returns (alpha: real)
    requires n > 0 && f.pat2.Some? && f.ticks < n
    ensures var g := Tick(f, n, paint, elapsed);
            && 0.0 < alpha <= 1.0 && g.pixel == Composited(paint, alpha, f.pixel)
            && Left(g, n) < Left(f, n)
            && (g.pat2.None? ==> alpha == 1.0 && g.pat1 == f.pat2)
            && (g.pat2.Some? ==> g.pat2 == f.pat2 && g.pat1 == f.pat1)
  {
    if f.disabled {
      alpha := 1.0;
    } else {
      alpha := StepAlpha(f.ticks + 1, n);
      AlphaInRange(f.ticks + 1, n);
    }
  }

  /** left is a share of the old picture that something of this alpha leaves. */
  predicate Leaves(paint: Paint, left: real, over: bool) {
    && 0.0 <= left <= 1.0
    && (paint.alpha < 1.0 ==> left > 0.0)
    && (paint.alpha == 1.0 && over ==> left == 0.0)
  }

  lemma LessLeft(paint: Paint, alpha: real, left: real)
    requires 0.0 <= paint.alpha <= 1.0 && 0.0 < alpha <= 1.0 && Leaves(paint, left, false)
    ensures Leaves(paint, left * (1.0 - paint.alpha * alpha), alpha == 1.0)
  {
    var q := 1.0 - paint.alpha * alpha;
    assert 0.0 <= paint.alpha * alpha <= paint.alpha;
    assert 0.0 <= q <= 1.0 && (paint.alpha < 1.0 ==> q > 0.0);
    assert 0.0 <= left * q <= left;
  }

  /** One tick more, what is left of the old picture before it being given. */
  lemma OneTickMore(f: Fade, n: nat, paint: Paint, elapsed: real, left: real, under: real) returns (less: real)
    requires n > 0 && f.pat2.Some? && f.ticks < n && 0.0 <= paint.alpha <= 1.0
    requires Leaves(paint, left, false) && f.pixel == Over(paint.value, 1.0 - left, under)
    ensures var g := Tick(f, n, paint, elapsed);
            && Leaves(paint, less, g.pat2.None?) && g.pixel == Over(paint.value, 1.0 - less, under)
            && Left(g, n) < Left(f, n)
            && (g.pat2.None? ==> g.pat1 == f.pat2)
            && (g.pat2.Some? ==> g.pat2 == f.pat2 && g.pat1 == f.pat1)
  {
    var alpha := TickProgress(f, n, paint, elapsed);
    LessLeft(paint, alpha, left);
    less := left * (1.0 - paint.alpha * alpha);
    CompositedAgain(paint, alpha, left, less, f.pixel, under);
  }

  lemma {:induction false} FadeProgress(f: Fade, n: nat, paint: Paint, readings: seq<real>) returns (left: real)
    requires n > 0 && f.pat2.Some? && f.ticks < n && 0.0 <= paint.alpha <= 1.0
    ensures var g := Ticks(f, n, paint, readings);
            && Leaves(paint, left, g.pat2.None?) && g.pixel == Over(paint.value, 1.0 - left, f.pixel)
            && (g.pat2.None? ==> g.pat1 == f.pat2)
            && (g.pat2.Some? ==> g.pat2 == f.pat2 && Left(g, n) <= Left(f, n) - |readings|)
  {
    left := 1.0;
    if readings == [] {
      NothingYet(paint.value, f.pixel);
    } else {
      var most := readings[..|readings| - 1];
      left := FadeProgress(f, n, paint, most);
      var g := Ticks(f, n, paint, most);
      if g.pat2.Some? {
        left := OneTickMore(g, n, paint, readings[|readings| - 1], left, f.pixel);
      }
    }
  }

  lemma NothingOld(value: real, left: real, under: real)
    ensures Over(value, 1.0 - left, under) == value <==> left == 0.0 || under == value
  {
    assert Over(value, 1.0 - left, under) - value == left * (under - value);
  }

  /** Whatever the frame rate does, even when it disables fading on the way, a fade started afresh is
      over within N + 1 ticks.  What it leaves is exactly the new picture if and only if that is opaque
      at the pixel, or the old picture was the same there. */
  lemma FadeFinishes(f: Fade, n: nat, paint: Paint, readings: seq<real>)
    requires n > 0 && f.pat2.Some? && f.ticks == 0 && |readings| >= n + 1 && 0.0 <= paint.alpha <= 1.0
    ensures var g := Ticks(f, n, paint, readings);
            && g.pat2.None? && g.pat1 == f.pat2
            && (g.pixel == paint.value <==> paint.alpha == 1.0 || f.pixel == paint.value)
  {
    var left := FadeProgress(f, n, paint, readings);
    NothingOld(paint.value, left, f.pixel);
  }

  /** What is composited is opaque everywhere exactly when there is a background colour or the image
      is opaque itself: only then does every fade end with the new picture and nothing of the old. */
  lemma OpaqueWhen(image: Image, flattenTo: Option<real>, w: nat, h: nat, x: int, y: int, background: real)
    ensures Target(Flattened(image, flattenTo), w, h, x, y, background).alpha == 1.0
       <==> flattenTo.Some? || image.alpha == 1.0 || !In(Placed(image, w, h), x, y)
    ensures image.alpha == 1.0 ==> Flattened(image, flattenTo) == image
    ensures image.alpha == 0.0 && flattenTo.Some? ==> Flattened(image, flattenTo).value == flattenTo.value
  {
  }

  /** The bound is tight: a slow reading at the last tick costs one tick more. */
  lemma SlowLastTick(f: Fade, paint: Paint)
    requires f.pat2.Some? && f.ticks == 0 && !f.disabled
    ensures Ticks(f, 1, paint, [1.0]).pat2.Some? && Ticks(f, 1, paint, [1.0, 1.0]).pat2.None?
  {
    assert [1.0, 1.0][..1] == [1.0] && [1.0][..0] == [];
    var g := Ticks(f, 1, paint, [1.0]);
    assert g == Tick(Ticks(f, 1, paint, []), 1, paint, 1.0);
    assert Slow(1, 1.0);
  }

  // ---------- the widget ----------

  class GSTESlideshow {
    const fadeTicksMax: nat      // N_FADE_TICKS
    const windowWidth: nat
    const windowHeight: nat
    const x: nat                 // the pixel followed
    const y: nat
    const background: real       // its channel value in the background colour, 0 without one
    const flattenTo: Option<real>   // the value transparent images are flattened onto, if there is a colour
    var pat1: Option<Image>
    var pat2: Option<Image>
    var alpha2: real
    var pat2rect: Rect
    var fadeTicks: nat
    var fadeDisabled: bool
    var pixel: real
    var loadScheduled: bool

    ghost predicate Laid()
      reads this`pat2, this`pat2rect
    {
      && fadeTicksMax > 0 && x < windowWidth && y < windowHeight
      && (pat2.Some? ==> pat2rect == Placed(pat2.value, windowWidth, windowHeight))
    }

    ghost predicate Valid()
      reads this`pat2, this`pat2rect, this`fadeTicks
    {
      Laid() && (pat2.Some? ==> fadeTicks < fadeTicksMax)
    }

    ghost function Value(): Fade
      reads this
    {
      Fade(pat1, pat2, fadeTicks, alpha2, fadeDisabled, pixel)
    }

    ghost function NewPixel(): Paint
      requires pat2.Some?
      reads this
    {
      Target(pat2.value, windowWidth, windowHeight, x, y, background)
    }

    constructor (n: nat, w: nat, h: nat, x: nat, y: nat, background: real, flattenTo: Option<real>)
      requires n > 0 && x < w && y < h
      ensures Valid() && pat2.None? && fadeTicksMax == n
    {
      fadeTicksMax, windowWidth, windowHeight, this.x, this.y := n, w, h, x, y;
      this.background, this.flattenTo := background, flattenTo;
      pat1, pat2, alpha2, pat2rect, fadeTicks, fadeDisabled := None, None, 0.0, Rect(0, 0, 0, 0), 0, false;
      pixel, loadScheduled := 0.0, false;
    }

    /** cairo_fill or cairo_paint of one area. */
    method Fill(area: Rect, paint: Paint, alpha: real)
      modifies `pixel
      ensures pixel == if In(area, x, y) then Composited(paint, alpha, old(pixel)) else old(pixel)
    {
      if In(area, x, y) {
        pixel := Composited(paint, alpha, pixel);
      }
    }

    method UpdateDisplay()
      requires Laid()
      modifies `pixel
      ensures pat2.Some? ==> pixel == Composited(NewPixel(), alpha2, old(pixel))
      ensures pat2.None? && pat1.None? ==> pixel == old(pixel)
    {
      if pat2.Some? {
        PaintedOnce(pat2.value, windowWidth, windowHeight, x, y);
        var color := Paint(background, 1.0);
        Fill(Rect(0, 0, windowWidth, pat2rect.top), color, alpha2);
        Fill(Rect(0, pat2rect.top, pat2rect.left, pat2rect.bottom), color, alpha2);
        Fill(Rect(0, pat2rect.bottom, windowWidth, windowHeight), color, alpha2);
        Fill(Rect(pat2rect.right, pat2rect.top, windowWidth, pat2rect.bottom), color, alpha2);
        Fill(pat2rect, Paint(pat2.value.value, pat2.value.alpha), alpha2);
      } else if pat1.Some? {
        Fill(Placed(pat1.value, windowWidth, windowHeight), Paint(pat1.value.value, pat1.value.alpha), 1.0);
      }
    }

    method StartFade(image: Image)
      requires Valid()
      modifies `pat2, `pat2rect, `fadeTicks
      ensures Valid() && Value() == old(Value()).(pat2 := Some(Flattened(image, flattenTo)), ticks := 0)
    {
      var pixbuf := image;
      if flattenTo.Some? {
        pixbuf := Flattened(image, flattenTo);
      }
      pat2 := Some(pixbuf);
      pat2rect := Placed(pixbuf, windowWidth, windowHeight);
      fadeTicks := 0;
    }

    method FinishFade()
      requires Laid()
      modifies `pat1, `pat2, `loadScheduled
      ensures Valid() && Value() == old(Value()).(pat1 := old(pat2), pat2 := None) && loadScheduled
    {
      pat1 := pat2;
      pat2 := None;
      loadScheduled := true;
    }

    method DrawIter(elapsed: real)
      requires Valid()
      modifies this
      ensures Valid()
      ensures old(pat2).None? ==> Value() == old(Value())
      ensures old(pat2).Some? ==> Value() == Tick(old(Value()), fadeTicksMax, old(NewPixel()), elapsed)
      ensures loadScheduled == (old(loadScheduled) || (old(pat2).Some? && pat2.None?))
    {
      if pat2.Some? {
        if fadeDisabled {
          alpha2 := 1.0;
          UpdateDisplay();
          FinishFade();
          return;
        }
        fadeTicks := fadeTicks + 1;
        DivisorPositive(fadeTicks - 1, fadeTicksMax);
        var oldOpacity := Opacity(fadeTicks - 1, fadeTicksMax);
        var newOpacity := Opacity(fadeTicks, fadeTicksMax);
        alpha2 := 1.0 - (1.0 - newOpacity) / (1.0 - oldOpacity);
        UpdateDisplay();
        if Slow(fadeTicks, elapsed) {
          fadeTicks := fadeTicksMax - 1;
          fadeDisabled := true;
        }
        if fadeTicks >= fadeTicksMax {
          FinishFade();
        }
      }
    }
  }
}

/**
 Which slide of a background slideshow is showing, and which of its files fits the screen best.
 Doubles are reals here.
 */
module SlideClock {
  import opened Basics
  import opened SlideParser

  // ---------- wrapping time ----------

  /** fmod: the remainder has the sign of x. */
  function Fmod(x: real, t: real): real
    requires t > 0.0
  {
    x - t * Truncated(x / t) as real
  }

  /** The first lines of get_current_slide. */
  function Wrapped(x: real, t: real): real
    requires t > 0.0
  {
    if Fmod(x, t) < 0.0 then Fmod(x, t) + t else Fmod(x, t)
  }

  /** x less whole turns of t. */
  function Turned(x: real, t: real, turns: int): real {
    x - t * turns as real
  }

  lemma TurnsOf(x: real, t: real)
    requires t > 0.0
    ensures 0.0 <= Turned(x, t, (x / t).Floor) < t
  {
    FloorPart(x, t, x / t);
  }

  lemma FloorPart(x: real, t: real, q: real)
    requires t > 0.0 && q == x / t
    ensures 0.0 <= Turned(x, t, q.Floor) < t
  {
    var f := q - q.Floor as real;
    assert x == q * t;
    assert Turned(x, t, q.Floor) == f * t;
    PartOf(f, t, Turned(x, t, q.Floor));
  }

  lemma PartOf(f: real, t: real, r: real)
    requires 0.0 <= f < 1.0 && t > 0.0 && r == f * t
    ensures 0.0 <= r < t
  {
    assert (1.0 - f) * t > 0.0;
    assert (1.0 - f) * t == t - r;
  }

  lemma TruncIs(q: real)
    ensures Truncated(q) == q.Floor || (q < 0.0 && Truncated(q) == q.Floor + 1 && q < Truncated(q) as real)
  {
  }

  lemma OneTurnMore(x: real, t: real, n: int)
    ensures Turned(x, t, n + 1) == Turned(x, t, n) - t
  {
    assert (n + 1) as real == n as real + 1.0;
  }

  /** The correction of a negative remainder makes the wrapped time a true modulus. */
  lemma WrappedIs(x: real, t: real)
    requires t > 0.0
    ensures Wrapped(x, t) == Turned(x, t, (x / t).Floor)
    ensures 0.0 <= Wrapped(x, t) < t
  {
    TurnsOf(x, t);
    TruncIs(x / t);
    OneTurnMore(x, t, (x / t).Floor);
  }

  lemma FloorShift(q: real, n: int)
    ensures (q + n as real).Floor == q.Floor + n
  {
  }

  lemma DivShift(x: real, t: real, n: int)
    requires t > 0.0
    ensures (x + t * n as real) / t == x / t + n as real
  {
  }

  /** Time wraps with the period t. */
  lemma WrappedPeriodic(x: real, t: real, n: int)
    requires t > 0.0
    ensures Wrapped(x + t * n as real, t) == Wrapped(x, t)
  {
    WrappedIs(x, t);
    WrappedIs(x + t * n as real, t);
    DivShift(x, t, n);
    FloorShift(x / t, n);
    TurnsAdd(x, t, (x / t).Floor, n);
  }

  lemma TurnsAdd(x: real, t: real, k: int, n: int)
    ensures Turned(x + t * n as real, t, k + n) == Turned(x, t, k)
  {
    assert (k + n) as real == k as real + n as real;
    assert t * (k as real + n as real) == t * k as real + t * n as real;
  }

  // ---------- the slide at a time ----------

  predicate Timed(slides: seq<Slide>) {
    forall k :: 0 <= k < |slides| ==> slides[k].duration >= 0.0
  }

  /** When slide k begins. */
  function Begins(slides: seq<Slide>, k: nat): real
    requires k <= |slides|
  {
    Sum(slides[..k])
  }

  predicate Shows(slides: seq<Slide>, k: nat, delta: real) {
    k < |slides| && Begins(slides, k) <= delta < Begins(slides, k) + slides[k].duration
  }

  lemma BeginsNext(slides: seq<Slide>, k: nat)
    requires k < |slides|
    ensures Begins(slides, k + 1) == Begins(slides, k) + slides[k].duration
  {
    assert slides[..k + 1][..k] == slides[..k];
  }

  lemma {:induction false} BeginsGrows(slides: seq<Slide>, i: nat, j: nat)
    requires i <= j <= |slides| && Timed(slides)
    ensures Begins(slides, i) <= Begins(slides, j)
    decreases j - i
  {
    if i < j {
      BeginsGrows(slides, i, j - 1);
      BeginsNext(slides, j - 1);
    }
  }

  /** No two slides show at the same time. */
  lemma OneSlideAtATime(slides: seq<Slide>, i: nat, j: nat, delta: real)
    requires Timed(slides) && Shows(slides, i, delta) && Shows(slides, j, delta)
    ensures i == j
  {
    if i < j {
      BeginsNext(slides, i);
      BeginsGrows(slides, i + 1, j);
    } else if j < i {
      BeginsNext(slides, j);
      BeginsGrows(slides, j + 1, i);
    }
  }

  method Wrap(x: real, t: real) returns (delta: real)
    requires t > 0.0
    ensures delta == Wrapped(x, t) && 0.0 <= delta < t
  {
    delta := Fmod(x, t);
    if delta < 0.0 {
      delta := delta + t;
    }
    WrappedIs(x, t);
  }

  /** get_current_slide: a slide is always found, it is the one whose half-open interval holds the
      wrapped time, and alpha is how far into it that time is.  Its duration is positive, so alpha is
      never a division by zero. */
  method GetCurrentSlide(slides: seq<Slide>, startTime: real, totalDuration: real, now: real)
    returns (slide: nat, alpha: real)
    requires Timed(slides) && totalDuration == Sum(slides) && totalDuration > 0.0
    ensures Shows(slides, slide, Wrapped(now - startTime, totalDuration)) && slides[slide].duration > 0.0
    ensures alpha * slides[slide].duration == Wrapped(now - startTime, totalDuration) - Begins(slides, slide)
    ensures 0.0 <= alpha < 1.0
  {
    var delta := Wrap(now - startTime, totalDuration);
    var elapsed := 0.0;
    var k := 0;
    assert slides[..|slides|] == slides;
    while k < |slides|
      invariant k <= |slides| && elapsed == Begins(slides, k) && elapsed <= delta
    {
      var s := slides[k];
      if elapsed + s.duration > delta {
        alpha := (delta - elapsed) / s.duration;
        Fraction(delta - elapsed, s.duration);
        return k, alpha;
      }
      BeginsNext(slides, k);
      elapsed := elapsed + s.duration;
      k := k + 1;
    }
    assert false;   // g_assert_not_reached
  }

  lemma Fraction(a: real, b: real)
    requires 0.0 <= a < b
    ensures 0.0 <= a / b < 1.0 && a / b * b == a
  {
  }

  /** The choice repeats with the period of the whole show. */
  lemma ChoicePeriodic(slides: seq<Slide>, x: real, n: int, i: nat, j: nat)
    requires Timed(slides) && Sum(slides) > 0.0
    requires Shows(slides, i, Wrapped(x, Sum(slides)))
             && Shows(slides, j, Wrapped(x + Sum(slides) * n as real, Sum(slides)))
    ensures i == j
  {
    WrappedPeriodic(x, Sum(slides), n);
    OneSlideAtATime(slides, i, j, Wrapped(x, Sum(slides)));
  }
}

module BestSize {
  import opened Basics
  import opened SlideParser

  const CUT_OFF := 10000.0

  /** Width over height, if that is a number at all: with height 0 the quotient is infinite or
      undefined and every comparison with it fails. */
  function Aspect(width: int, height: int): Option<real> {
    if height == 0 then None else Some(width as real / height as real)
  }

  function Abs(x: real): real {
    if x < 0.0 then -x else x
  }

  function AbsInt(x: int): nat {
    if x < 0 then -x else x
  }

  /** How far the shape of a file is from the shape asked for. */
  function Distance(f: FileSize, width: int, height: int): Option<real> {
    match (Aspect(width, height), Aspect(f.width, f.height))
    case (Some(a), Some(b)) => Some(Abs(a - b))
    case _ => None
  }

  predicate Fits(f: FileSize, width: int, height: int) {
    f.width >= width && f.height >= height
  }

  /** Can be chosen at all. */
  predicate Near(f: FileSize, width: int, height: int) {
    Distance(f, width, height).Some? && Distance(f, width, height).value < CUT_OFF
  }

  predicate Candidate(f: FileSize, width: int, height: int, onlyFitting: bool) {
    Near(f, width, height) && (onlyFitting ==> Fits(f, width, height))
  }

  /** f beats g: nearer in shape, or as near and nearer in width. */
  predicate Better(f: FileSize, g: FileSize, width: int, height: int)
    requires Near(f, width, height) && Near(g, width, height)
  {
    var d, e := Distance(f, width, height).value, Distance(g, width, height).value;
    d < e || (d == e && AbsInt(f.width - width) < AbsInt(g.width - width))
  }

  /** k is the first best candidate among the first n sizes. */
  ghost predicate FirstBest(sizes: seq<FileSize>, n: nat, k: nat, width: int, height: int, onlyFitting: bool)
    requires n <= |sizes|
  {
    && k < n && Candidate(sizes[k], width, height, onlyFitting)
    && forall j :: 0 <= j < n && Candidate(sizes[j], width, height, onlyFitting) ==>
         && !Better(sizes[j], sizes[k], width, height)
         && (j < k ==> Better(sizes[k], sizes[j], width, height))
  }

  ghost predicate NoCandidate(sizes: seq<FileSize>, n: nat, width: int, height: int, onlyFitting: bool)
    requires n <= |sizes|
  {
    forall j :: 0 <= j < n ==> !Candidate(sizes[j], width, height, onlyFitting)
  }

  /** One pass over the list. */
  method Pass(sizes: seq<FileSize>, width: int, height: int, onlyFitting: bool) returns (best: Option<nat>)
    ensures best.None? ==> NoCandidate(sizes, |sizes|, width, height, onlyFitting)
    ensures best.Some? ==> FirstBest(sizes, |sizes|, best.value, width, height, onlyFitting)
  {
    best := None;
    var distance := CUT_OFF;
    for i := 0 to |sizes|
      invariant best.None? ==> distance == CUT_OFF && NoCandidate(sizes, i, width, height, onlyFitting)
      invariant best.Some? ==> FirstBest(sizes, i, best.value, width, height, onlyFitting)
                               && Some(distance) == Distance(sizes[best.value], width, height)
    {
      var size := sizes[i];
      if !(onlyFitting && (size.width < width || size.height < height)) {
        var d := Distance(size, width, height);
        if d.Some? && d.value < distance {
          distance := d.value;
          best := Some(i);
        } else if d.Some? && d.value == distance && best.Some? {
          if AbsInt(size.width - width) < AbsInt(sizes[best.value].width - width) {
            best := Some(i);
          }
        }
      }
    }
  }

  /** find_best_size: the first of the best sizes at least as large as asked for if there is one
      within the cut-off, otherwise the first of the best of all sizes, and none exactly when no size
      is within the cut-off. */
  method FindBestSize(sizes: seq<FileSize>, width: int, height: int) returns (best: Option<nat>)
    ensures best.None? <==> NoCandidate(sizes, |sizes|, width, height, false)
    ensures best.Some? && !NoCandidate(sizes, |sizes|, width, height, true) ==>
              FirstBest(sizes, |sizes|, best.value, width, height, true)
    ensures best.Some? && NoCandidate(sizes, |sizes|, width, height, true) ==>
              FirstBest(sizes, |sizes|, best.value, width, height, false)
  {
    best := Pass(sizes, width, height, true);
    if best.None? {
      best := Pass(sizes, width, height, false);
    }
  }

  lemma Scaled(a: int, b: int)
    requires b != 0
    ensures (a as real / b as real) * b as real == a as real
  {
  }

  /** The distance compares shapes: cross-multiplied, it is the difference of the two products.  So it is
      0 exactly for files of the shape asked for, whatever their size. */
  lemma DistanceMeans(f: FileSize, width: int, height: int)
    requires height > 0 && f.height > 0
    ensures Distance(f, width, height).Some?
    ensures Distance(f, width, height).value * (height * f.height) as real
         == Abs((width * f.height) as real - (f.width * height) as real)
    ensures Distance(f, width, height).value == 0.0 <==> width * f.height == f.width * height
  {
    var a, b := width as real / height as real, f.width as real / f.height as real;
    var p := height as real * f.height as real;
    Scaled(width, height);
    Scaled(f.width, f.height);
    assert (height * f.height) as real == p > 0.0;
    CrossTimes(a, width, height, f.height);
    CrossTimes(b, f.width, f.height, height);
    AbsTimes(a, b, p);
  }

  lemma CrossTimes(a: real, n: int, d: int, m: int)
    requires a * d as real == n as real
    ensures a * (d as real * m as real) == (n * m) as real
  {
    assert a * (d as real * m as real) == a * d as real * m as real;
    assert n as real * m as real == (n * m) as real;
  }

  lemma AbsTimes(a: real, b: real, p: real)
    requires p > 0.0
    ensures Abs(a - b) * p == Abs(a * p - b * p)
    ensures Abs(a - b) == 0.0 <==> a * p == b * p
  {
    var d := a - b;
    assert a * p - b * p == d * p;
    assert d > 0.0 ==> d * p > 0.0;
    assert d < 0.0 ==> d * p < 0.0;
  }

  /** The first best size is unique, so find_best_size has one possible answer. */
  lemma FirstBestUnique(sizes: seq<FileSize>, n: nat, i: nat, j: nat, width: int, height: int, onlyFitting: bool)
    requires n <= |sizes|
    requires FirstBest(sizes, n, i, width, height, onlyFitting) && FirstBest(sizes, n, j, width, height, onlyFitting)
    ensures i == j
  {
  }

  /** A screen of height 0, and a file of height 0, never match anything. */
  lemma NoHeightNoMatch(sizes: seq<FileSize>, width: int, height: int)
    requires height == 0 || forall j :: 0 <= j < |sizes| ==> sizes[j].height == 0
    ensures NoCandidate(sizes, |sizes|, width, height, false)
  {
    if height != 0 {
      forall j | 0 <= j < |sizes| ensures !Candidate(sizes[j], width, height, false) {
        assert sizes[j].height == 0;
      }
    }
  }
}

/** Sponsor logo sizing (src/lib/sponsor-fit.ts), in exact arithmetic; a square root is what squares right. */
module SponsorFit {

  datatype LogoBox = LogoBox(mw: int, mh: int, area: int)

  /** A stored shape: a finite number, or one of the three that are not. */
  datatype Aspect = NotANumber | MinusInfinity | PlusInfinity | Finite(value: real)

  const ASPECT_LIMIT: real := 20.0

  function MaxReal(a: real, b: real): real {
    if a < b then b else a
  }

  function MinReal(a: real, b: real): real {
    if a < b then a else b
  }

  /** The shape drawn: a bad one is square, and no shape is beyond 20 to 1 either way. */
  function Clamped(aspect: Aspect): (r: real)
    ensures 1.0 <= 20.0 * r <= 400.0
  {
    match aspect
    case NotANumber => 1.0
    case MinusInfinity => 1.0
    case PlusInfinity => ASPECT_LIMIT
    case Finite(value) =>
      if value <= 0.0 then 1.0 else MinReal(ASPECT_LIMIT, MaxReal(1.0 / ASPECT_LIMIT, value))
  }

  predicate Root(w: real, x: real) {
    w >= 0.0 && w * w == x
  }

  /** The sides of the shape with the box's area. */
  predicate Sides(aspect: Aspect, box: LogoBox, w: real, h: real) {
    Root(w, box.area as real * Clamped(aspect)) && Root(h, box.area as real / Clamped(aspect))
  }

  function Scale(box: LogoBox, w: real, h: real): real
    requires w > 0.0 && h > 0.0
  {
    MinReal(1.0, MinReal(box.mw as real / w, box.mh as real / h))
  }

  function Round(x: real): int {
    (x + 0.5).Floor
  }

  datatype Size = Size(w: int, h: int)

  function SizeAt(w: real, h: real, k: real): Size {
    Size(Round(w * k), Round(h * k))
  }

  function FitLogo(box: LogoBox, w: real, h: real): Size
    requires w > 0.0 && h > 0.0
  {
    SizeAt(w, h, Scale(box, w, h))
  }

  /** At least a pixel each way, and never past the box. */
  predicate InBox(size: Size, box: LogoBox) {
    1 <= size.w <= box.mw && 1 <= size.h <= box.mh
  }

  // ----- arithmetic -----

  lemma Grows(a: real, b: real, c: real)
    requires 0.0 <= a <= b && 0.0 <= c
    ensures a * c <= b * c
  {
    assert (b - a) * c >= 0.0;
  }

  lemma GrowsStrictly(a: real, b: real)
    requires 0.0 <= a < b
    ensures a * a < b * b
  {
    Sign(b - a, b + a);
    assert b * b - a * a == (b - a) * (b + a);
  }

  lemma RootOnce(a: real, b: real)
    requires 0.0 <= a && 0.0 <= b && a * a == b * b
    ensures a == b
  {
    if a < b {
      GrowsStrictly(a, b);
    } else if b < a {
      GrowsStrictly(b, a);
    }
  }

  lemma DivTimes(x: real, y: real)
    requires y != 0.0
    ensures x / y * y == x
  {
  }

  lemma AtMostDiv(k: real, x: real, y: real)
    requires y > 0.0
    ensures k <= x / y <==> y * k <= x
    ensures k == x / y <==> y * k == x
  {
    DivTimes(x, y);
    assert y * k - x == (k - x / y) * y;
    Sign(k - x / y, y);
  }

  lemma Sign(d: real, y: real)
    requires y > 0.0
    ensures d * y <= 0.0 <==> d <= 0.0
    ensures d * y == 0.0 <==> d == 0.0
  {
    if d > 0.0 {
      assert d * y > 0.0;
    } else if d < 0.0 {
      assert (-d) * y > 0.0;
    }
  }

  lemma Product(p: real, q: real, x: real, y: real)
    requires p * p == x && q * q == y
    ensures (p * q) * (p * q) == x * y
  {
    assert (p * q) * (p * q) == (p * p) * (q * q);
  }

  function Apart(a: real, b: real): real {
    if a < b then b - a else a - b
  }

  /** The shape drawn is the nearest to the stored one from 1:20 to 20:1; a bad one is square. */
  lemma ClampedNearest(aspect: Aspect)
    ensures 0.05 <= Clamped(aspect) <= 20.0
    ensures aspect.PlusInfinity? ==> Clamped(aspect) == 20.0
    ensures aspect.NotANumber? || aspect.MinusInfinity? || (aspect.Finite? && aspect.value <= 0.0) ==>
              Clamped(aspect) == 1.0
    ensures aspect.Finite? && 0.0 < aspect.value ==>
              forall r :: 0.05 <= r <= 20.0 ==> Apart(aspect.value, Clamped(aspect)) <= Apart(aspect.value, r)
  {
  }

  /** A side is drawn at the nearest whole pixel, halves up. */
  lemma RoundNearest(x: real, n: int)
    ensures Round(x) == n <==> n as real - 0.5 <= x < n as real + 0.5
  {
  }

  /** Each side drawn is the nearest to the exact one. */
  lemma FitNearest(box: LogoBox, w: real, h: real)
    requires w > 0.0 && h > 0.0
    ensures var size, k := FitLogo(box, w, h), Scale(box, w, h);
            && size.w as real - 0.5 <= w * k < size.w as real + 0.5
            && size.h as real - 0.5 <= h * k < size.h as real + 0.5
  {
    var k := Scale(box, w, h);
    RoundNearest(w * k, Round(w * k));
    RoundNearest(h * k, Round(h * k));
  }

  // ----- the sides -----

  /** The sides are determined. */
  lemma SidesOnce(aspect: Aspect, box: LogoBox, w: real, h: real, v: real, g: real)
    requires Sides(aspect, box, w, h) && Sides(aspect, box, v, g)
    ensures w == v && h == g
  {
    RootOnce(w, v);
    RootOnce(h, g);
  }

  /** The sides have the clamped shape, and the box's area between them. */
  lemma SidesShape(aspect: Aspect, box: LogoBox, w: real, h: real)
    requires box.area >= 5 && Sides(aspect, box, w, h)
    ensures w > 0.0 && h > 0.0
    ensures w == Clamped(aspect) * h && w * h == box.area as real
  {
    var r, area := Clamped(aspect), box.area as real;
    AreaOverRatio(area, r);
    assert w * w > 0.0 && h * h > 0.0;
    Product(r, h, r * r, area / r);
    assert (r * r) * (area / r) == area * r by {
      DivTimes(area, r);
      assert (r * r) * (area / r) == r * (area / r * r);
    }
    assert r * h >= 0.0;
    RootOnce(w, r * h);
    Product(w, h, area * r, area / r);
    assert (area * r) * (area / r) == area * area by {
      DivTimes(area, r);
      assert (area * r) * (area / r) == area * (area / r * r);
    }
    assert w * h >= 0.0;
    RootOnce(w * h, area);
  }

  lemma AreaOverRatio(area: real, r: real)
    requires area >= 5.0 && 1.0 <= 20.0 * r <= 400.0
    ensures area * r >= 0.25 && area / r >= 0.25
  {
    Grows(5.0, area, r);
    DivTimes(area, r);
    var d := area / r - 0.25;
    assert d * r == area - 0.25 * r;
    Sign(d, r);
  }

  /** The scale: the largest, up to 1, at which both sides fit the box. */
  lemma ScaleIsLargest(box: LogoBox, w: real, h: real, k: real)
    requires w > 0.0 && h > 0.0
    ensures k <= Scale(box, w, h) <==> k <= 1.0 && w * k <= box.mw as real && h * k <= box.mh as real
  {
    AtMostDiv(k, box.mw as real, w);
    AtMostDiv(k, box.mh as real, h);
  }

  lemma PositiveScale(box: LogoBox, w: real, h: real)
    requires w > 0.0 && h > 0.0 && box.mw > 0 && box.mh > 0
    ensures Scale(box, w, h) > 0.0
  {
    PositiveDiv(box.mw as real, w);
    PositiveDiv(box.mh as real, h);
  }

  lemma PositiveDiv(x: real, y: real)
    requires x > 0.0 && y > 0.0
    ensures x / y > 0.0
  {
    DivTimes(x, y);
    Sign(x / y, y);
  }

  lemma KeepsShape(r: real, w: real, h: real, k: real)
    requires w == r * h
    ensures w * k == r * (h * k)
  {
  }

  lemma ShrinksArea(w: real, h: real, k: real, area: real)
    requires 0.0 < k <= 1.0 && w * h == area && 0.0 <= area
    ensures (w * k) * (h * k) <= area
  {
    Grows(0.0, k, k);
    Grows(k, 1.0, k);
    assert k * k <= k;
    Grows(k * k, 1.0, area);
    assert (w * k) * (h * k) == (k * k) * (w * h);
  }

  /** A scale at which the box is never passed, and a shrunk logo touches it. */
  predicate Fits(box: LogoBox, w: real, h: real, k: real) {
    && 0.0 < k <= 1.0
    && w * k <= box.mw as real && h * k <= box.mh as real
    && (k < 1.0 ==> w * k == box.mw as real || h * k == box.mh as real)
  }

  lemma ScaleFits(box: LogoBox, w: real, h: real)
    requires w > 0.0 && h > 0.0 && box.mw > 0 && box.mh > 0
    ensures Fits(box, w, h, Scale(box, w, h))
  {
    var k := Scale(box, w, h);
    AtMostDiv(k, box.mw as real, w);
    AtMostDiv(k, box.mh as real, h);
    PositiveScale(box, w, h);
  }

  /** At any scale up to 1, so before rounding: the shape is kept, and the area is never passed. */
  lemma FitExact(aspect: Aspect, box: LogoBox, w: real, h: real, k: real)
    requires box.area >= 5 && Sides(aspect, box, w, h) && 0.0 < k <= 1.0
    ensures w * k == Clamped(aspect) * (h * k)
    ensures (w * k) * (h * k) <= box.area as real
  {
    SidesShape(aspect, box, w, h);
    KeepsShape(Clamped(aspect), w, h, k);
    ShrinksArea(w, h, k, box.area as real);
  }

  // ----- after rounding -----

  lemma RoundWithin(x: real, m: int)
    requires 0.5 <= x <= m as real
    ensures 1 <= Round(x) <= m
  {
  }

  /** A side that touches the box leaves the other at least half a pixel. */
  lemma TouchIsEnough(x: real, y: real, r: real, box: LogoBox)
    requires box.mw >= 10 && box.mh >= 10 && 1.0 <= 20.0 * r <= 400.0
    requires 0.0 < y && x == r * y && (x == box.mw as real || y == box.mh as real)
    ensures x >= 0.5 && y >= 0.5
  {
    if y == box.mh as real {
      Grows(1.0, 20.0 * r, y);
      assert 20.0 * x == (20.0 * r) * y;
    } else {
      Grows(r, 20.0, y);
    }
  }

  lemma WholeIsEnough(aspect: Aspect, box: LogoBox, w: real, h: real)
    requires box.area >= 5 && Sides(aspect, box, w, h)
    ensures w >= 0.5 && h >= 0.5
  {
    AreaOverRatio(box.area as real, Clamped(aspect));
    HalfRoot(w);
    HalfRoot(h);
  }

  /** At a scale that fits, each side rounds to at least a pixel, and within the box. */
  lemma FitsAt(box: LogoBox, w: real, h: real, r: real, k: real)
    requires box.mw >= 10 && box.mh >= 10 && 1.0 <= 20.0 * r <= 400.0
    requires w == r * h && w >= 0.5 && h >= 0.5 && Fits(box, w, h, k)
    ensures InBox(SizeAt(w, h, k), box)
  {
    if k < 1.0 {
      KeepsShape(r, w, h, k);
      Sign(h, k);
      TouchIsEnough(w * k, h * k, r, box);
    }
    RoundWithin(w * k, box.mw);
    RoundWithin(h * k, box.mh);
  }

  lemma HalfRoot(w: real)
    requires w >= 0.0 && w * w >= 0.25
    ensures w >= 0.5
  {
    if w < 0.5 {
      GrowsStrictly(w, 0.5);
    }
  }

  lemma FitsShape(box: LogoBox, w: real, h: real, r: real)
    requires box.mw >= 10 && box.mh >= 10 && 1.0 <= 20.0 * r <= 400.0
    requires w == r * h && w >= 0.5 && h >= 0.5
    ensures InBox(FitLogo(box, w, h), box)
  {
    ScaleFits(box, w, h);
    FitsAt(box, w, h, r, Scale(box, w, h));
  }

  /** For every stored shape, however bad, and every usable box, the logo is drawn in the box. */
  lemma FitsBox(aspect: Aspect, box: LogoBox, w: real, h: real)
    requires box.mw >= 10 && box.mh >= 10 && box.area >= 5 && Sides(aspect, box, w, h)
    ensures w > 0.0 && h > 0.0 && InBox(FitLogo(box, w, h), box)
  {
    SidesShape(aspect, box, w, h);
    WholeIsEnough(aspect, box, w, h);
    FitsShape(box, w, h, Clamped(aspect));
  }

  /** Every box the site draws. */
  const SPONSOR_LOGO_BOXES: seq<LogoBox> := [
    LogoBox(320, 96, 17000), LogoBox(240, 72, 9600),
    LogoBox(176, 56, 5200), LogoBox(128, 44, 3400),
    LogoBox(128, 40, 2800), LogoBox(84, 30, 1500),
    LogoBox(80, 24, 1300), LogoBox(92, 32, 1900), LogoBox(52, 26, 700), LogoBox(150, 56, 5200)]

  lemma EverySponsorFits(aspect: Aspect, box: LogoBox, w: real, h: real)
    requires box in SPONSOR_LOGO_BOXES && Sides(aspect, box, w, h)
    ensures w > 0.0 && h > 0.0 && InBox(FitLogo(box, w, h), box)
  {
    FitsBox(aspect, box, w, h);
  }
}

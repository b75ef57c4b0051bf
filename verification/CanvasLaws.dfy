/**
  The canvas of a photo in whole numbers: the sides are scaled and rounded down, brought
  under the sum of 10000 in proportion, and a sliver is widened to a twentieth of its length.
*/
module CanvasLaws {
  import opened Collections
  import opened PhotoCanvas

  /** The exact side rounded down, but not to nothing. */
  predicate Floored(side: int, exact: real) {
    side >= 1 && side as real < exact + 1.0 && (side == 1 || side as real <= exact) && exact < side as real + 1.0
  }

  /** The part of `whole` in a sum of 10000. */
  function ShareOf(part: int, whole: int): real
    requires whole > 0
  {
    10000.0 * part as real / whole as real
  }

  predicate Reduced(a: int, b: int, p: int, q: int)
    requires a >= 1 && b >= 1
  {
    if a + b <= 10000 then p == a && q == b
    else Floored(p, ShareOf(a, a + b)) && Floored(q, ShareOf(b, a + b))
  }

  /** The longer side of a sliver next to a shorter one of a twentieth, within the sum. */
  predicate Broadened(longer: int, canvasLonger: int, canvasShorter: int) {
    && 20 * (canvasShorter - 1) < longer <= 20 * canvasShorter
    && canvasLonger == if longer + canvasShorter <= 10000 then longer else 10000 - canvasShorter
  }

  predicate Finished(p: int, q: int, canvas: Size) {
    if p > 20 * q then Broadened(p, canvas.width, canvas.height)
    else if q > 20 * p then Broadened(q, canvas.height, canvas.width)
    else canvas.width == p && canvas.height == q
  }

  // --- Shares of the sum ---

  lemma ShareTimes(part: int, whole: int) returns (x: real)
    requires whole > 0
    ensures x == ShareOf(part, whole) && x * whole as real == 10000.0 * part as real
  {
    x := ShareOf(part, whole);
  }

  lemma ScaledToShare(part: int, whole: int)
    requires whole > 0
    ensures part as real * (MAX_SUM as real / whole as real) == ShareOf(part, whole)
  {
    var k := MAX_SUM as real / whole as real;
    var x := ShareTimes(part, whole);
    assert k * whole as real == 10000.0;
    SameFactor(part as real * k, x, whole as real);
  }

  lemma SameFactor(x: real, y: real, n: real)
    requires n > 0.0 && x * n == y * n
    ensures x == y
  {
  }

  lemma ShareSum(a: int, b: int)
    requires a + b > 0
    ensures ShareOf(a, a + b) + ShareOf(b, a + b) == 10000.0
  {
    var x := ShareTimes(a, a + b);
    var y := ShareTimes(b, a + b);
    SameFactor(x + y, 10000.0, (a + b) as real);
  }

  lemma ShareAtMost(a: int, b: int, n: int)
    requires n > 0 && a <= 20 * b
    ensures ShareOf(a, n) <= 20.0 * ShareOf(b, n)
  {
    var x := ShareTimes(a, n);
    var y := ShareTimes(b, n);
    LessFactor(x, 20.0 * y, n as real);
  }

  lemma ShareMore(a: int, b: int, n: int)
    requires n > 0 && a > 20 * b
    ensures ShareOf(a, n) > 20.0 * ShareOf(b, n)
  {
    var x := ShareTimes(a, n);
    var y := ShareTimes(b, n);
    if x <= 20.0 * y {
      assert x * n as real <= 20.0 * y * n as real;
    }
  }

  lemma LessFactor(x: real, y: real, n: real)
    requires n > 0.0 && x * n <= y * n
    ensures x <= y
  {
  }

  lemma ShareIsPositive(part: int, whole: int)
    requires part >= 1 && whole > 0
    ensures ShareOf(part, whole) > 0.0
  {
  }

  lemma ShareInWhole(part: int, whole: int, side: int)
    requires whole > 0 && side as real <= ShareOf(part, whole) < side as real + 1.0
    ensures side * whole <= 10000 * part < side * whole + whole
  {
    ShareTimesSide(part, whole, side);
    WholeProduct(side, whole, side as real * whole as real);
    WholeBounds(side * whole, part, whole);
  }

  lemma ShareTimesSide(part: int, whole: int, side: int)
    requires whole > 0 && side as real <= ShareOf(part, whole) < side as real + 1.0
    ensures var y := side as real * whole as real; y <= 10000.0 * part as real < y + whole as real
  {
    var x := ShareTimes(part, whole);
    BetweenTimes(side as real, x, whole as real, 10000.0 * part as real);
  }

  lemma WholeProduct(a: int, b: int, x: real)
    requires x == a as real * b as real
    ensures x == (a * b) as real
  {
  }

  lemma WholeBounds(y: int, part: int, n: int)
    requires y as real <= 10000.0 * part as real < y as real + n as real
    ensures y <= 10000 * part < y + n
  {
  }

  lemma BetweenTimes(side: real, x: real, n: real, product: real)
    requires n > 0.0 && side <= x < side + 1.0 && x * n == product
    ensures side * n <= product < side * n + n
  {
    var above, below := x - side, side + 1.0 - x;
    assert above * n >= 0.0 && below * n > 0.0;
    assert below * n == side * n + n - product;
  }

  lemma Times(d: int, n: int)
    requires n > 0
    ensures d >= 1 ==> d * n >= n
    ensures d <= -1 ==> d * n <= -n
  {
  }

  lemma Quotient(x: int, n: int, q: int)
    requires n > 0 && q * n <= x < q * n + n
    ensures q == x / n
  {
    var r := x / n;
    assert r * n <= x < r * n + n;
    Times(q - r, n);
    assert (q - r) * n == q * n - r * n;
  }

  /** A share in whole numbers. */
  lemma ShareRoundedDown(part: int, whole: int, side: int)
    requires whole > 0 && side as real <= ShareOf(part, whole) < side as real + 1.0
    ensures side == 10000 * part / whole
  {
    ShareInWhole(part, whole, side);
    Quotient(10000 * part, whole, side);
  }

  // --- The canvas ---

  lemma ReducedExactly(s: Size)
    requires Positive(s)
    ensures Reduced(s.width, s.height, Fitted(s).width, Fitted(s).height)
  {
    var total := s.width + s.height;
    if total > 10000 {
      ScaledToShare(s.width, total);
      ScaledToShare(s.height, total);
      ShareIsPositive(s.width, total);
      ShareIsPositive(s.height, total);
    }
  }

  lemma FinishedExactly(f: Size)
    requires Positive(f)
    requires f.width + f.height <= 10000 || f == Size(10000, 1) || f == Size(1, 10000)
    ensures Finished(f.width, f.height, Shrunk(Widened(f)))
  {
    WidenedWhole(f);
    var w := Widened(f);
    if w.width + w.height > 10000 {
      if w.width >= w.height {
        ShrunkWide(w);
      } else {
        ShrunkTall(w);
      }
    }
  }

  lemma ScaledDown(s: Size, scale: real)
    requires Positive(s) && scale > 0.0
    ensures Floored(Scaled(s, scale).width, s.width as real * scale)
    ensures Floored(Scaled(s, scale).height, s.height as real * scale)
  {
    assert s.width as real * scale > 0.0 && s.height as real * scale > 0.0;
  }

  lemma CanvasOfSides(s: Size) returns (p: int, q: int)
    requires Positive(s)
    ensures Reduced(s.width, s.height, p, q) && Finished(p, q, Shrunk(Widened(Fitted(s))))
  {
    FittedBounds(s);
    ReducedExactly(s);
    FinishedExactly(Fitted(s));
    p, q := Fitted(s).width, Fitted(s).height;
  }

  /** The canvas for every source and scale, by way of the scaled and the reduced sides. */
  lemma CanvasInWholeNumbers(source: Size, scale: real) returns (a: int, b: int, p: int, q: int)
    requires Positive(source) && scale > 0.0
    ensures Floored(a, source.width as real * scale) && Floored(b, source.height as real * scale)
    ensures Reduced(a, b, p, q) && Finished(p, q, Canvas(source, scale))
  {
    var s := Scaled(source, scale);
    ScaledDown(source, scale);
    p, q := CanvasOfSides(s);
    a, b := s.width, s.height;
  }

  /** While the scaled sides are fit to be sent, they are the canvas. */
  lemma LegalSidesAreKept(source: Size, scale: real, a: int, b: int)
    requires Positive(source) && scale > 0.0
    requires a as real <= source.width as real * scale < a as real + 1.0
    requires b as real <= source.height as real * scale < b as real + 1.0
    requires a >= 1 && b >= 1 && a + b <= 10000 && a <= 20 * b && b <= 20 * a
    ensures Canvas(source, scale) == Size(a, b)
  {
    var a', b', p, q := CanvasInWholeNumbers(source, scale);
    assert a' == a && b' == b;
  }

  lemma AtFullScale(source: Size) returns (p: int, q: int)
    requires Positive(source)
    ensures Reduced(source.width, source.height, p, q) && Finished(p, q, Canvas(source, 1.0))
  {
    assert Scaled(source, 1.0) == source;
    p, q := CanvasOfSides(source);
  }

  predicate WithinAPixel(side: int, exact: real) {
    side as real - 1.0 < exact < side as real + 1.0
  }

  lemma ProportionateSides(x: real, y: real, p: int, q: int, c: Size)
    requires x > 0.0 && y > 0.0 && x + y == 10000.0 && x <= 20.0 * y && y <= 20.0 * x
    requires Floored(p, x) && Floored(q, y) && Finished(p, q, c)
    ensures 9999 <= c.width + c.height <= 10000 && WithinAPixel(c.width, x) && WithinAPixel(c.height, y)
    ensures c == Size(p, q) || (p == 9523 && q == 476 && c == Size(9523, 477))
                            || (p == 476 && q == 9523 && c == Size(477, 9523))
    ensures p as real <= x && q as real <= y
  {
    assert p >= 476 && q >= 476;
  }

  /**
    A proportionate source over the sum is brought to it, each side its share rounded down;
    only where that tips the ratio over 20 to 1 is the shorter side the share rounded up.
  */
  lemma ProportionsAreKept(source: Size)
    requires Positive(source) && source.width + source.height > 10000
    requires source.width <= 20 * source.height && source.height <= 20 * source.width
    ensures var c, n := Canvas(source, 1.0), source.width + source.height;
      var p, q := 10000 * source.width / n, 10000 * source.height / n;
      && 9999 <= c.width + c.height <= 10000
      && WithinAPixel(c.width, ShareOf(source.width, n)) && WithinAPixel(c.height, ShareOf(source.height, n))
      && (|| c == Size(p, q)
          || (p == 9523 && q == 476 && c == Size(9523, 477))
          || (p == 476 && q == 9523 && c == Size(477, 9523)))
  {
    var p, q := AtFullScale(source);
    var a, b, n := source.width, source.height, source.width + source.height;
    ShareSum(a, b);
    ShareAtMost(a, b, n);
    ShareAtMost(b, a, n);
    ShareIsPositive(a, n);
    ShareIsPositive(b, n);
    ProportionateSides(ShareOf(a, n), ShareOf(b, n), p, q, Canvas(source, 1.0));
    ShareRoundedDown(a, n, p);
    ShareRoundedDown(b, n, q);
  }

  /** A sliver within the sum: a twentieth of the length, and what the sum leaves of it. */
  lemma SliverWithinSum(source: Size)
    requires 1 <= source.height && source.width > 20 * source.height
    requires source.width + source.height <= 10000
    ensures var t := (source.width + 19) / 20;
      Canvas(source, 1.0) == Size(if source.width + t <= 10000 then source.width else 10000 - t, t)
  {
    var p, q := AtFullScale(source);
  }

  lemma SliverSides(x: real, y: real, p: int, q: int, c: Size)
    requires x > 0.0 && y > 0.0 && x + y == 10000.0 && x > 20.0 * y
    requires Floored(p, x) && Floored(q, y) && Finished(p, q, c)
    ensures p as real <= x
    ensures 477 <= (p + 19) / 20 <= 500 && c == Size(10000 - (p + 19) / 20, (p + 19) / 20)
  {
    assert q <= 476 && p >= 9523;
  }

  /** A sliver over the sum uses the whole of it: between 477 and 500 for the shorter side. */
  lemma SliverOverSum(source: Size)
    requires 1 <= source.height && source.width > 20 * source.height
    requires source.width + source.height > 10000
    ensures var t := (10000 * source.width / (source.width + source.height) + 19) / 20;
      477 <= t <= 500 && Canvas(source, 1.0) == Size(10000 - t, t)
  {
    var p, q := AtFullScale(source);
    var a, b, n := source.width, source.height, source.width + source.height;
    ShareSum(a, b);
    ShareMore(a, b, n);
    ShareIsPositive(a, n);
    ShareIsPositive(b, n);
    SliverSides(ShareOf(a, n), ShareOf(b, n), p, q, Canvas(source, 1.0));
    ShareRoundedDown(a, n, p);
  }

  // --- The attempts ---

  predicate IsAttempt(encode: Encoder, attempt: nat, t: Try) {
    && (attempt == 0 ==> t.bytes == encode(t.layout, 90))
    && (attempt == 1 ==> t.bytes == encode(t.layout, 82))
    && (attempt == 2 ==> t.bytes == encode(t.layout, 74))
    && (attempt == 3 ==> t.bytes == encode(t.layout, 66))
    && (attempt == 4 ==> t.bytes == encode(t.layout, 58))
  }

  predicate SidesOf(source: Size, scale: real, a: int, b: int, p: int, q: int, canvas: Size) {
    && Floored(a, source.width as real * scale) && Floored(b, source.height as real * scale)
    && Reduced(a, b, p, q) && Finished(p, q, canvas)
  }

  /** The canvas comes from sides that are scaled, reduced and finished as above. */
  ghost predicate FromSides(source: Size, scale: real, canvas: Size) {
    exists a: int, b: int, p: int, q: int :: SidesOf(source, scale, a, b, p, q, canvas)
  }

  lemma CanvasFromSides(source: Size, scale: real)
    requires Positive(source) && scale > 0.0
    ensures FromSides(source, scale, Canvas(source, scale))
  {
    var a, b, p, q := CanvasInWholeNumbers(source, scale);
    assert SidesOf(source, scale, a, b, p, q, Canvas(source, scale));
  }

  lemma TryHasCanvas(source: Size, encode: Encoder, attempt: nat, t: Try)
    requires Positive(source) && attempt < 5 && IsTry(source, encode, attempt, t)
    ensures t.image == Canvas(source, t.scale)
  {
    assert IsCanvas(source, t.scale, Canvas(source, t.scale));
  }

  lemma TryInDetail(source: Size, encode: Encoder, attempt: nat, t: Try)
    requires Positive(source) && attempt < 5 && IsTry(source, encode, attempt, t) && t.scale > 0.0
    ensures FromSides(source, t.scale, t.image) && IsLayout(source, t.image, t.layout) && IsAttempt(encode, attempt, t)
  {
    TryHasCanvas(source, encode, attempt, t);
    CanvasFromSides(source, t.scale);
  }

  function ScaleOf(shrink: nat -> real, tries: seq<Try>, i: nat): real
    requires i < |tries|
  {
    if i == 0 then 1.0 else tries[i - 1].scale * shrink(tries[i - 1].bytes)
  }

  lemma {:induction false} RunPrefix(source: Size, encode: Encoder, shrink: nat -> real, tries: seq<Try>, k: nat)
    requires Positive(source) && IsRun(source, encode, shrink, tries) && k <= |tries|
    ensures IsRun(source, encode, shrink, tries[..k])
    decreases |tries|
  {
    if k == |tries| {
      assert tries[..k] == tries;
    } else {
      var before := tries[..|tries| - 1];
      RunPrefix(source, encode, shrink, before, k);
      assert before[..k] == tries[..k];
    }
  }

  lemma {:induction false} ScaleIsPositive(source: Size, encode: Encoder, shrink: nat -> real, tries: seq<Try>)
    requires Positive(source) && IsRun(source, encode, shrink, tries) && tries != []
    requires forall n :: 0.0 < shrink(n) <= 0.85
    ensures tries[|tries| - 1].scale > 0.0
  {
    if |tries| > 1 {
      var before := tries[..|tries| - 1];
      ScaleIsPositive(source, encode, shrink, before);
      PositiveProduct(before[|before| - 1].scale, shrink(before[|before| - 1].bytes));
    }
  }

  lemma ScaleFollows(shrink: nat -> real, tries: seq<Try>, i: nat)
    requires i < |tries|
    ensures NextScale(shrink, tries[..i]) == ScaleOf(shrink, tries, i)
  {
  }

  lemma RunEndsWithTry(source: Size, encode: Encoder, shrink: nat -> real, tries: seq<Try>)
    requires Positive(source) && IsRun(source, encode, shrink, tries) && tries != []
    requires forall n :: 0.0 < shrink(n) <= 0.85
    ensures |tries| <= 5
    ensures var i := |tries| - 1;
      tries[i].scale == NextScale(shrink, tries[..i]) && tries[i].scale > 0.0 && IsTry(source, encode, i, tries[i])
  {
    ScaleIsPositive(source, encode, shrink, tries);
  }

  /**
    Any attempt of a run: full scale first, each later one by the factor of the last size,
    on the canvas for that scale, with the quality going down from 90 by 8.
  */
  lemma RunOfAttempts(source: Size, encode: Encoder, shrink: nat -> real, tries: seq<Try>, i: nat)
    requires Positive(source) && IsRun(source, encode, shrink, tries) && i < |tries|
    requires forall n :: 0.0 < shrink(n) <= 0.85
    ensures |tries| <= 5
    ensures tries[i].scale == ScaleOf(shrink, tries, i) && tries[i].scale > 0.0
    ensures FromSides(source, tries[i].scale, tries[i].image)
    ensures IsLayout(source, tries[i].image, tries[i].layout) && IsAttempt(encode, i, tries[i])
  {
    RunPrefix(source, encode, shrink, tries, i + 1);
    RunEndsWithTry(source, encode, shrink, tries[..i + 1]);
    assert tries[..i + 1][..i] == tries[..i];
    ScaleFollows(shrink, tries, i);
    TryInDetail(source, encode, i, tries[i]);
  }

  lemma PositiveProduct(x: real, y: real)
    requires x > 0.0 && y > 0.0
    ensures x * y > 0.0
  {
  }
}

/**
  The photo that is sent to Telegram: the canvas it is drawn on, its place on the canvas,
  and the attempts to make it small enough. Numbers are exact; the bounds are proved from
  any pair of positive sides, so they do not rest on a scaled side being exact.
*/
module PhotoCanvas {
  import opened Collections

  datatype Size = Size(width: int, height: int)

  const MAX_BYTES := 10485760
  const MAX_SUM := 10000
  const MAX_RATIO := 20

  predicate Positive(s: Size) {
    s.width >= 1 && s.height >= 1
  }

  /** What Telegram takes, in whole numbers. */
  predicate Legal(s: Size) {
    && s.width >= 1 && s.height >= 1 && s.width + s.height <= 10000
    && s.width <= 20 * s.height && s.height <= 20 * s.width
  }

  function Swap(s: Size): Size {
    Size(s.height, s.width)
  }

  function Max(a: int, b: int): int {
    if a >= b then a else b
  }

  function Min(a: int, b: int): int {
    if a <= b then a else b
  }

  function Ceil(x: real): int {
    -((-x).Floor)
  }

  /** `Math.round`: halves are rounded up. */
  function Round(x: real): int {
    (x + 0.5).Floor
  }

  // --- The check ---

  predicate TooWide(a: int, b: int)
    requires b != 0
  {
    a as real / b as real > MAX_RATIO as real
  }

  /** The check of `validateTelegramPhoto` on the dimensions read from the file. */
  predicate PhotoAccepted(s: Size)
    requires s.width >= 0 && s.height >= 0
  {
    s.width != 0 && s.height != 0 &&
    !(s.width + s.height > MAX_SUM || TooWide(Max(s.width, s.height), Min(s.width, s.height)))
  }

  lemma RatioAbove(a: int, b: int)
    requires b > 0
    ensures TooWide(a, b) <==> a > MAX_RATIO * b
  {
    var q := a as real / b as real;
    assert q * b as real == a as real;
    if q > MAX_RATIO as real {
      assert q * b as real > MAX_RATIO as real * b as real;
    } else {
      assert q * b as real <= MAX_RATIO as real * b as real;
    }
  }

  /** The check accepts exactly the legal sizes. */
  lemma AcceptedIffLegal(s: Size)
    requires s.width >= 0 && s.height >= 0
    ensures PhotoAccepted(s) <==> Legal(s)
  {
    if Positive(s) {
      RatioAbove(Max(s.width, s.height), Min(s.width, s.height));
    }
  }

  // --- The canvas ---

  /** Both sides times the scale, rounded down, but not to nothing. */
  function Scaled(s: Size, scale: real): (r: Size)
    ensures Positive(r)
  {
    Size(Max(1, (s.width as real * scale).Floor), Max(1, (s.height as real * scale).Floor))
  }

  function Fitted(s: Size): (r: Size)
    requires Positive(s)
    ensures Positive(r)
  {
    if s.width + s.height > MAX_SUM then Scaled(s, MAX_SUM as real / (s.width + s.height) as real) else s
  }

  function Twentieth(a: int): int {
    Ceil(a as real / MAX_RATIO as real)
  }

  /** The shorter side is raised until the sides are proportionate. */
  function Widened(s: Size): Size
    requires Positive(s)
  {
    var height := if TooWide(s.width, s.height) then Twentieth(s.width) else s.height;
    Size(if TooWide(height, s.width) then Twentieth(height) else s.width, height)
  }

  function Shrunk(s: Size): Size
    decreases s.width + s.height
  {
    if s.width + s.height <= MAX_SUM then s
    else if s.width >= s.height then Shrunk(s.(width := s.width - 1))
    else Shrunk(s.(height := s.height - 1))
  }

  function Canvas(source: Size, scale: real): Size {
    Shrunk(Widened(Fitted(Scaled(source, scale))))
  }

  /** The final loop. */
  method ShrinkToSum(s: Size) returns (r: Size)
    ensures r == Shrunk(s)
  {
    var width, height := s.width, s.height;
    while width + height > MAX_SUM
      invariant Shrunk(Size(width, height)) == Shrunk(s)
      decreases width + height
    {
      if width >= height {
        width := width - 1;
      } else {
        height := height - 1;
      }
    }
    return Size(width, height);
  }

  method TelegramPhotoCanvas(source: Size, scale: real) returns (canvas: Size)
    requires Positive(source) && scale > 0.0
    ensures canvas == Canvas(source, scale)
  {
    var size := Scaled(source, scale);
    if size.width + size.height > MAX_SUM {
      size := Scaled(size, MAX_SUM as real / (size.width + size.height) as real);
    }
    var width, height := size.width, size.height;
    if TooWide(width, height) {
      height := Twentieth(width);
    }
    if TooWide(height, width) {
      width := Twentieth(height);
    }
    canvas := ShrinkToSum(Size(width, height));
  }

  /** Scaling down to the sum overshoots by at most one, and only for a sliver. */
  lemma FittedBounds(s: Size)
    requires Positive(s)
    ensures var f := Fitted(s);
      (f.width + f.height <= MAX_SUM || f == Size(MAX_SUM, 1) || f == Size(1, MAX_SUM))
  {
    var total := s.width + s.height;
    if total > MAX_SUM {
      var k := MAX_SUM as real / total as real;
      var w, h := s.width as real * k, s.height as real * k;
      assert w + h == total as real * k == MAX_SUM as real;
    }
  }

  /** Shrinking takes everything from the larger side, as long as the other is at most half. */
  lemma {:induction false} ShrunkWide(s: Size)
    requires s.width + s.height > MAX_SUM && s.width >= s.height && 1 <= s.height <= MAX_SUM / 2
    ensures Shrunk(s) == Size(MAX_SUM - s.height, s.height)
    decreases s.width
  {
    if s.width + s.height > MAX_SUM + 1 {
      ShrunkWide(s.(width := s.width - 1));
    }
  }

  lemma {:induction false} ShrunkTall(s: Size)
    requires s.width + s.height > MAX_SUM && s.height > s.width && 1 <= s.width <= MAX_SUM / 2
    ensures Shrunk(s) == Size(s.width, MAX_SUM - s.width)
    decreases s.height
  {
    if s.width + s.height > MAX_SUM + 1 {
      ShrunkTall(s.(height := s.height - 1));
    }
  }

  /** From any positive pair of proportionate sides the loop ends with a legal size. */
  lemma {:induction false} ShrunkLegal(s: Size)
    requires Positive(s) && s.width <= MAX_RATIO * s.height && s.height <= MAX_RATIO * s.width
    ensures Legal(Shrunk(s))
    decreases s.width + s.height
  {
    if s.width + s.height > MAX_SUM {
      ShrunkLegal(if s.width >= s.height then s.(width := s.width - 1) else s.(height := s.height - 1));
    }
  }

  lemma CeilTwentieth(a: int)
    requires a > 0
    ensures Twentieth(a) == (a + 19) / 20
  {
    var q := (a + 19) / 20;
    assert a as real / 20.0 <= q as real && q as real < a as real / 20.0 + 1.0;
  }

  /** The same in whole numbers. */
  lemma WidenedWhole(s: Size)
    requires Positive(s)
    ensures Widened(s) ==
      if s.width > MAX_RATIO * s.height then Size(s.width, (s.width + 19) / 20)
      else if s.height > MAX_RATIO * s.width then Size((s.height + 19) / 20, s.height)
      else s
  {
    RatioAbove(s.width, s.height);
    CeilTwentieth(s.width);
    CeilTwentieth(s.height);
    if s.width > MAX_RATIO * s.height {
      RatioAbove((s.width + 19) / 20, s.width);
    } else {
      RatioAbove(s.height, s.width);
    }
  }

  /** Whatever the source and the scale, the canvas is one that Telegram takes. */
  lemma CanvasLegal(source: Size, scale: real)
    ensures Legal(Canvas(source, scale))
  {
    var s := Scaled(source, scale);
    WidenedWhole(Fitted(s));
    ShrunkLegal(Widened(Fitted(s)));
  }

  /** At scale one a source is its own canvas exactly when it is legal. */
  lemma OwnCanvasIffLegal(source: Size)
    requires Positive(source)
    ensures Canvas(source, 1.0) == source <==> Legal(source)
  {
    CanvasLegal(source, 1.0);
    assert Scaled(source, 1.0) == source;
    if Legal(source) {
      WidenedWhole(source);
    }
  }

  lemma ShrunkSwap(s: Size)
    requires Positive(s)
    requires s.width + s.height > MAX_SUM ==> Min(s.width, s.height) <= MAX_SUM / 2 && s.width != s.height
    ensures Shrunk(Swap(s)) == Swap(Shrunk(s))
  {
    if s.width + s.height > MAX_SUM {
      if s.width > s.height {
        ShrunkWide(s);
        ShrunkTall(Swap(s));
      } else {
        ShrunkTall(s);
        ShrunkWide(Swap(s));
      }
    }
  }

  lemma WidenedSwap(f: Size)
    requires Positive(f)
    requires f.width + f.height <= MAX_SUM || f == Size(MAX_SUM, 1) || f == Size(1, MAX_SUM)
    ensures Widened(Swap(f)) == Swap(Widened(f)) && Positive(Widened(f))
    ensures var w := Widened(f); w.width + w.height > MAX_SUM ==> Min(w.width, w.height) <= MAX_SUM / 2 && w.width != w.height
  {
    WidenedWhole(f);
    WidenedWhole(Swap(f));
  }

  lemma FittedSwap(s: Size)
    requires Positive(s)
    ensures Fitted(Swap(s)) == Swap(Fitted(s))
  {
  }

  /** Turning the source by a quarter turns the canvas: the tie-break never matters. */
  lemma CanvasSwap(source: Size, scale: real)
    ensures Canvas(Swap(source), scale) == Swap(Canvas(source, scale))
  {
    var s := Scaled(source, scale);
    assert Scaled(Swap(source), scale) == Swap(s);
    FittedSwap(s);
    FittedBounds(s);
    WidenedSwap(Fitted(s));
    ShrunkSwap(Widened(Fitted(s)));
  }

  // --- The place of the image on the canvas ---

  datatype Layout = Layout(content: Size, left: int, right: int, top: int, bottom: int)

  method PlaceOnCanvas(source: Size, target: Size) returns (l: Layout)
    requires Positive(source) && Positive(target)
    ensures IsLayout(source, target, l)
  {
    var resizedWidth := Min(source.width, target.width);
    var resizedHeight := Min(source.height, target.height);
    var resizedAspect := source.width as real / source.height as real;
    var contentWidth := resizedWidth;
    var contentHeight := Max(1, Round(contentWidth as real / resizedAspect));
    if contentHeight > resizedHeight {
      WiderThanTall(resizedWidth, resizedHeight, resizedAspect);
      contentHeight := resizedHeight;
      contentWidth := Max(1, Round(contentHeight as real * resizedAspect));
    }
    var left := (target.width - contentWidth) / 2;
    var right := target.width - contentWidth - left;
    var top := (target.height - contentHeight) / 2;
    var bottom := target.height - contentHeight - top;
    l := Layout(Size(contentWidth, contentHeight), left, right, top, bottom);
  }

  /** If the height that goes with the full width is too much, the width for the full height fits. */
  lemma WiderThanTall(width: int, height: int, aspect: real)
    requires width >= 1 && height >= 1 && aspect > 0.0
    requires Max(1, Round(width as real / aspect)) > height
    ensures Max(1, Round(height as real * aspect)) <= width
  {
    var q := width as real / aspect;
    assert q * aspect == width as real;
    assert q > height as real;
    assert height as real * aspect < width as real;
  }

  predicate WithinHalf(n: int, exact: real) {
    exact - 0.5 <= n as real <= exact + 0.5
  }

  /** One side is the given one; the other is rounded from it by the aspect, at least one pixel. */
  predicate Proportional(given: int, other: int, exact: real) {
    WithinHalf(other, exact) || (other == 1 && exact < 0.5)
  }

  predicate IsAspect(source: Size, aspect: real)
    requires Positive(source)
  {
    aspect == source.width as real / source.height as real
  }

  /** The content fills one of the two sides it may have and keeps the proportions up to rounding. */
  predicate Fills(source: Size, target: Size, c: Size, aspect: real) {
    && aspect > 0.0
    && ((c.width == Min(source.width, target.width) && Proportional(c.width, c.height, c.width as real / aspect))
        || (c.height == Min(source.height, target.height) && Proportional(c.height, c.width, c.height as real * aspect)))
  }

  /**
    The image fits its source and the canvas, fills one of the two sides available to it,
    keeps its proportions up to rounding, and is centred within one pixel.
  */
  ghost predicate IsLayout(source: Size, target: Size, l: Layout)
    requires Positive(source)
  {
    var c := l.content;
    && 1 <= c.width <= Min(source.width, target.width)
    && 1 <= c.height <= Min(source.height, target.height)
    && (forall aspect :: IsAspect(source, aspect) ==> Fills(source, target, c, aspect))
    && 0 <= l.left <= l.right <= l.left + 1 && l.left + c.width + l.right == target.width
    && 0 <= l.top <= l.bottom <= l.top + 1 && l.top + c.height + l.bottom == target.height
  }

  // --- The attempts ---

  const ATTEMPTS := 5

  function Quality(attempt: nat): nat
    requires attempt < ATTEMPTS
  {
    90 - 8 * attempt
  }

  /** The image library: the size in bytes of what it encodes. */
  type Encoder = (Layout, nat) -> nat

  /** `scale *= ...`, where `shrink` is `Math.min(0.85, Math.sqrt(...))` of the last size. */
  function Rescaled(scale: real, factor: real): (r: real)
    requires scale > 0.0 && factor > 0.0
    ensures r > 0.0
  {
    scale * factor
  }

  predicate IsCanvas(source: Size, scale: real, canvas: Size) {
    canvas == Canvas(source, scale)
  }

  /** An attempt: the image laid out on the canvas for a scale, and the size it comes out with. */
  datatype Try = Try(scale: real, image: Size, layout: Layout, bytes: nat)

  ghost predicate IsTry(source: Size, encode: Encoder, attempt: nat, t: Try)
    requires Positive(source) && attempt < ATTEMPTS
  {
    && (forall canvas :: IsCanvas(source, t.scale, canvas) ==> t.image == canvas)
    && IsLayout(source, t.image, t.layout)
    && t.bytes == encode(t.layout, Quality(attempt))
  }

  method Attempt(source: Size, encode: Encoder, attempt: nat, scale: real) returns (t: Try)
    requires Positive(source) && attempt < ATTEMPTS && scale > 0.0
    ensures IsTry(source, encode, attempt, t) && t.scale == scale
    ensures PhotoAccepted(t.image) && Legal(t.image)
  {
    var target := TelegramPhotoCanvas(source, scale);
    CanvasLegal(source, scale);
    var l := PlaceOnCanvas(source, target);
    var image := Size(l.left + l.content.width + l.right, l.top + l.content.height + l.bottom);
    AcceptedIffLegal(image);
    t := Try(scale, image, l, encode(l, Quality(attempt)));
  }

  function NextScale(shrink: nat -> real, tries: seq<Try>): real {
    if tries == [] then 1.0 else tries[|tries| - 1].scale * shrink(tries[|tries| - 1].bytes)
  }

  /** A run of attempts: the first at full scale, each later one rescaled by the size before it. */
  ghost predicate IsRun(source: Size, encode: Encoder, shrink: nat -> real, tries: seq<Try>)
    requires Positive(source)
  {
    |tries| <= ATTEMPTS &&
    (tries == [] ||
      var before, last := tries[..|tries| - 1], tries[|tries| - 1];
      && IsRun(source, encode, shrink, before)
      && IsTry(source, encode, |before|, last) && last.scale == NextScale(shrink, before))
  }

  predicate TooLarge(tries: seq<Try>) {
    forall i :: 0 <= i < |tries| ==> tries[i].bytes > 10485760
  }

  /**
    The photo branch of `prepareMediaForTelegram`: the first of at most five attempts that
    is small enough. Its own validation never rejects what it made.
  */
  method PreparePhoto(source: Size, encode: Encoder, shrink: nat -> real)
      returns (r: Option<Try>, ghost tries: seq<Try>)
    requires Positive(source)
    requires forall n :: 0.0 < shrink(n) <= 0.85
    ensures IsRun(source, encode, shrink, tries) && |tries| > 0
    ensures r.None? ==> |tries| == ATTEMPTS && TooLarge(tries)
    ensures r.Some? ==> r.value == tries[|tries| - 1] && TooLarge(tries[..|tries| - 1])
    ensures r.Some? ==> r.value.bytes <= 10485760 && Legal(r.value.image)
  {
    var scale := 1.0;
    tries := [];
    for i := 0 to ATTEMPTS
      invariant |tries| == i && scale > 0.0 && scale == NextScale(shrink, tries)
      invariant IsRun(source, encode, shrink, tries) && TooLarge(tries)
    {
      var t := Attempt(source, encode, i, scale);
      ghost var before := tries;
      tries := tries + [t];
      assert tries[..i] == before;
      if t.bytes <= MAX_BYTES {
        return Some(t), tries;
      }
      scale := Rescaled(scale, shrink(t.bytes));
    }
    return None, tries;
  }
}

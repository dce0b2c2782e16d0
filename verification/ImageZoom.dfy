/** The bounding box of the zoom-in tool, over exact reals: clamped to the image, and enlarged around its
    centre when it is too small. */
module ImageZoom {
  import opened Wrappers
  import opened RealArithmetic

  const MIN_DIMENSION := 28

  datatype Box = Box(left: real, top: real, right: real, bottom: real)

  function Min(x: real, y: real): real {
    if x <= y then x else y
  }

  function Max(x: real, y: real): real {
    if x >= y then x else y
  }

  function Ceil(x: real): int {
    -(-x).Floor
  }

  /** `_validate_bbox`. */
  predicate ValidBox(b: Box) {
    && b.left < b.right && b.top < b.bottom
    && var w, h := b.right - b.left, b.bottom - b.top;
       Max(h, w) / Min(h, w) <= 100.0
  }

  function Clamped(b: Box, width: int, height: int): Box {
    Box(Max(0.0, b.left), Max(0.0, b.top), Min(width as real, b.right), Min(height as real, b.bottom))
  }

  /** The net scale: what brings the smaller side to the minimum, unless a side of the image comes first. */
  function NetScale(w: real, h: real, width: int, height: int): real
    requires w > 0.0 && h > 0.0
  {
    Min(28.0 / Min(h, w), Min(width as real / w, height as real / h))
  }

  /** The start of a side of this size: centred, and moved into 0 to limit. */
  function Placed(center: real, size: real, limit: real): real {
    Max(0.0, Min(center - size / 2.0, limit - size))
  }

  predicate TooSmall(b: Box) {
    b.bottom - b.top < 28.0 || b.right - b.left < 28.0
  }

  function TargetSize(w: real, h: real, width: int, height: int): (real, real)
    requires w > 0.0 && h > 0.0
  {
    var s := NetScale(w, h, width, height);
    (w * s, h * s)
  }

  /** The enlarged box of a clamped one. */
  function Enlarged(b: Box, width: int, height: int): Box
    requires b.left < b.right && b.top < b.bottom
  {
    var w, h := b.right - b.left, b.bottom - b.top;
    var (targetWidth, targetHeight) := TargetSize(w, h, width, height);
    Sized(b, targetWidth, targetHeight, width, height)
  }

  /** A box of this size around the centre of b, rounded outwards. */
  function Sized(b: Box, targetWidth: real, targetHeight: real, width: int, height: int): Box {
    var left := Placed((b.left + b.right) / 2.0, targetWidth, width as real);
    var top := Placed((b.top + b.bottom) / 2.0, targetHeight, height as real);
    Box(left.Floor as real, top.Floor as real, Ceil(left + targetWidth) as real, Ceil(top + targetHeight) as real)
  }

  /** Both sides are at least the minimum after rounding down. */
  predicate LargeEnough(b: Box) {
    b.bottom.Floor - b.top.Floor >= MIN_DIMENSION && b.right.Floor - b.left.Floor >= MIN_DIMENSION
  }

  /** The box that is cut out, in closed form. */
  function Zoomed(bbox: Box, width: int, height: int): Option<Box> {
    var b := Clamped(bbox, width, height);
    if !ValidBox(b) then None
    else
      var r := if TooSmall(b) then Enlarged(b, width, height) else b;
      if ValidBox(r) && LargeEnough(r) then Some(r) else None
  }

  /** A scaled side passes the limit exactly when the scale passes the quotient. */
  lemma PassesIff(side: real, s: real, limit: real)
    requires side > 0.0
    ensures side * s > limit <==> s > limit / side
  {
    DivTimes(limit, side);
    var q := limit / side;
    assert limit == q * side;
    if s > q {
      TimesPositive(s - q, side);
      assert (s - q) * side == side * s - limit;
    } else {
      TimesMono(s, q, side);
      assert s * side == side * s;
    }
  }

  /** Scaling the other side down by the same factor: the scale s becomes limit / side. */
  lemma Rescaled(side: real, other: real, s: real, limit: real, target: real, otherTarget: real)
    requires side > 0.0 && s > 0.0 && target == side * s && otherTarget == other * s
    ensures target > 0.0 && otherTarget * (limit / target) == other * (limit / side) && side * (limit / side) == limit
  {
    TimesPositive(side, s);
    var q := limit / side;
    DivTimes(limit, side);
    assert limit == q * side;
    Reordered(q, side, s, limit);
    DivIs(s * limit, target, q);
    ScaledQuotient(s, limit, target);
    assert other * s * (limit / target) == other * (s * (limit / target));
  }

  lemma Reordered(q: real, side: real, s: real, limit: real)
    requires limit == q * side
    ensures q * (side * s) == s * limit
  {
  }

  lemma ScaledQuotient(s: real, limit: real, y: real)
    requires y > 0.0
    ensures s * (limit / y) == s * limit / y
  {
    DivTimes(limit, y);
    var p := limit / y;
    assert s * p * y == s * (p * y);
    DivIs(s * limit, y, s * p);
  }

  lemma MinPositive(w: real, h: real)
    requires w > 0.0 && h > 0.0
    ensures 28.0 / Min(h, w) > 0.0
  {
    var m := Min(h, w);
    DivTimes(28.0, m);
    if 28.0 / m <= 0.0 {
      TimesMono(28.0 / m, 0.0, m);
    }
  }

  /** Scales both sides down where one passes its limit. */
  method FitSide(target: real, otherTarget: real, limit: real, ghost side: real, ghost other: real, ghost s: real)
    returns (target': real, otherTarget': real, ghost s': real)
    requires side > 0.0 && s > 0.0 && limit > 0.0 && target == side * s && otherTarget == other * s
    ensures s' == Min(s, limit / side) > 0.0
    ensures target' == side * s' && otherTarget' == other * s'
  {
    target', otherTarget', s' := target, otherTarget, s;
    PassesIff(side, s, limit);
    if target > limit {
      var scaleDown := limit / target;
      Rescaled(side, other, s, limit, target, otherTarget);
      QuotientPositive(limit, side);
      target' := limit;
      otherTarget' := otherTarget * scaleDown;
      s' := limit / side;
    }
  }

  /** The target size, scaled down for each side of the image in turn. */
  method Targets(w: real, h: real, width: int, height: int) returns (targetWidth: real, targetHeight: real)
    requires 0.0 < w <= width as real && 0.0 < h <= height as real
    ensures targetWidth == TargetSize(w, h, width, height).0 && targetHeight == TargetSize(w, h, width, height).1
    ensures targetWidth <= width as real && targetHeight <= height as real
  {
    var ratio := 28.0 / Min(h, w);
    MinPositive(w, h);
    targetWidth, targetHeight := w * ratio, h * ratio;
    ghost var s;
    targetWidth, targetHeight, s := FitSide(targetWidth, targetHeight, width as real, w, h, ratio);
    targetHeight, targetWidth, s := FitSide(targetHeight, targetWidth, height as real, h, w, s);
    ScaledSize(w, h, width, height, s);
    TargetFits(w, h, width, height);
  }

  /** The smallest of the three factors, taken one after the other, is the net scale. */
  lemma ScaledSize(w: real, h: real, width: int, height: int, s: real)
    requires w > 0.0 && h > 0.0 && s == Min(Min(28.0 / Min(h, w), width as real / w), height as real / h)
    ensures NetScale(w, h, width, height) == s
    ensures TargetSize(w, h, width, height).0 == w * s && TargetSize(w, h, width, height).1 == h * s
  {
  }

  lemma TargetFits(w: real, h: real, width: int, height: int)
    requires w > 0.0 && h > 0.0
    ensures TargetSize(w, h, width, height).0 <= width as real && TargetSize(w, h, width, height).1 <= height as real
  {
    var s := NetScale(w, h, width, height);
    PassesIff(w, s, width as real);
    PassesIff(h, s, height as real);
  }

  lemma QuotientPositive(x: real, y: real)
    requires x > 0.0 && y > 0.0
    ensures x / y > 0.0
  {
    DivTimes(x, y);
    if x / y <= 0.0 {
      TimesMono(x / y, 0.0, y);
    }
  }

  /** Moves a side back into the image. */
  method Shifted(start: real, size: real, limit: real) returns (r: real)
    requires size <= limit
    ensures r == Max(0.0, Min(start, limit - size))
  {
    r := start;
    if r < 0.0 {
      r := 0.0;
    }
    if r + size > limit {
      r := limit - size;
    }
  }

  method Place(b: Box, targetWidth: real, targetHeight: real, width: int, height: int) returns (r: Box)
    requires targetWidth <= width as real && targetHeight <= height as real
    ensures r == Sized(b, targetWidth, targetHeight, width, height)
  {
    var newLeft := Shifted((b.left + b.right) / 2.0 - targetWidth / 2.0, targetWidth, width as real);
    var newTop := Shifted((b.top + b.bottom) / 2.0 - targetHeight / 2.0, targetHeight, height as real);
    r := Box(newLeft.Floor as real, newTop.Floor as real,
             Ceil(newLeft + targetWidth) as real, Ceil(newTop + targetHeight) as real);
  }

  method Resize(b: Box, width: int, height: int) returns (r: Box)
    requires Inside(b, width, height)
    ensures r == Enlarged(b, width, height)
  {
    var targetWidth, targetHeight := Targets(b.right - b.left, b.bottom - b.top, width, height);
    r := Place(b, targetWidth, targetHeight, width, height);
  }

  /** `_maybe_resize_bbox`, step by step. */
  method MaybeResize(bbox: Box, width: int, height: int) returns (r: Option<Box>)
    ensures r == Zoomed(bbox, width, height)
  {
    var b := Box(Max(0.0, bbox.left), Max(0.0, bbox.top),
             Min(width as real, bbox.right), Min(height as real, bbox.bottom));
    if !ValidBox(b) {
      return None;
    }
    var current := b;
    if b.bottom - b.top < 28.0 || b.right - b.left < 28.0 {
      current := Resize(b, width, height);
    }
    if !ValidBox(current) || !LargeEnough(current) {
      return None;
    }
    r := Some(current);
  }

  // ----- what the box that is cut out is good for

  predicate Inside(b: Box, width: int, height: int) {
    0.0 <= b.left < b.right <= width as real && 0.0 <= b.top < b.bottom <= height as real
  }

  predicate Contains(outer: Box, inner: Box) {
    outer.left <= inner.left && inner.right <= outer.right && outer.top <= inner.top && inner.bottom <= outer.bottom
  }

  lemma NetScaleAtLeastOne(w: real, h: real, width: int, height: int)
    requires 0.0 < w <= width as real && 0.0 < h <= height as real && (w < 28.0 || h < 28.0)
    ensures 1.0 <= NetScale(w, h, width, height)
  {
    AtLeastOne(28.0, Min(h, w));
    AtLeastOne(width as real, w);
    AtLeastOne(height as real, h);
  }

  lemma TargetCovers(w: real, h: real, width: int, height: int)
    requires w > 0.0 && h > 0.0 && 1.0 <= NetScale(w, h, width, height)
    ensures w <= TargetSize(w, h, width, height).0 && h <= TargetSize(w, h, width, height).1
  {
    var s, size := NetScale(w, h, width, height), TargetSize(w, h, width, height);
    ScaledUp(w, s, size.0);
    ScaledUp(h, s, size.1);
  }

  /** A small box is never scaled down, and never past the image. */
  lemma NetScaleBounds(w: real, h: real, width: int, height: int)
    requires 0.0 < w <= width as real && 0.0 < h <= height as real && (w < 28.0 || h < 28.0)
    ensures 1.0 <= NetScale(w, h, width, height)
    ensures w <= TargetSize(w, h, width, height).0 <= width as real
    ensures h <= TargetSize(w, h, width, height).1 <= height as real
  {
    NetScaleAtLeastOne(w, h, width, height);
    TargetCovers(w, h, width, height);
    TargetFits(w, h, width, height);
  }

  lemma ScaledUp(x: real, s: real, y: real)
    requires x > 0.0 && s >= 1.0 && y == x * s
    ensures x <= y
  {
    TimesMono(1.0, s, x);
  }

  lemma AtLeastOne(x: real, y: real)
    requires 0.0 < y <= x
    ensures x / y >= 1.0
  {
    PassesIff(y, 1.0, x);
  }

  /** A side no smaller than the original, placed around its centre, covers it and stays in the image. */
  lemma PlacedCovers(lo: real, hi: real, size: real, limit: real)
    requires 0.0 <= lo <= hi <= limit && hi - lo <= size <= limit
    ensures var p := Placed((lo + hi) / 2.0, size, limit);
            0.0 <= p <= lo && hi <= p + size <= limit
  {
  }

  lemma CeilBounds(x: real, limit: int)
    ensures x <= Ceil(x) as real
    ensures x <= limit as real ==> Ceil(x) <= limit
    ensures x >= limit as real ==> Ceil(x) >= limit
  {
  }

  lemma SizedCovers(b: Box, targetWidth: real, targetHeight: real, width: int, height: int)
    requires Inside(b, width, height)
    requires b.right - b.left <= targetWidth <= width as real && b.bottom - b.top <= targetHeight <= height as real
    ensures var r := Sized(b, targetWidth, targetHeight, width, height);
            Contains(r, b) && Inside(r, width, height)
  {
    PlacedCovers(b.left, b.right, targetWidth, width as real);
    PlacedCovers(b.top, b.bottom, targetHeight, height as real);
    CeilBounds(Placed((b.left + b.right) / 2.0, targetWidth, width as real) + targetWidth, width);
    CeilBounds(Placed((b.top + b.bottom) / 2.0, targetHeight, height as real) + targetHeight, height);
  }

  lemma EnlargedCovers(b: Box, width: int, height: int)
    requires Inside(b, width, height) && TooSmall(b)
    ensures var r := Enlarged(b, width, height);
            Contains(r, b) && Inside(r, width, height)
  {
    var w, h := b.right - b.left, b.bottom - b.top;
    NetScaleBounds(w, h, width, height);
    var (targetWidth, targetHeight) := TargetSize(w, h, width, height);
    SizedCovers(b, targetWidth, targetHeight, width, height);
  }

  /** Any box returned lies in the image, has integer extent of the minimum on both sides, and contains
      the clamped input box; a box that is large enough is returned as clamped. */
  lemma ZoomedSound(bbox: Box, width: int, height: int)
    requires Zoomed(bbox, width, height).Some?
    ensures var r, b := Zoomed(bbox, width, height).value, Clamped(bbox, width, height);
            && Inside(r, width, height) && LargeEnough(r) && Contains(r, b)
            && (!TooSmall(b) ==> r == b)
  {
    var b := Clamped(bbox, width, height);
    if TooSmall(b) {
      EnlargedCovers(b, width, height);
    }
  }

  lemma RoundedExtent(p: real, size: real)
    ensures size <= (Ceil(p + size) - p.Floor) as real < size + 2.0
  {
  }

  lemma RatioBelow(x: real, y: real, k: real)
    requires y > 0.0
    ensures x / y <= k <==> x <= k * y
  {
    PassesIff(y, k, x);
    if x / y == k {
      DivTimes(x, y);
    }
    if x / y < k {
      TimesStrict(x / y, k, y);
      DivTimes(x, y);
    }
  }

  /** A box whose sides are at least the minimum and at most 99 times it is still valid once rounded. */
  lemma RoundedIsValid(b: Box, targetWidth: real, targetHeight: real, width: int, height: int)
    requires 28.0 <= targetWidth <= 2772.0 && 28.0 <= targetHeight <= 2772.0
    ensures var r := Sized(b, targetWidth, targetHeight, width, height); ValidBox(r) && LargeEnough(r)
  {
    var r := Sized(b, targetWidth, targetHeight, width, height);
    RoundedExtent(Placed((b.left + b.right) / 2.0, targetWidth, width as real), targetWidth);
    RoundedExtent(Placed((b.top + b.bottom) / 2.0, targetHeight, height as real), targetHeight);
    ExtentsValid(r);
  }

  lemma ExtentsValid(r: Box)
    requires 28.0 <= r.right - r.left < 2774.0 && 28.0 <= r.bottom - r.top < 2774.0
    ensures ValidBox(r)
  {
    var w, h := r.right - r.left, r.bottom - r.top;
    RatioBelow(Max(h, w), Min(h, w), 100.0);
  }

  /** The box has aspect at most 99, and enlarged until its smaller side is the minimum it fits the image. */
  predicate Fitting(w: real, h: real, width: int, height: int)
    requires w > 0.0 && h > 0.0
  {
    && Max(h, w) / Min(h, w) <= 99.0
    && w * (28.0 / Min(h, w)) <= width as real && h * (28.0 / Min(h, w)) <= height as real
  }

  /** A small fitting box is always returned. */
  lemma FittingBoxReturned(bbox: Box, b: Box, w: real, h: real, width: int, height: int)
    requires b == Clamped(bbox, width, height) && w == b.right - b.left && h == b.bottom - b.top
    requires w > 0.0 && h > 0.0 && TooSmall(b) && Fitting(w, h, width, height)
    ensures Zoomed(bbox, width, height).Some?
  {
    SmallestTarget(w, h, width, height);
    var (targetWidth, targetHeight) := TargetSize(w, h, width, height);
    RoundedIsValid(b, targetWidth, targetHeight, width, height);
  }

  lemma SmallestTarget(w: real, h: real, width: int, height: int)
    requires w > 0.0 && h > 0.0 && Fitting(w, h, width, height)
    ensures var (targetWidth, targetHeight) := TargetSize(w, h, width, height);
            && 28.0 <= targetWidth <= 2772.0 && 28.0 <= targetHeight <= 2772.0
            && Min(targetWidth, targetHeight) == 28.0
  {
    var s := 28.0 / Min(h, w);
    PassesIff(w, s, width as real);
    PassesIff(h, s, height as real);
    assert NetScale(w, h, width, height) == s;
    SidesScaled(Min(h, w), Max(h, w), s);
  }

  lemma SidesScaled(least: real, most: real, s: real)
    requires 0.0 < least <= most && most / least <= 99.0 && s == 28.0 / least
    ensures least * s == 28.0 <= most * s <= 2772.0
  {
    DivTimes(28.0, least);
    QuotientPositive(28.0, least);
    RatioBelow(most, least, 99.0);
    TimesMono(least, most, s);
    TimesMono(most, 99.0 * least, s);
    assert 99.0 * least * s == 99.0 * (least * s);
  }

  // ----- where the box goes, and how large it gets

  /** The clamped box is what the box and the image have in common. */
  lemma ClampedIsCommon(bbox: Box, width: int, height: int, x: real, y: real)
    ensures var b := Clamped(bbox, width, height);
            && (b.left <= x <= b.right <==> bbox.left <= x <= bbox.right && 0.0 <= x <= width as real)
            && (b.top <= y <= b.bottom <==> bbox.top <= y <= bbox.bottom && 0.0 <= y <= height as real)
  {
  }

  /** A factor for both sides that keeps them in the image and does not bring the smaller one past the minimum. */
  predicate Allowed(w: real, h: real, width: int, height: int, s: real) {
    w * s <= width as real && h * s <= height as real && Min(h, w) * s <= 28.0
  }

  /** The target size is the sides by the net scale, which is the largest factor that is allowed. */
  lemma NetScaleIsLargest(w: real, h: real, width: int, height: int, s: real)
    requires w > 0.0 && h > 0.0
    ensures Allowed(w, h, width, height, s) <==> s <= NetScale(w, h, width, height)
    ensures TargetSize(w, h, width, height).0 == w * NetScale(w, h, width, height)
    ensures TargetSize(w, h, width, height).1 == h * NetScale(w, h, width, height)
  {
    AllowedIff(w, h, width, height, s);
  }

  lemma AllowedIff(w: real, h: real, width: int, height: int, s: real)
    requires w > 0.0 && h > 0.0
    ensures Allowed(w, h, width, height, s) <==> s <= NetScale(w, h, width, height)
  {
    PassesIff(w, s, width as real);
    PassesIff(h, s, height as real);
    PassesIff(Min(h, w), s, 28.0);
  }

  /** The rounded interval `lo` to `hi` that replaces a centred one of this size: outwards of the interval around
      the centre, or at the edge of the image that one passes. */
  predicate Centred(center: real, size: real, limit: int, lo: real, hi: real) {
    if center - size / 2.0 < 0.0 then lo == 0.0 && hi - 1.0 < size <= hi
    else if center + size / 2.0 > limit as real then hi == limit as real && lo <= hi - size < lo + 1.0
    else lo <= center - size / 2.0 < lo + 1.0 && hi - 1.0 < center + size / 2.0 <= hi
  }

  lemma PlacedCentred(center: real, size: real, limit: int)
    requires 0.0 <= center <= limit as real && 0.0 <= size <= limit as real
    ensures var p := Placed(center, size, limit as real);
            Centred(center, size, limit, p.Floor as real, Ceil(p + size) as real)
  {
    var end := Placed(center, size, limit as real) + size;
    CeilBounds(end, limit);
    assert Ceil(end) as real - 1.0 < end;
  }

  lemma SizedCentred(b: Box, targetWidth: real, targetHeight: real, width: int, height: int)
    requires Inside(b, width, height)
    requires 0.0 <= targetWidth <= width as real && 0.0 <= targetHeight <= height as real
    ensures var r := Sized(b, targetWidth, targetHeight, width, height);
            && Centred((b.left + b.right) / 2.0, targetWidth, width, r.left, r.right)
            && Centred((b.top + b.bottom) / 2.0, targetHeight, height, r.top, r.bottom)
  {
    PlacedCentred((b.left + b.right) / 2.0, targetWidth, width);
    PlacedCentred((b.top + b.bottom) / 2.0, targetHeight, height);
  }

  lemma TargetWithin(b: Box, width: int, height: int, size: (real, real))
    requires Inside(b, width, height) && TooSmall(b)
    requires size == TargetSize(b.right - b.left, b.bottom - b.top, width, height)
    ensures 0.0 <= size.0 <= width as real && 0.0 <= size.1 <= height as real
  {
    NetScaleBounds(b.right - b.left, b.bottom - b.top, width, height);
  }

  predicate Whole(b: Box) {
    && b.left == b.left.Floor as real && b.right == b.right.Floor as real
    && b.top == b.top.Floor as real && b.bottom == b.bottom.Floor as real
  }

  lemma SmallBoxSized(bbox: Box, width: int, height: int, b: Box, size: (real, real), r: Box)
    requires b == Clamped(bbox, width, height) && ValidBox(b) && TooSmall(b)
    requires size == TargetSize(b.right - b.left, b.bottom - b.top, width, height)
    requires r == Sized(b, size.0, size.1, width, height)
    ensures Zoomed(bbox, width, height) == if ValidBox(r) && LargeEnough(r) then Some(r) else None
  {
  }

  /** A box that is too small becomes one around its centre in the target size, moved into the image where it
      passes an edge, and rounded outwards; that is returned unless its aspect or a side is not good enough. */
  lemma SmallBoxCentred(bbox: Box, width: int, height: int, b: Box, size: (real, real)) returns (r: Box)
    requires b == Clamped(bbox, width, height) && ValidBox(b)
    requires b.right - b.left < 28.0 || b.bottom - b.top < 28.0
    requires size == TargetSize(b.right - b.left, b.bottom - b.top, width, height)
    ensures Whole(r)
    ensures Centred((b.left + b.right) / 2.0, size.0, width, r.left, r.right)
    ensures Centred((b.top + b.bottom) / 2.0, size.1, height, r.top, r.bottom)
    ensures Zoomed(bbox, width, height) ==
            if ValidBox(r) && r.right - r.left >= 28.0 && r.bottom - r.top >= 28.0 then Some(r) else None
  {
    r := Sized(b, size.0, size.1, width, height);
    TargetWithin(b, width, height, size);
    SmallBoxSized(bbox, width, height, b, size, r);
    SizedCentred(b, size.0, size.1, width, height);
    SizedWhole(b, size.0, size.1, width, height);
  }

  lemma SizedWhole(b: Box, targetWidth: real, targetHeight: real, width: int, height: int)
    ensures var r := Sized(b, targetWidth, targetHeight, width, height);
            && Whole(r)
            && (LargeEnough(r) <==> r.right - r.left >= 28.0 && r.bottom - r.top >= 28.0)
  {
  }

  /** Where the centred interval stays in the image, the centre moves by less than half a pixel. */
  lemma CentreKept(center: real, size: real, limit: int, lo: real, hi: real)
    requires Centred(center, size, limit, lo, hi)
    requires 0.0 <= center - size / 2.0 && center + size / 2.0 <= limit as real
    ensures -1.0 < lo + hi - 2.0 * center < 1.0
  {
  }

  lemma AspectIff(b: Box)
    ensures ValidBox(b) <==>
            && b.left < b.right && b.top < b.bottom
            && b.right - b.left <= 100.0 * (b.bottom - b.top) && b.bottom - b.top <= 100.0 * (b.right - b.left)
  {
    if b.left < b.right && b.top < b.bottom {
      var w, h := b.right - b.left, b.bottom - b.top;
      RatioBelow(Max(h, w), Min(h, w), 100.0);
    }
  }

  /** The aspect of any box returned is at most 100, and so was that of the clamped box; a box of 28 by 28 or
      more is returned as it was clamped exactly if its aspect is at most 100 and rounding leaves it that large. */
  lemma ZoomedAspect(bbox: Box, width: int, height: int, b: Box)
    requires b == Clamped(bbox, width, height)
    ensures Zoomed(bbox, width, height).Some? ==> ValidBox(b) && ValidBox(Zoomed(bbox, width, height).value)
    ensures b.right - b.left >= 28.0 && b.bottom - b.top >= 28.0 ==>
              Zoomed(bbox, width, height) ==
              if && b.right - b.left <= 100.0 * (b.bottom - b.top) && b.bottom - b.top <= 100.0 * (b.right - b.left)
                 && b.right.Floor >= b.left.Floor + 28 && b.bottom.Floor >= b.top.Floor + 28
              then Some(b) else None
  {
    AspectIff(b);
  }
}

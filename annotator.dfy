/** The coordinate adjustment of `drawBoundingBoxes`: each of the first four
    output floats is scaled by the image dimension and clamped into it. */
module Annotator {
  import opened Shape

  /** Kotlin's `coerceAtLeast`: `if (this < minimumValue) minimumValue else this`. */
  function CoerceAtLeast(x: real, minimumValue: real): (r: real)
    ensures r >= minimumValue
    ensures r == x || r == minimumValue
    ensures x >= minimumValue ==> r == x
  {
    if x < minimumValue then minimumValue else x
  }

  /** Kotlin's `coerceAtMost`: `if (this > maximumValue) maximumValue else this`. */
  function CoerceAtMost(x: real, maximumValue: real): (r: real)
    ensures r <= maximumValue
    ensures r == x || r == maximumValue
    ensures x <= maximumValue ==> r == x
  {
    if x > maximumValue then maximumValue else x
  }

  function Min(a: real, b: real): real { if a <= b then a else b }
  function Max(a: real, b: real): real { if a >= b then a else b }

  /** `(raw * dim).coerceAtLeast(0.0f).coerceAtMost(dim.toFloat())` */
  function ScaleCoordinate(raw: real, dim: nat): (c: real)
    ensures 0.0 <= c <= dim as real
    ensures c == Min(Max(raw * dim as real, 0.0), dim as real)
  {
    CoerceAtMost(CoerceAtLeast(raw * dim as real, 0.0), dim as real)
  }

  /** A raw value already lying in [0, 1] is only scaled, not clamped. */
  lemma ScaleInRangeIsExact(raw: real, dim: nat)
    requires 0.0 <= raw <= 1.0
    ensures ScaleCoordinate(raw, dim) == raw * dim as real
  {
    assert raw * dim as real <= 1.0 * dim as real by {
      assert (1.0 - raw) * dim as real >= 0.0;
    }
  }

  /** Below the image the coordinate sticks to 0, beyond it to the dimension. */
  lemma ScaleOutOfRangeSaturates(raw: real, dim: nat)
    ensures raw <= 0.0 ==> ScaleCoordinate(raw, dim) == 0.0
    ensures raw >= 1.0 ==> ScaleCoordinate(raw, dim) == dim as real
  {
    if raw <= 0.0 {
      assert raw * dim as real <= 0.0 by {
        assert (0.0 - raw) * dim as real >= 0.0;
      }
    }
    if raw >= 1.0 {
      assert raw * dim as real >= dim as real by {
        assert (raw - 1.0) * dim as real >= 0.0;
      }
    }
  }

  /** Scaling and clamping keep the order of two raw values. */
  lemma ScaleMonotonic(raw1: real, raw2: real, dim: nat)
    requires raw1 <= raw2
    ensures ScaleCoordinate(raw1, dim) <= ScaleCoordinate(raw2, dim)
  {
    assert raw1 * dim as real <= raw2 * dim as real by {
      assert (raw2 - raw1) * dim as real >= 0.0;
    }
  }

  /** A clamped coordinate is left alone by clamping it again. */
  lemma ClampIdempotent(raw: real, dim: nat)
    ensures CoerceAtMost(CoerceAtLeast(ScaleCoordinate(raw, dim), 0.0), dim as real) == ScaleCoordinate(raw, dim)
  {
  }

  /** The `RectF(xmin, ymin, xmax, ymax)` handed to `drawRect`. */
  datatype Box = Box(xmin: real, ymin: real, xmax: real, ymax: real)

  /** The box lies inside the image the model sees. */
  ghost predicate InsideImage(b: Box)
  {
    && 0.0 <= b.xmin <= InputImageWidth as real && 0.0 <= b.xmax <= InputImageWidth as real
    && 0.0 <= b.ymin <= InputImageHeight as real && 0.0 <= b.ymax <= InputImageHeight as real
  }

  /** The coordinates of `drawBoundingBoxes`: result[0..3] are xmin, ymin,
      xmax, ymax, scaled by the width for x and by the height for y. The
      result array always has `numClasses` entries, so the four reads are in bounds. */
  function BoundingBox(result: seq<real>): (b: Box)
    requires |result| == NumClasses
    ensures InsideImage(b)
    ensures b.xmin == ScaleCoordinate(result[0], InputImageWidth)
    ensures b.ymin == ScaleCoordinate(result[1], InputImageHeight)
    ensures b.xmax == ScaleCoordinate(result[2], InputImageWidth)
    ensures b.ymax == ScaleCoordinate(result[3], InputImageHeight)
  {
    Box(ScaleCoordinate(result[0], InputImageWidth),
        ScaleCoordinate(result[1], InputImageHeight),
        ScaleCoordinate(result[2], InputImageWidth),
        ScaleCoordinate(result[3], InputImageHeight))
  }

  /** Raw coordinates inside [0, 1] give the plain scaled box. */
  lemma BoundingBoxOfInRangeResult(result: seq<real>)
    requires |result| == NumClasses
    requires forall k :: 0 <= k < 4 ==> 0.0 <= result[k] <= 1.0
    ensures BoundingBox(result) == Box(result[0] * InputImageWidth as real, result[1] * InputImageHeight as real,
                                       result[2] * InputImageWidth as real, result[3] * InputImageHeight as real)
  {
    ScaleInRangeIsExact(result[0], InputImageWidth);
    ScaleInRangeIsExact(result[1], InputImageHeight);
    ScaleInRangeIsExact(result[2], InputImageWidth);
    ScaleInRangeIsExact(result[3], InputImageHeight);
  }

  /** Ordered raw coordinates give an ordered box. */
  lemma BoundingBoxKeepsOrder(result: seq<real>)
    requires |result| == NumClasses
    requires result[0] <= result[2] && result[1] <= result[3]
    ensures BoundingBox(result).xmin <= BoundingBox(result).xmax
    ensures BoundingBox(result).ymin <= BoundingBox(result).ymax
  {
    ScaleMonotonic(result[0], result[2], InputImageWidth);
    ScaleMonotonic(result[1], result[3], InputImageHeight);
  }

  /** Clamping does not reorder: raw coordinates with xmin beyond xmax give
      a box with xmin beyond xmax. */
  lemma BoundingBoxMayBeUnordered()
    ensures BoundingBox([0.5, 0.0, 0.2, 0.0]).xmin == 75.0
    ensures BoundingBox([0.5, 0.0, 0.2, 0.0]).xmax == 30.0
  {
  }
}

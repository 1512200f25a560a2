/**
 * The coordinate helpers of src/texture/utils.rs: UV-to-pixel conversion and
 * the bounding box of a set of pixel coordinates.
 */
module TextureUtils {

  const U32_MAX: nat := 0xFFFF_FFFF

  /** Rust's `u32`. */
  type U32 = x: nat | x <= U32_MAX

  /** `(min_x, min_y, max_x, max_y)`, the tuple `calc_bbox` returns. */
  datatype BBox = BBox(minX: U32, minY: U32, maxX: U32, maxY: U32)

  /** The fold's seed, and so the answer for no points. */
  const EMPTY_BBOX: BBox := BBox(U32_MAX, U32_MAX, 0, 0)

  function MinU32(a: U32, b: U32): U32 { if a <= b then a else b }

  function MaxU32(a: U32, b: U32): U32 { if a >= b then a else b }

  /** One step of the fold: widen the box to take in `p`. */
  function Extend(b: BBox, p: (U32, U32)): BBox
  {
    BBox(MinU32(b.minX, p.0), MinU32(b.minY, p.1), MaxU32(b.maxX, p.0), MaxU32(b.maxY, p.1))
  }

  /** Every point lies in the closed box. */
  ghost predicate Bounds(b: BBox, pts: seq<(U32, U32)>)
  {
    forall p :: p in pts ==> b.minX <= p.0 <= b.maxX && b.minY <= p.1 <= b.maxY
  }

  /** Every side of the box is touched by some point. */
  ghost predicate Attained(b: BBox, pts: seq<(U32, U32)>)
  {
    && (exists p :: p in pts && p.0 == b.minX)
    && (exists p :: p in pts && p.1 == b.minY)
    && (exists p :: p in pts && p.0 == b.maxX)
    && (exists p :: p in pts && p.1 == b.maxY)
  }

  /**
   * `calc_bbox`: a left fold of `Extend` from `EMPTY_BBOX`. For no points it is
   * the seed; otherwise it is the smallest box holding every point: it bounds
   * them all and each side is attained.
   */
  function CalcBBox(pts: seq<(U32, U32)>): (b: BBox)
    ensures pts == [] ==> b == EMPTY_BBOX
    ensures pts != [] ==> Bounds(b, pts) && Attained(b, pts)
    ensures pts != [] ==> b.minX <= b.maxX && b.minY <= b.maxY
  {
    if pts == [] then EMPTY_BBOX
    else
      var init := pts[..|pts| - 1];
      var last := pts[|pts| - 1];
      assert forall p :: p in pts <==> p in init || p == last;
      Extend(CalcBBox(init), last)
  }

  /** A box that bounds a set of points and touches it on every side is unique. */
  lemma TightBoxUnique(b1: BBox, b2: BBox, pts1: seq<(U32, U32)>, pts2: seq<(U32, U32)>)
    requires forall p :: p in pts1 <==> p in pts2
    requires Bounds(b1, pts1) && Attained(b1, pts1)
    requires Bounds(b2, pts2) && Attained(b2, pts2)
    ensures b1 == b2
  {
  }

  /** The fold uses only min and max, so the order of the points does not matter. */
  lemma CalcBBoxPermutation(pts1: seq<(U32, U32)>, pts2: seq<(U32, U32)>)
    requires multiset(pts1) == multiset(pts2)
    ensures CalcBBox(pts1) == CalcBBox(pts2)
  {
    assert forall p :: p in pts1 <==> p in multiset(pts1);
    assert forall p :: p in pts2 <==> p in multiset(pts2);
    if pts1 != [] {
      assert pts1[0] in pts2;
      TightBoxUnique(CalcBBox(pts1), CalcBBox(pts2), pts1, pts2);
    } else {
      assert |pts2| == |multiset(pts2)| == 0;
    }
  }

  function Clamp01(v: real): real { if v < 0.0 then 0.0 else if v > 1.0 then 1.0 else v }

  function MinReal(a: real, b: real): real { if a <= b then a else b }

  /**
   * Rust's `f64 as u32` on a finite value: truncation toward zero, saturating
   * at 0 and at `u32::MAX`.
   */
  function SaturatingU32(v: real): (r: U32)
    ensures v <= 0.0 ==> r == 0
    ensures 0.0 <= v <= U32_MAX as real ==> r as real <= v < r as real + 1.0
  {
    if v <= 0.0 then 0 else if v >= U32_MAX as real then U32_MAX else v.Floor
  }

  /**
   * Scale `t` in [0, 1] to a pixel index along a side of length `dim`:
   * `(t * dim).min(dim - 1) as u32`.
   */
  function ScaleToIndex(t: real, dim: U32): U32
  {
    SaturatingU32(MinReal(t * dim as real, dim as real - 1.0))
  }

  /** The last pixel index along a side of length `dim` (0 for an empty side, where the cast saturates). */
  function MaxIndex(dim: U32): nat { if dim == 0 then 0 else dim - 1 }

  /** The column of a u coordinate: clamped, not flipped. */
  function PixelX(u: real, width: U32): U32 { ScaleToIndex(Clamp01(u), width) }

  /** The row of a v coordinate: clamped and flipped, since UV has its origin bottom-left and pixels top-left. */
  function PixelY(v: real, height: U32): U32 { ScaleToIndex(1.0 - Clamp01(v), height) }

  /** One UV point to a pixel. */
  function UvToPixel(uv: (real, real), width: U32, height: U32): (U32, U32)
  {
    (PixelX(uv.0, width), PixelY(uv.1, height))
  }

  /** `uv_to_pixel_coords`: one pixel per UV point, in the same order, inside the image. */
  function UvToPixelCoords(uvs: seq<(real, real)>, width: U32, height: U32): (r: seq<(U32, U32)>)
    ensures |r| == |uvs|
    ensures forall i :: 0 <= i < |uvs| ==> r[i] == UvToPixel(uvs[i], width, height)
    ensures forall i :: 0 <= i < |uvs| ==> r[i].0 <= MaxIndex(width) && r[i].1 <= MaxIndex(height)
  {
    seq(|uvs|, i requires 0 <= i < |uvs| => UvToPixelInImage(uvs[i], width, height))
  }

  function UvToPixelInImage(uv: (real, real), width: U32, height: U32): (p: (U32, U32))
    ensures p == UvToPixel(uv, width, height)
    ensures p.0 <= MaxIndex(width) && p.1 <= MaxIndex(height)
  {
    ScaledInSide(Clamp01(uv.0), width);
    ScaledInSide(1.0 - Clamp01(uv.1), height);
    UvToPixel(uv, width, height)
  }

  /** A scaled coordinate never passes the last index of its side: x <= width - 1 and y <= height - 1. */
  lemma ScaledInSide(t: real, dim: U32)
    requires 0.0 <= t <= 1.0
    ensures ScaleToIndex(t, dim) <= MaxIndex(dim)
  {
    assert t * dim as real <= dim as real;
  }

  /** v is flipped: v = 1 (or above) lands on row 0, v = 0 (or below) on the last row. */
  lemma VFlip(v: real, height: U32)
    ensures v >= 1.0 ==> PixelY(v, height) == 0
    ensures v <= 0.0 ==> PixelY(v, height) == MaxIndex(height)
  {
  }

  /** u is not flipped: u = 0 (or below) lands on column 0, u = 1 (or above) on the last column. */
  lemma UEdges(u: real, width: U32)
    ensures u <= 0.0 ==> PixelX(u, width) == 0
    ensures u >= 1.0 ==> PixelX(u, width) == MaxIndex(width)
  {
  }

  /** Scaling to an index is monotone. */
  lemma ScaleMonotone(t1: real, t2: real, dim: U32)
    requires 0.0 <= t1 <= t2
    ensures ScaleToIndex(t1, dim) <= ScaleToIndex(t2, dim)
  {
    assert (t2 - t1) * dim as real >= 0.0;
    assert t1 * dim as real <= t2 * dim as real;
    assert MinReal(t1 * dim as real, dim as real - 1.0) <= MinReal(t2 * dim as real, dim as real - 1.0);
    SaturatingMonotone(MinReal(t1 * dim as real, dim as real - 1.0), MinReal(t2 * dim as real, dim as real - 1.0));
  }

  /** The saturating cast is monotone. */
  lemma SaturatingMonotone(a: real, b: real)
    requires a <= b
    ensures SaturatingU32(a) <= SaturatingU32(b)
  {
    if 0.0 < a && b < U32_MAX as real {
      assert a.Floor as real <= a <= b < b.Floor as real + 1.0;
    }
  }

  /** The conversion is monotone in u and antitone in v. */
  lemma PixelMonotone(uv1: (real, real), uv2: (real, real), width: U32, height: U32)
    ensures uv1.0 <= uv2.0 ==> UvToPixel(uv1, width, height).0 <= UvToPixel(uv2, width, height).0
    ensures uv1.1 <= uv2.1 ==> UvToPixel(uv1, width, height).1 >= UvToPixel(uv2, width, height).1
  {
    if uv1.0 <= uv2.0 {
      ScaleMonotone(Clamp01(uv1.0), Clamp01(uv2.0), width);
    }
    if uv1.1 <= uv2.1 {
      ScaleMonotone(1.0 - Clamp01(uv2.1), 1.0 - Clamp01(uv1.1), height);
    }
  }

  /** The unit square over a 100 x 100 image spans pixels (0, 0) to (99, 99). */
  lemma UnitSquareBBox()
    ensures CalcBBox(UvToPixelCoords([(0.0, 0.0), (1.0, 0.0), (1.0, 1.0), (0.0, 1.0)], 100, 100)) == BBox(0, 0, 99, 99)
  {
    var px := UvToPixelCoords([(0.0, 0.0), (1.0, 0.0), (1.0, 1.0), (0.0, 1.0)], 100, 100);
    assert ScaleToIndex(0.0, 100) == 0;
    assert SaturatingU32(99.0) == 99;
    assert ScaleToIndex(1.0, 100) == 99;
    assert px[0] == (0, 99) && px[1] == (99, 99) && px[2] == (99, 0) && px[3] == (0, 0);
    assert px == [(0, 99), (99, 99), (99, 0), (0, 0)];
    assert CalcBBox(px[..1]) == BBox(0, 99, 0, 99);
    assert CalcBBox(px[..2]) == BBox(0, 99, 99, 99);
    assert CalcBBox(px[..3]) == BBox(0, 0, 99, 99);
  }
}

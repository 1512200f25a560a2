/**
 * The fragment model of src/texture/mod.rs: the downsample factor, a texture
 * cropped from a source image, and the box predicates that drive clustering.
 */
module Texture {
  import opened Wrappers
  import opened TextureUtils
  import opened Paths

  /** The panics of the fragment model. */
  datatype Error =
    | FactorOutOfRange        // `DownsampleFactor::new` with a factor outside [0, 1]
    | SizeUnderflow           // `max_x - min_x` (or the y analogue) below zero in u32

  /** A factor in [0, 1]: the only ones `DownsampleFactor::new` lets through. */
  type Factor = f: real | 0.0 <= f <= 1.0

  /** `DownsampleFactor`: a scale factor in [0, 1]. */
  datatype DownsampleFactor = DownsampleFactor(factor: Factor) {
    /** `value()`: the stored factor, which lies in [0, 1]. */
    function Value(): (v: real)
      ensures 0.0 <= v <= 1.0
    {
      factor
    }
  }

  /** `DownsampleFactor::new`: accepts exactly the factors in [0, 1] and stores them. */
  function NewDownsampleFactor(f: real): (r: Result<DownsampleFactor, Error>)
    ensures r.Success? <==> 0.0 <= f <= 1.0
    ensures r.Success? ==> r.value.Value() == f
    ensures r.Failure? ==> r.error == FactorOutOfRange
  {
    if 0.0 <= f <= 1.0 then Success(DownsampleFactor(f)) else Failure(FactorOutOfRange)
  }

  /**
   * `CroppedTexture`. The crop-local UV coordinates of the source are kept as
   * their integer numerators: each pixel coordinate minus the origin.
   */
  datatype CroppedTexture = CroppedTexture(
    imagePath: string,
    origin: (U32, U32),
    width: U32,
    height: U32,
    downsampleFactor: DownsampleFactor,
    croppedPixelOffsets: seq<(U32, U32)>)

  /** The pixel `(px, py)` lies in the closed box of `t`. */
  ghost predicate InBox(t: CroppedTexture, px: int, py: int)
  {
    t.origin.0 <= px <= t.origin.0 + t.width && t.origin.1 <= py <= t.origin.1 + t.height
  }

  /**
   * `t` is the crop of `pixels`: every pixel lies in its box, every side of
   * the box is touched by a pixel, and there is one crop-local offset per
   * pixel, locating that pixel relative to the origin.
   */
  ghost predicate IsCropOf(t: CroppedTexture, pixels: seq<(U32, U32)>)
  {
    CropBounds(t, pixels) && CropTouches(t, pixels) && CropOffsets(t, pixels)
  }

  ghost predicate CropBounds(t: CroppedTexture, pixels: seq<(U32, U32)>)
  {
    forall i :: 0 <= i < |pixels| ==> InBox(t, pixels[i].0, pixels[i].1)
  }

  ghost predicate CropTouches(t: CroppedTexture, pixels: seq<(U32, U32)>)
  {
    && (exists i :: 0 <= i < |pixels| && pixels[i].0 == t.origin.0)
    && (exists i :: 0 <= i < |pixels| && pixels[i].1 == t.origin.1)
    && (exists i :: 0 <= i < |pixels| && pixels[i].0 == t.origin.0 + t.width)
    && (exists i :: 0 <= i < |pixels| && pixels[i].1 == t.origin.1 + t.height)
  }

  ghost predicate CropOffsets(t: CroppedTexture, pixels: seq<(U32, U32)>)
  {
    && |t.croppedPixelOffsets| == |pixels|
    && forall i :: 0 <= i < |pixels| ==>
         t.origin.0 + t.croppedPixelOffsets[i].0 == pixels[i].0
         && t.origin.1 + t.croppedPixelOffsets[i].1 == pixels[i].1
  }

  /**
   * `CroppedTexture::new`: converts the UVs to pixels of the `size` image and
   * crops to their bounding box. It fails (a u32 subtraction overflow) exactly
   * when there are no UVs; otherwise the result is the crop of those pixels,
   * its box stays inside the image, and it keeps the path and the factor.
   */
  function NewCroppedTexture(
    imagePath: string, size: (U32, U32), uvs: seq<(real, real)>, factor: DownsampleFactor)
    : (r: Result<CroppedTexture, Error>)
    ensures r.Failure? <==> uvs == []
    ensures r.Failure? ==> r.error == SizeUnderflow
    ensures r.Success? ==>
      && r.value.imagePath == imagePath && r.value.downsampleFactor == factor
      && IsCropOf(r.value, UvToPixelCoords(uvs, size.0, size.1))
      && r.value.origin.0 + r.value.width <= MaxIndex(size.0)
      && r.value.origin.1 + r.value.height <= MaxIndex(size.1)
  {
    var pixels := UvToPixelCoords(uvs, size.0, size.1);
    var r := CropToPixels(imagePath, pixels, factor);
    if r.Success? then
      var i3 :| 0 <= i3 < |pixels| && pixels[i3].0 == r.value.origin.0 + r.value.width;
      var i4 :| 0 <= i4 < |pixels| && pixels[i4].1 == r.value.origin.1 + r.value.height;
      r
    else
      r
  }

  /** The integer part of `CroppedTexture::new`, from the pixel coordinates on. */
  function CropToPixels(imagePath: string, pixels: seq<(U32, U32)>, factor: DownsampleFactor)
    : (r: Result<CroppedTexture, Error>)
    ensures r.Failure? <==> pixels == []
    ensures r.Failure? ==> r.error == SizeUnderflow
    ensures r.Success? ==>
      r.value.imagePath == imagePath && r.value.downsampleFactor == factor && IsCropOf(r.value, pixels)
  {
    var b := CalcBBox(pixels);
    if b.maxX < b.minX || b.maxY < b.minY then
      Failure(SizeUnderflow)
    else
      assert pixels[0] in pixels;
      Success(CropToBox(imagePath, pixels, b, factor))
  }

  /** The texture spanning box `b` of `pixels`, with each pixel's offset from the box origin. */
  function CropToBox(imagePath: string, pixels: seq<(U32, U32)>, b: BBox, factor: DownsampleFactor)
    : (t: CroppedTexture)
    requires Bounds(b, pixels) && Attained(b, pixels)
    ensures t.imagePath == imagePath && t.downsampleFactor == factor && IsCropOf(t, pixels)
  {
    BoxedPixels(b, pixels);
    var offsets := seq(|pixels|, i requires 0 <= i < |pixels| =>
      (pixels[i].0 - b.minX, pixels[i].1 - b.minY));
    var t := CroppedTexture(imagePath, (b.minX, b.minY), b.maxX - b.minX, b.maxY - b.minY, factor, offsets);
    CropOfBBox(t, b, pixels);
    t
  }

  /** Every pixel lies in the box `calc_bbox` returns, so the offsets cannot underflow. */
  lemma BoxedPixels(b: BBox, pixels: seq<(U32, U32)>)
    requires Bounds(b, pixels) && Attained(b, pixels)
    ensures forall i :: 0 <= i < |pixels| ==>
      b.minX <= pixels[i].0 <= b.maxX && b.minY <= pixels[i].1 <= b.maxY
  {
    assert forall i :: 0 <= i < |pixels| ==> pixels[i] in pixels;
  }

  /** A texture spanning the bounding box of the pixels is their crop. */
  lemma CropOfBBox(t: CroppedTexture, b: BBox, pixels: seq<(U32, U32)>)
    requires Bounds(b, pixels) && Attained(b, pixels)
    requires t.origin == (b.minX, b.minY) && t.origin.0 + t.width == b.maxX && t.origin.1 + t.height == b.maxY
    requires |t.croppedPixelOffsets| == |pixels|
    requires forall i :: 0 <= i < |pixels| ==>
      t.croppedPixelOffsets[i] == (pixels[i].0 - b.minX, pixels[i].1 - b.minY)
    ensures IsCropOf(t, pixels)
  {
    BoxedPixels(b, pixels);
    assert CropBounds(t, pixels);
    assert CropOffsets(t, pixels);
    TouchedSides(b, pixels);
  }

  /** Each side of the bounding box is touched by a pixel at some index. */
  lemma TouchedSides(b: BBox, pixels: seq<(U32, U32)>)
    requires Bounds(b, pixels) && Attained(b, pixels)
    ensures exists i :: 0 <= i < |pixels| && pixels[i].0 == b.minX
    ensures exists i :: 0 <= i < |pixels| && pixels[i].1 == b.minY
    ensures exists i :: 0 <= i < |pixels| && pixels[i].0 == b.maxX
    ensures exists i :: 0 <= i < |pixels| && pixels[i].1 == b.maxY
  {
    var p1 :| p1 in pixels && p1.0 == b.minX;
    var p2 :| p2 in pixels && p2.1 == b.minY;
    var p3 :| p3 in pixels && p3.0 == b.maxX;
    var p4 :| p4 in pixels && p4.1 == b.maxY;
    var i1 :| 0 <= i1 < |pixels| && pixels[i1] == p1;
    var i2 :| 0 <= i2 < |pixels| && pixels[i2] == p2;
    var i3 :| 0 <= i3 < |pixels| && pixels[i3] == p3;
    var i4 :| 0 <= i4 < |pixels| && pixels[i4] == p4;
  }

  /**
   * `overlaps`: the two boxes, compared with strict inequalities, are not
   * apart; never true across different source images (paths compared as
   * `PathBuf`s, component by component).
   */
  function Overlaps(a: CroppedTexture, b: CroppedTexture): (r: bool)
    ensures !SamePath(a.imagePath, b.imagePath) ==> !r
  {
    if !SamePath(a.imagePath, b.imagePath) then false
    else
      var x1, y1, w1, h1: nat := a.origin.0, a.origin.1, a.width, a.height;
      var x2, y2, w2, h2: nat := b.origin.0, b.origin.1, b.width, b.height;
      !(x1 + w1 < x2 || x2 + w2 < x1 || y1 + h1 < y2 || y2 + h2 < y1)
  }

  /**
   * `covers`: the offset of `b` inside `a` when both come from the same image
   * and `a`'s box contains `b`'s; `None` otherwise.
   */
  function Covers(a: CroppedTexture, b: CroppedTexture): (r: Option<(U32, U32)>)
    ensures r.Some? ==>
      && SamePath(a.imagePath, b.imagePath)
      && a.origin.0 + r.value.0 == b.origin.0 && a.origin.1 + r.value.1 == b.origin.1
      && r.value.0 + b.width <= a.width && r.value.1 + b.height <= a.height
  {
    if !SamePath(a.imagePath, b.imagePath) then None
    else
      var x1, y1, w1, h1: nat := a.origin.0, a.origin.1, a.width, a.height;
      var x2, y2, w2, h2: nat := b.origin.0, b.origin.1, b.width, b.height;
      if x1 <= x2 && y1 <= y2 && x1 + w1 >= x2 + w2 && y1 + h1 >= y2 + h2 then
        Some((x2 - x1, y2 - y1))
      else
        None
  }

  /** Two textures overlap exactly when they share an image and a pixel of their closed boxes. */
  lemma OverlapsIffSharedPixel(a: CroppedTexture, b: CroppedTexture)
    ensures Overlaps(a, b) <==>
      SamePath(a.imagePath, b.imagePath) && exists px, py :: InBox(a, px, py) && InBox(b, px, py)
  {
    if Overlaps(a, b) {
      var px := if a.origin.0 <= b.origin.0 then b.origin.0 else a.origin.0;
      var py := if a.origin.1 <= b.origin.1 then b.origin.1 else a.origin.1;
      assert InBox(a, px, py) && InBox(b, px, py);
    }
  }

  /** `overlaps` does not depend on the order of its arguments. */
  lemma OverlapsSymmetric(a: CroppedTexture, b: CroppedTexture)
    ensures Overlaps(a, b) == Overlaps(b, a)
  {
  }

  /** Every texture overlaps itself. */
  lemma OverlapsReflexive(a: CroppedTexture)
    ensures Overlaps(a, a)
  {
  }

  /** Boxes that only touch along a vertical edge count as overlapping. */
  lemma TouchingOverlaps(a: CroppedTexture, b: CroppedTexture)
    requires SamePath(a.imagePath, b.imagePath)
    requires a.origin.0 + a.width == b.origin.0 && a.origin.1 == b.origin.1
    ensures Overlaps(a, b)
  {
  }

  /** `covers` answers `Some` exactly when the two share an image and `b`'s box lies within `a`'s. */
  lemma CoversIffContains(a: CroppedTexture, b: CroppedTexture)
    ensures Covers(a, b).Some? <==>
      SamePath(a.imagePath, b.imagePath) && forall px, py :: InBox(b, px, py) ==> InBox(a, px, py)
  {
    if SamePath(a.imagePath, b.imagePath) && forall px, py :: InBox(b, px, py) ==> InBox(a, px, py) {
      assert InBox(b, b.origin.0, b.origin.1);
      assert InBox(b, b.origin.0 + b.width, b.origin.1 + b.height);
    }
  }

  /** A covered texture also overlaps its cover. */
  lemma CoversImpliesOverlaps(a: CroppedTexture, b: CroppedTexture)
    requires Covers(a, b).Some?
    ensures Overlaps(a, b)
  {
  }

  /** Every texture covers itself with offset (0, 0). */
  lemma CoversSelf(a: CroppedTexture)
    ensures Covers(a, a) == Some((0, 0))
  {
  }

  /**
   * The same image spelled two ways: a 10 x 10 texture at (0, 0) of
   * `img/a.png` overlaps and covers the same box of `img//a.png`.
   */
  lemma SpellingsOfOneImage(factor: DownsampleFactor)
    ensures var a := CroppedTexture("img/a.png", (0, 0), 10, 10, factor, []);
      var b := CroppedTexture("img//a.png", (0, 0), 10, 10, factor, []);
      Overlaps(a, b) && Covers(a, b) == Some((0, 0))
  {
    DoubledSeparator("img", "a.png");
    assert "img" + "//" + "a.png" == "img//a.png";
    assert "img" + "/" + "a.png" == "img/a.png";
  }

  /**
   * A texture built by `NewCroppedTexture` keeps `origin + size` within u32,
   * so the sums in `overlaps` and `covers` cannot overflow for it.
   */
  lemma NewCroppedTextureFits(
    imagePath: string, size: (U32, U32), uvs: seq<(real, real)>, factor: DownsampleFactor)
    requires NewCroppedTexture(imagePath, size, uvs, factor).Success?
    ensures var t := NewCroppedTexture(imagePath, size, uvs, factor).value;
      t.origin.0 + t.width < U32_MAX && t.origin.1 + t.height < U32_MAX
  {
  }
}

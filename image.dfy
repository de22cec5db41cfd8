/**
 * The cover mapping ("background-size: cover") and the mirrored stripe
 * `img | mirror(img)` used when the row is wide.
 */
module Image {
  import opened PlateTypes

  /**
   * The centred sub-rectangle of an `imgW` x `imgH` image with the aspect
   * ratio of the `destW` x `destH` destination, as large as the image allows.
   */
  function GetCoverSrcRect(imgW: real, imgH: real, destW: real, destH: real): (c: CoverRect)
    requires imgW > 0.0 && imgH > 0.0 && destW > 0.0 && destH > 0.0
    ensures c.w > 0.0 && c.h > 0.0
    ensures c.w / c.h == destW / destH
    ensures 0.0 <= c.x && 0.0 <= c.y && c.x + c.w <= imgW && c.y + c.h <= imgH
    ensures c.x == (imgW - c.w) / 2.0 && c.y == (imgH - c.h) / 2.0
    ensures c.w == imgW || c.h == imgH
  {
    var srcRatio := imgW / imgH;
    var destRatio := destW / destH;
    if destRatio > srcRatio then
      var h := imgW / destRatio;
      CoverAspectWide(imgW, imgH, destW, destH);
      CoverRect(0.0, (imgH - h) / 2.0, imgW, h)
    else
      var w := imgH * destRatio;
      CoverAspectTall(imgW, imgH, destW, destH);
      CoverRect((imgW - w) / 2.0, 0.0, w, imgH)
  }

  /** The branch for a relatively wider destination: full width, cropped height. */
  lemma CoverAspectWide(imgW: real, imgH: real, destW: real, destH: real)
    requires imgW > 0.0 && imgH > 0.0 && destW > 0.0 && destH > 0.0
    requires destW / destH > imgW / imgH
    ensures 0.0 < imgW / (destW / destH) < imgH
    ensures imgW / (imgW / (destW / destH)) == destW / destH
  {
    var d := destW / destH;
    var h := imgW / d;
    assert h * d == imgW;
    assert d * imgH > imgW by {
      assert (imgW / imgH) * imgH == imgW;
    }
    assert h < imgH;
  }

  /** The branch for a relatively taller (or equal) destination: full height, cropped width. */
  lemma CoverAspectTall(imgW: real, imgH: real, destW: real, destH: real)
    requires imgW > 0.0 && imgH > 0.0 && destW > 0.0 && destH > 0.0
    requires !(destW / destH > imgW / imgH)
    ensures 0.0 < imgH * (destW / destH) <= imgW
    ensures (imgH * (destW / destH)) / imgH == destW / destH
  {
    var d := destW / destH;
    assert d <= imgW / imgH;
    assert (imgW / imgH) * imgH == imgW;
  }

  /** Equal aspect ratios give the whole image. */
  lemma CoverOfSameAspectIsWholeImage(imgW: real, imgH: real, destW: real, destH: real)
    requires imgW > 0.0 && imgH > 0.0 && destW > 0.0 && destH > 0.0
    requires destW / destH == imgW / imgH
    ensures GetCoverSrcRect(imgW, imgH, destW, destH) == CoverRect(0.0, 0.0, imgW, imgH)
  {
    assert imgH * (imgW / imgH) == imgW;
  }

  /**
   * No rectangle of the destination's aspect ratio that fits inside the image
   * is wider (or, equivalently, taller) than the cover rectangle.
   */
  lemma CoverIsLargest(imgW: real, imgH: real, destW: real, destH: real, w: real, h: real)
    requires imgW > 0.0 && imgH > 0.0 && destW > 0.0 && destH > 0.0
    requires 0.0 < w <= imgW && 0.0 < h <= imgH && w / h == destW / destH
    ensures w <= GetCoverSrcRect(imgW, imgH, destW, destH).w
    ensures h <= GetCoverSrcRect(imgW, imgH, destW, destH).h
  {
    var c := GetCoverSrcRect(imgW, imgH, destW, destH);
    var d := destW / destH;
    assert w == h * d by {
      assert (w / h) * h == w;
    }
    assert c.w == c.h * d by {
      assert (c.w / c.h) * c.h == c.w;
    }
    if c.w == imgW {
      assert h * d <= c.h * d;
    } else {
      assert c.h == imgH;
      assert h * d <= c.h * d;
    }
  }

  /** A 100 x 100 image into a 60 x 30 canvas: full width, a centred band 50 high. */
  lemma CoverExample()
    ensures GetCoverSrcRect(100.0, 100.0, 60.0, 30.0) == CoverRect(0.0, 25.0, 100.0, 50.0)
  {
  }

  /**
   * The stripe holds the image unchanged in columns `[0, W)` and its mirror
   * image in columns `[W, 2W)`: column `c >= W` is image column `2W - 1 - c`.
   * Pixels are indexed `[row, column]`.
   */
  ghost predicate IsMirroredStripe<T>(img: array2<T>, stripe: array2<T>)
    reads img, stripe
  {
    && stripe.Length0 == img.Length0
    && stripe.Length1 == 2 * img.Length1
    && (forall r, c :: 0 <= r < img.Length0 && 0 <= c < img.Length1 ==>
          stripe[r, c] == img[r, c])
    && (forall r, c :: 0 <= r < img.Length0 && img.Length1 <= c < stripe.Length1 ==>
          stripe[r, c] == img[r, 2 * img.Length1 - 1 - c])
  }

  /**
   * Paints `img` at the origin, then paints it again flipped about the
   * vertical axis through the stripe's right edge (translate by the stripe
   * width, scale x by -1), which lands image column `c` on stripe column
   * `2W - 1 - c`.
   */
  method MakeMirroredStripe<T(0)>(img: array2<T>) returns (stripe: array2<T>, sW: nat, sH: nat)
    ensures fresh(stripe)
    ensures sW == 2 * img.Length1 && sH == img.Length0
    ensures stripe.Length1 == sW && stripe.Length0 == sH
    ensures IsMirroredStripe(img, stripe)
  {
    var w, h := img.Length1, img.Length0;
    stripe := new T[h, 2 * w];
    // first pass: the image as it is
    var r := 0;
    while r < h
      invariant 0 <= r <= h
      invariant forall i, j :: 0 <= i < r && 0 <= j < w ==> stripe[i, j] == img[i, j]
    {
      var c := 0;
      while c < w
        invariant 0 <= c <= w
        invariant forall i, j :: 0 <= i < r && 0 <= j < w ==> stripe[i, j] == img[i, j]
        invariant forall j :: 0 <= j < c ==> stripe[r, j] == img[r, j]
      {
        stripe[r, c] := img[r, c];
        c := c + 1;
      }
      r := r + 1;
    }
    // second pass: the mirrored image
    r := 0;
    while r < h
      invariant 0 <= r <= h
      invariant forall i, j :: 0 <= i < h && 0 <= j < w ==> stripe[i, j] == img[i, j]
      invariant forall i, j :: 0 <= i < r && w <= j < 2 * w ==> stripe[i, j] == img[i, 2 * w - 1 - j]
    {
      var c := 0;
      while c < w
        invariant 0 <= c <= w
        invariant forall i, j :: 0 <= i < h && 0 <= j < w ==> stripe[i, j] == img[i, j]
        invariant forall i, j :: 0 <= i < r && w <= j < 2 * w ==> stripe[i, j] == img[i, 2 * w - 1 - j]
        invariant forall j :: 2 * w - c <= j < 2 * w ==> stripe[r, j] == img[r, 2 * w - 1 - j]
      {
        stripe[r, 2 * w - 1 - c] := img[r, c];
        c := c + 1;
      }
      r := r + 1;
    }
    sW, sH := stripe.Length1, stripe.Length0;
  }

  /** The two columns either side of the seam are identical, so the seam does not show. */
  lemma StripeSeamIsContinuous<T>(img: array2<T>, stripe: array2<T>, r: int)
    requires IsMirroredStripe(img, stripe)
    requires 0 <= r < img.Length0 && img.Length1 > 0
    ensures stripe[r, img.Length1 - 1] == stripe[r, img.Length1]
  {
    var w := img.Length1;
    assert stripe[r, w - 1] == img[r, w - 1];
  }
}

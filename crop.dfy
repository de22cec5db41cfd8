/**
 * The per-plate crop projection: an affine map from logical canvas
 * coordinates into the cover rectangle of the source image.
 */
module Crop {
  import opened PlateTypes
  import opened JsNumber
  import Image
  import Layout

  /**
   * The crop of a plate whose left edge is at `cursorX` on a `pxW` x `pxH`
   * canvas, bottom-anchored with height `plateH`, drawn `drawW` x `drawH`.
   */
  function BuildPlateCrop(c: CoverRect, pxW: real, pxH: real, cursorX: real, plateH: real,
                          drawW: real, drawH: real): CropRect
    requires pxW != 0.0 && pxH != 0.0
  {
    var sx := c.w / pxW;
    var sy := c.h / pxH;
    CropRect(c.x + cursorX * sx, c.y + (pxH - plateH) * sy, drawW * sx, drawH * sy)
  }

  /**
   * The crop is the plate's canvas rectangle scaled by `c.w / pxW` across
   * and `c.h / pxH` down: its offset from the cover's left edge, its size,
   * and the height of its top above the cover's bottom edge.
   */
  lemma CropScalesCanvas(c: CoverRect, pxW: real, pxH: real, cursorX: real, plateH: real,
                         drawW: real, drawH: real)
    requires pxW != 0.0 && pxH != 0.0
    ensures var r := BuildPlateCrop(c, pxW, pxH, cursorX, plateH, drawW, drawH);
      && (r.x - c.x) * pxW == cursorX * c.w
      && r.width * pxW == drawW * c.w
      && r.height * pxH == drawH * c.h
      && (c.y + c.h - r.y) * pxH == plateH * c.h
  {
    var sx := c.w / pxW;
    var sy := c.h / pxH;
    assert sx * pxW == c.w;
    assert sy * pxH == c.h;
    assert (c.h - (pxH - plateH) * sy) * pxH == plateH * c.h;
  }

  /** A "plate" covering the whole canvas gets the whole cover rectangle back. */
  lemma FullCanvasCropIsCover(c: CoverRect, pxW: real, pxH: real)
    requires pxW != 0.0 && pxH != 0.0
    ensures BuildPlateCrop(c, pxW, pxH, 0.0, pxH, pxW, pxH) == CropRect(c.x, c.y, c.w, c.h)
  {
    assert pxW * (c.w / pxW) == c.w;
    assert pxH * (c.h / pxH) == c.h;
  }

  /**
   * Additivity: the crop at cursor `k` widened by `w` canvas pixels ends
   * exactly where the crop at cursor `k + w` begins.
   */
  lemma CropIsAdditive(c: CoverRect, pxW: real, pxH: real, k: real, w: real,
                       h1: real, h2: real, dh1: real, dh2: real)
    requires pxW != 0.0 && pxH != 0.0
    ensures BuildPlateCrop(c, pxW, pxH, k, h1, w, dh1).x + BuildPlateCrop(c, pxW, pxH, k, h1, w, dh1).width
         == BuildPlateCrop(c, pxW, pxH, k + w, h2, w, dh2).x
  {
    var sx := c.w / pxW;
    assert k * sx + w * sx == (k + w) * sx;
  }

  /** A plate drawn at its full height has a crop that reaches the bottom edge of the cover rectangle. */
  lemma CropIsBottomAnchored(c: CoverRect, pxW: real, pxH: real, cursorX: real, plateH: real, drawW: real)
    requires pxW != 0.0 && pxH != 0.0
    ensures BuildPlateCrop(c, pxW, pxH, cursorX, plateH, drawW, plateH).y
          + BuildPlateCrop(c, pxW, pxH, cursorX, plateH, drawW, plateH).height == c.y + c.h
  {
    var sy := c.h / pxH;
    assert (pxH - plateH) * sy + plateH * sy == pxH * sy;
    assert pxH * sy == c.h;
  }

  /**
   * A plate that lies inside the canvas gets a crop inside the cover
   * rectangle. The preconditions matter: a plate taller than `pxH` (possible
   * when the tallest height is rounded down) starts above the cover.
   */
  lemma CropIsContained(c: CoverRect, pxW: real, pxH: real, cursorX: real, plateH: real,
                        drawW: real, drawH: real)
    requires pxW > 0.0 && pxH > 0.0 && c.w >= 0.0 && c.h >= 0.0
    requires 0.0 <= cursorX && 0.0 <= drawW && cursorX + drawW <= pxW
    requires 0.0 <= drawH <= plateH <= pxH
    ensures var r := BuildPlateCrop(c, pxW, pxH, cursorX, plateH, drawW, drawH);
      && c.x <= r.x && r.x + r.width <= c.x + c.w
      && c.y <= r.y && r.y + r.height <= c.y + c.h
  {
    var sx := c.w / pxW;
    var sy := c.h / pxH;
    assert sx >= 0.0 && sy >= 0.0;
    assert cursorX * sx >= 0.0;
    assert cursorX * sx + drawW * sx == (cursorX + drawW) * sx <= pxW * sx == c.w;
    assert (pxH - plateH) * sy >= 0.0;
    assert drawH * sy <= plateH * sy;
    assert (pxH - plateH) * sy + plateH * sy == pxH * sy == c.h;
  }

  /** A crop taken from a cover rectangle scales both axes alike, so it is undistorted. */
  lemma CoverCropIsUndistorted(imgW: real, imgH: real, pxW: real, pxH: real)
    requires imgW > 0.0 && imgH > 0.0 && pxW > 0.0 && pxH > 0.0
    ensures var c := Image.GetCoverSrcRect(imgW, imgH, pxW, pxH);
      c.w / pxW == c.h / pxH
  {
    var c := Image.GetCoverSrcRect(imgW, imgH, pxW, pxH);
    assert c.w == c.h * (pxW / pxH) by {
      assert (c.w / c.h) * c.h == c.w;
    }
    assert c.w / pxW == c.h * (pxW / pxH) / pxW;
  }

  /**
   * Untrimmed crops of consecutive plates, placed at their prefix-sum
   * cursors, tile the cover rectangle without gaps or overlaps: plate `i`'s
   * crop ends where plate `i + 1`'s begins.
   */
  lemma UntrimmedCropsTile(ps: seq<Plate>, c: CoverRect, pxW: real, pxH: real, i: nat)
    requires pxW != 0.0 && pxH != 0.0
    requires i + 1 < |ps|
    ensures var wi := Coerce(ps[i].width);
      var hi := Coerce(ps[i].height);
      var hj := Coerce(ps[i + 1].height);
      var left := BuildPlateCrop(c, pxW, pxH, Layout.SumWidths(ps[..i]), hi, wi, hi);
      var right := BuildPlateCrop(c, pxW, pxH, Layout.SumWidths(ps[..i + 1]), hj, Coerce(ps[i + 1].width), hj);
      left.x + left.width == right.x
  {
    Layout.SumWidthsStep(ps, i);
    var wi := Coerce(ps[i].width);
    CropIsAdditive(c, pxW, pxH, Layout.SumWidths(ps[..i]), wi,
      Coerce(ps[i].height), Coerce(ps[i + 1].height), Coerce(ps[i].height), Coerce(ps[i + 1].height));
  }

  /**
   * When the row's total width is the canvas width, the last untrimmed crop
   * ends exactly at the right edge of the cover rectangle.
   */
  lemma RowCropEndsAtCoverEdge(ps: seq<Plate>, c: CoverRect, pxW: real, pxH: real)
    requires pxW != 0.0 && pxH != 0.0
    requires |ps| > 0 && Layout.SumWidths(ps) == pxW
    ensures var last := |ps| - 1;
      var hl := Coerce(ps[last].height);
      var r := BuildPlateCrop(c, pxW, pxH, Layout.SumWidths(ps[..last]), hl, Coerce(ps[last].width), hl);
      r.x + r.width == c.x + c.w
  {
    var last := |ps| - 1;
    assert ps[..last + 1] == ps;
    Layout.SumWidthsStep(ps, last);
    var a, w := Layout.SumWidths(ps[..last]), Coerce(ps[last].width);
    ScaledSpanEndsAtEdge(c.x, c.w, pxW, a, w);
  }

  /** Two canvas spans adding up to the canvas width map onto the whole cover width. */
  lemma ScaledSpanEndsAtEdge(cx: real, cw: real, pxW: real, a: real, w: real)
    requires pxW != 0.0 && a + w == pxW
    ensures cx + a * (cw / pxW) + w * (cw / pxW) == cx + cw
  {
    var sx := cw / pxW;
    assert a * sx + w * sx == pxW * sx == cw;
  }
}

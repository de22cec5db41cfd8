/**
 * The plate canvas: which image buffer is sampled (the image itself or its
 * mirrored stripe), the global cover rectangle, the bottom-aligned plate
 * rectangles with their seam positions, the fit-to-container scaling and
 * the per-plate crop computed inline while rendering.
 */
module Canvas {
  import opened JsNumber
  import opened PlateTypes
  import Layout
  import Image
  import Crop
  import Animation

  /** A (possibly still loading) image element; a zero size means "not loaded yet". */
  datatype LoadedImage = LoadedImage(width: nat, height: nat)

  /** The buffer sampled for the crops and its pixel size; `present` is `sourceImg != null`. */
  datatype Source = Source(present: bool, mirrored: bool, sW: real, sH: real)

  /** A plate's drawn rectangle on the stage (logical pixels, padding included). */
  datatype PlateRect = PlateRect(id: string, left: real, top: real, width: real, height: real)

  /**
   * Mirror only a wide row (`totalWidth > 300`) over a loaded image; the
   * stripe is twice as wide as the image. Otherwise sample the image itself,
   * or nothing (size 0 x 0) when there is no image.
   */
  function ChooseSource(img: Option<LoadedImage>, totalWidth: real): (s: Source)
    ensures s.present <==> img.Some?
    ensures s.mirrored <==> totalWidth > MIRROR_THRESHOLD && img.Some? && img.value.width > 0 && img.value.height > 0
    ensures img.None? ==> s.sW == 0.0 && s.sH == 0.0
    ensures img.Some? ==> s.sH == img.value.height as real
    ensures img.Some? ==> s.sW == if s.mirrored then 2.0 * img.value.width as real else img.value.width as real
  {
    var ready := img.Some? && img.value.width > 0 && img.value.height > 0;
    var needsMirror := totalWidth > MIRROR_THRESHOLD && ready;
    if !needsMirror || img.None? then
      if img.Some? then Source(true, false, img.value.width as real, img.value.height as real)
      else Source(false, false, 0.0, 0.0)
    else
      Source(true, true, (img.value.width * 2) as real, img.value.height as real)
  }

  /**
   * `globalSrc`: the cover rectangle of the sampled buffer for the logical
   * canvas, or none without a buffer of positive size.
   */
  function GlobalSrc(src: Source, pxW: real, pxH: real): (g: Option<CoverRect>)
    requires pxW > 0.0 && pxH > 0.0
    ensures g.Some? <==> src.present && src.sW > 0.0 && src.sH > 0.0
    ensures g.Some? ==> g.value == Image.GetCoverSrcRect(src.sW, src.sH, pxW, pxH)
  {
    if src.present && src.sW > 0.0 && src.sH > 0.0 then Some(Image.GetCoverSrcRect(src.sW, src.sH, pxW, pxH))
    else None
  }

  /** A loaded image always yields a cover rectangle, inside the sampled buffer and of the canvas's shape. */
  lemma LoadedImageHasCover(img: LoadedImage, totalWidth: real, pxW: real, pxH: real)
    requires img.width > 0 && img.height > 0 && pxW > 0.0 && pxH > 0.0
    ensures var src := ChooseSource(Some(img), totalWidth);
      var g := GlobalSrc(src, pxW, pxH);
      && g.Some?
      && 0.0 <= g.value.x && g.value.x + g.value.w <= src.sW
      && 0.0 <= g.value.y && g.value.y + g.value.h <= src.sH
      && g.value.w / g.value.h == pxW / pxH
  {
  }

  /** The drawn rectangle of plate `i`: after the widths of the plates before it, bottom-aligned, trimmed by `GAP`. */
  function RectFor(ps: seq<Plate>, pxH: real, i: nat): PlateRect
    requires i < |ps|
  {
    var w := Coerce(ps[i].width);
    var h := Coerce(ps[i].height);
    PlateRect(ps[i].id, PAD + Layout.SumWidths(ps[..i]), PAD + (pxH - h), RMax(0.0, w - GAP), h)
  }

  /**
   * Walks the plates with a running cursor: one rectangle per plate, and
   * the seam positions `PAD` followed by `PAD` plus each prefix sum.
   */
  method BuildPlateRects(plates: seq<Plate>, pxH: real) returns (rects: seq<PlateRect>, gaps: seq<real>)
    ensures |rects| == |plates| && |gaps| == |plates| + 1
    ensures forall i :: 0 <= i < |plates| ==> rects[i] == RectFor(plates, pxH, i)
    ensures gaps[0] == PAD
    ensures forall i :: 1 <= i <= |plates| ==> gaps[i] == PAD + Layout.SumWidths(plates[..i])
  {
    rects := [];
    gaps := [];
    var cursorXForRects := 0.0;
    gaps := gaps + [PAD];
    for k := 0 to |plates|
      invariant |rects| == k && |gaps| == k + 1
      invariant cursorXForRects == Layout.SumWidths(plates[..k])
      invariant forall i :: 0 <= i < k ==> rects[i] == RectFor(plates, pxH, i)
      invariant gaps[0] == PAD
      invariant forall i :: 1 <= i <= k ==> gaps[i] == PAD + Layout.SumWidths(plates[..i])
    {
      var p := plates[k];
      var w := Coerce(p.width);
      var h := Coerce(p.height);
      var drawW := RMax(0.0, w - GAP);
      var x := cursorXForRects;
      var y := pxH - h;
      rects := rects + [PlateRect(p.id, PAD + x, PAD + y, drawW, h)];
      Layout.SumWidthsStep(plates, k);
      cursorXForRects := cursorXForRects + w;
      gaps := gaps + [PAD + cursorXForRects];
    }
  }

  /** Consecutive plates are placed one coerced width apart. */
  lemma ConsecutiveLeftsDifferByWidth(ps: seq<Plate>, pxH: real, i: nat)
    requires i + 1 < |ps|
    ensures RectFor(ps, pxH, i + 1).left == RectFor(ps, pxH, i).left + Coerce(ps[i].width)
  {
    Layout.SumWidthsStep(ps, i);
  }

  /** All plates share the bottom edge `PAD + pxH`, and the last seam is `PAD + totalWidth`. */
  lemma RectsShareBottomEdge(ps: seq<Plate>, pxH: real, i: nat)
    requires i < |ps|
    ensures RectFor(ps, pxH, i).top + RectFor(ps, pxH, i).height == PAD + pxH
    ensures i + 1 == |ps| ==> PAD + Layout.SumWidths(ps[..i + 1]) == PAD + Layout.ComputeSizes(ps).totalWidth
  {
    assert i + 1 == |ps| ==> ps[..i + 1] == ps;
  }

  // ---------------------------------------------------------------------
  // Fit-to-container scaling
  // ---------------------------------------------------------------------

  function ScaleRect(r: PlateRect, scale: real): PlateRect
  {
    PlateRect(r.id, r.left * scale, r.top * scale, r.width * scale, r.height * scale)
  }

  /** The stage size, rectangles and seams, each multiplied by `fitScale`. */
  datatype ScaledStage = ScaledStage(width: real, height: real, rects: seq<PlateRect>, gaps: seq<real>)

  function ScaleStage(stageWidth: real, stageHeight: real, rects: seq<PlateRect>, gaps: seq<real>,
                      fitScale: real): (s: ScaledStage)
    ensures s.width == stageWidth * fitScale && s.height == stageHeight * fitScale
    ensures |s.rects| == |rects| && |s.gaps| == |gaps|
    ensures forall i :: 0 <= i < |rects| ==> s.rects[i] == ScaleRect(rects[i], fitScale)
    ensures forall i :: 0 <= i < |gaps| ==> s.gaps[i] == gaps[i] * fitScale
  {
    var scale := fitScale * 1.0;
    ScaledStage(stageWidth * scale, stageHeight * scale,
      seq(|rects|, i requires 0 <= i < |rects| => ScaleRect(rects[i], scale)),
      seq(|gaps|, i requires 0 <= i < |gaps| => gaps[i] * scale))
  }

  /** Scaling keeps the shared bottom edge: every scaled plate still ends at `(PAD + pxH) * fitScale`. */
  lemma ScalingKeepsBottomEdge(ps: seq<Plate>, pxH: real, stageWidth: real, stageHeight: real,
                               rects: seq<PlateRect>, gaps: seq<real>, fitScale: real, i: nat)
    requires |rects| == |ps| && i < |ps|
    requires forall j :: 0 <= j < |ps| ==> rects[j] == RectFor(ps, pxH, j)
    ensures var r := ScaleStage(stageWidth, stageHeight, rects, gaps, fitScale).rects[i];
      r.top + r.height == (PAD + pxH) * fitScale
  {
    RectsShareBottomEdge(ps, pxH, i);
    var r := rects[i];
    assert r.top * fitScale + r.height * fitScale == (r.top + r.height) * fitScale;
  }

  /** At scale 1 nothing moves. */
  lemma ScaleOneIsIdentity(stageWidth: real, stageHeight: real, rects: seq<PlateRect>, gaps: seq<real>)
    ensures ScaleStage(stageWidth, stageHeight, rects, gaps, 1.0) == ScaledStage(stageWidth, stageHeight, rects, gaps)
  {
    var s := ScaleStage(stageWidth, stageHeight, rects, gaps, 1.0);
    assert s.rects == rects;
    assert s.gaps == gaps;
  }

  // ---------------------------------------------------------------------
  // The crop computed inline while rendering each plate
  // ---------------------------------------------------------------------

  /** Rectangle `k` carries the id and none before it does. */
  predicate IsFirstWithId(rects: seq<PlateRect>, id: string, k: nat)
  {
    k < |rects| && rects[k].id == id && forall j :: 0 <= j < k ==> rects[j].id != id
  }

  /** `rects.find(r => r.id === id)`: the first rectangle with the id. */
  function FindRect(rects: seq<PlateRect>, id: string): (r: Option<PlateRect>)
    ensures r.Some? ==> r.value in rects && r.value.id == id
    ensures r.None? <==> forall j :: 0 <= j < |rects| ==> rects[j].id != id
    ensures r.Some? ==> exists k :: 0 <= k < |rects| && rects[k] == r.value && IsFirstWithId(rects, id, k)
  {
    if |rects| == 0 then None
    else if rects[0].id == id then Some(rects[0])
    else FindRect(rects[1..], id)
  }

  /**
   * The crop of plate `p` as the render loop computes it: its cursor is
   * recovered from the FIRST rectangle carrying its id (`PAD` when none).
   */
  function InlineCrop(rects: seq<PlateRect>, p: Plate, pxW: real, pxH: real,
                      hasSource: bool, globalSrc: Option<CoverRect>): Option<CropRect>
    requires pxW != 0.0 && pxH != 0.0
  {
    var w := Coerce(p.width);
    var h := Coerce(p.height);
    var x := (match FindRect(rects, p.id) case Some(r) => r.left case None => PAD) - PAD;
    var drawW := RMax(0.0, w - GAP);
    var drawH := h;
    if hasSource && globalSrc.Some? then Some(ScaledCrop(globalSrc.value, pxW, pxH, x, h, drawW, drawH))
    else None
  }

  /** The crop as the render loop writes it: each canvas length times the cover size over the canvas size. */
  function ScaledCrop(g: CoverRect, pxW: real, pxH: real, x: real, h: real, drawW: real, drawH: real): CropRect
    requires pxW != 0.0 && pxH != 0.0
  {
    CropRect(g.x + (g.w * x) / pxW, g.y + (g.h * (pxH - h)) / pxH, (g.w * drawW) / pxW, (g.h * drawH) / pxH)
  }

  /** The render loop's crop is the plate crop of the crop helper. */
  lemma ScaledCropIsPlateCrop(g: CoverRect, pxW: real, pxH: real, x: real, h: real, drawW: real, drawH: real)
    requires pxW != 0.0 && pxH != 0.0
    ensures ScaledCrop(g, pxW, pxH, x, h, drawW, drawH) == Crop.BuildPlateCrop(g, pxW, pxH, x, h, drawW, drawH)
  {
    var f := ScaledCrop(g, pxW, pxH, x, h, drawW, drawH);
    var b := Crop.BuildPlateCrop(g, pxW, pxH, x, h, drawW, drawH);
    assert f.x == b.x by {
      assert f.x == g.x + (g.w * x) / pxW;
      assert b.x == g.x + x * (g.w / pxW);
    }
    assert f.y == b.y by {
      assert f.y == g.y + (g.h * (pxH - h)) / pxH;
      assert b.y == g.y + (pxH - h) * (g.h / pxH);
    }
    assert f.width == b.width by {
      assert f.width == (g.w * drawW) / pxW;
      assert b.width == drawW * (g.w / pxW);
    }
    assert f.height == b.height by {
      assert f.height == (g.h * drawH) / pxH;
      assert b.height == drawH * (g.h / pxH);
    }
  }

  /** Lookup by id in rectangles that carry the plates' ids follows the plates. */
  lemma {:induction false} FindRectById(ps: seq<Plate>, rects: seq<PlateRect>, id: string)
    requires |rects| == |ps| && HasId(ps, id)
    requires forall j :: 0 <= j < |ps| ==> rects[j].id == ps[j].id
    ensures FindRect(rects, id) == Some(rects[IndexOf(ps, id)])
    decreases |ps|
  {
    if ps[0].id != id {
      var j :| 0 <= j < |ps| && ps[j].id == id;
      assert ps[1..][j - 1].id == id;
      FindRectById(ps[1..], rects[1..], id);
    }
  }

  /**
   * The inline crop of plate `i` is the plate crop at the cursor of the
   * first plate sharing its id (its own cursor when the ids are unique, by
   * `IndexOfUnique`).
   */
  lemma {:induction false} InlineCropIsPlateCrop(ps: seq<Plate>, pxW: real, pxH: real, rects: seq<PlateRect>,
                              g: CoverRect, i: nat)
    requires pxW != 0.0 && pxH != 0.0
    requires |rects| == |ps| && i < |ps|
    requires forall j :: 0 <= j < |ps| ==> rects[j] == RectFor(ps, pxH, j)
    ensures var k := IndexOf(ps, ps[i].id);
      var h := Coerce(ps[i].height);
      InlineCrop(rects, ps[i], pxW, pxH, true, Some(g))
        == Some(Crop.BuildPlateCrop(g, pxW, pxH, Layout.SumWidths(ps[..k]), h, RMax(0.0, Coerce(ps[i].width) - GAP), h))
  {
    var k := FirstRectOf(ps, pxH, rects, i);
    InlineCropAt(rects, ps[i], pxW, pxH, g, rects[k], Layout.SumWidths(ps[..k]));
  }

  /** The lookup by plate `i`'s id finds the rectangle of the first plate sharing that id. */
  lemma {:induction false} FirstRectOf(ps: seq<Plate>, pxH: real, rects: seq<PlateRect>, i: nat) returns (k: nat)
    requires |rects| == |ps| && i < |ps|
    requires forall j :: 0 <= j < |ps| ==> rects[j] == RectFor(ps, pxH, j)
    ensures k == IndexOf(ps, ps[i].id) && k < |ps|
    ensures FindRect(rects, ps[i].id) == Some(rects[k])
    ensures rects[k].left - PAD == Layout.SumWidths(ps[..k])
  {
    forall j | 0 <= j < |ps| ensures rects[j].id == ps[j].id {
      assert rects[j] == RectFor(ps, pxH, j);
    }
    FindRectById(ps, rects, ps[i].id);
    k := IndexOf(ps, ps[i].id);
    assert rects[k] == RectFor(ps, pxH, k);
  }

  /** Given the rectangle the lookup finds, the inline crop is the plate crop at that rectangle's cursor. */
  lemma InlineCropAt(rects: seq<PlateRect>, p: Plate, pxW: real, pxH: real, g: CoverRect, r: PlateRect, x: real)
    requires pxW != 0.0 && pxH != 0.0
    requires FindRect(rects, p.id) == Some(r) && x == r.left - PAD
    ensures var h := Coerce(p.height);
      InlineCrop(rects, p, pxW, pxH, true, Some(g))
        == Some(Crop.BuildPlateCrop(g, pxW, pxH, x, h, RMax(0.0, Coerce(p.width) - GAP), h))
  {
    var h := Coerce(p.height);
    ScaledCropIsPlateCrop(g, pxW, pxH, x, h, RMax(0.0, Coerce(p.width) - GAP), h);
  }

  /**
   * The removal ghost, computed from the snapshot of the same canvas, sits
   * exactly where the plate was drawn and carries the crop it was drawn with
   * (ids being unique, as the list operations keep them).
   */
  lemma {:induction false} GhostMatchesDrawnPlate(ps: seq<Plate>, pxW: real, pxH: real, rects: seq<PlateRect>,
                               g: CoverRect, i: nat)
    requires pxW != 0.0 && pxH != 0.0
    requires |rects| == |ps| && i < |ps| && UniqueIds(ps)
    requires forall j :: 0 <= j < |ps| ==> rects[j] == RectFor(ps, pxH, j)
    ensures var ghost_ := Animation.RemovedGhostSpec(ps, ps[i].id, pxW, pxH, Some(g), true);
      && ghost_.Some?
      && ghost_.value.x == rects[i].left - PAD
      && ghost_.value.y == rects[i].top - PAD
      && ghost_.value.w == rects[i].width
      && ghost_.value.h == rects[i].height
      && ghost_.value.crop == InlineCrop(rects, ps[i], pxW, pxH, true, Some(g))
  {
    IndexOfUnique(ps, i);
    InlineCropIsPlateCrop(ps, pxW, pxH, rects, g, i);
  }
}

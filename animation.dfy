/**
 * Animation triggers: which surviving plates grew or shrank between two
 * plate lists, and where a just-removed plate was drawn (its "ghost").
 */
module Animation {
  import opened JsNumber
  import opened PlateTypes
  import Layout
  import Crop

  const EPS_DIM: real := 0.000001
  const EPS_AREA_REL: real := 0.000001

  datatype ChangeType = Grow | Shrink

  datatype ResizeChange = ResizeChange(id: string, kind: ChangeType)

  /** The rectangle and crop a removed plate occupied, in canvas pixels. */
  datatype RemovedGhost = RemovedGhost(id: string, x: real, y: real, w: real, h: real, crop: Option<CropRect>)

  // ---------------------------------------------------------------------
  // Resize classification
  // ---------------------------------------------------------------------

  /** `new Map(prev.map(p => [p.id, p]))`: a later plate overwrites an earlier one with the same id. */
  function ById(ps: seq<Plate>): map<string, Plate>
  {
    if |ps| == 0 then map[] else ById(ps[..|ps| - 1])[ps[|ps| - 1].id := ps[|ps| - 1]]
  }

  /**
   * The label for one matched pair, on raw `Number(...)` values (NaN is not
   * zeroed here): `None` when neither dimension moved by more than `epsDim`;
   * otherwise the sign of the relative area change, or, when that is
   * negligible, the sign of the dimension that changed more (width on a tie).
   */
  function Classify(before: Plate, cur: Plate, epsDim: real, epsAreaRel: real): (r: Option<ChangeType>)
    // numeric sizes are skipped exactly when both moved by at most `epsDim`
    ensures before.width.Fin? && before.height.Fin? && cur.width.Fin? && cur.height.Fin? ==>
      (r.None? <==> RAbs(cur.width.r - before.width.r) <= epsDim && RAbs(cur.height.r - before.height.r) <= epsDim)
    // a NaN size fails every comparison, so it is always reported
    ensures before.width.NaN? || before.height.NaN? || cur.width.NaN? || cur.height.NaN? ==> r.Some?
  {
    var dw := Sub(cur.width, before.width);
    var dh := Sub(cur.height, before.height);
    if Le(Abs(dw), Fin(epsDim)) && Le(Abs(dh), Fin(epsDim)) then None
    else
      var areaBefore := Mul(before.width, before.height);
      var areaAfter := Mul(cur.width, cur.height);
      var denom := Max(areaBefore, Fin(1.0));
      var relDelta := Div(Sub(areaAfter, areaBefore), denom);
      if Gt(Abs(relDelta), Fin(epsAreaRel)) then
        Some(if Gt(relDelta, Fin(0.0)) then Grow else Shrink)
      else if Ge(Abs(dw), Abs(dh)) then
        Some(if Ge(dw, Fin(0.0)) then Grow else Shrink)
      else
        Some(if Ge(dh, Fin(0.0)) then Grow else Shrink)
  }

  /** What one plate of `next` contributes to the output. */
  function Emit(beforeById: map<string, Plate>, cur: Plate, epsDim: real, epsAreaRel: real): seq<ResizeChange>
  {
    if cur.id !in beforeById then []
    else match Classify(beforeById[cur.id], cur, epsDim, epsAreaRel)
      case None => []
      case Some(t) => [ResizeChange(cur.id, t)]
  }

  function ChangesFrom(beforeById: map<string, Plate>, next: seq<Plate>, epsDim: real, epsAreaRel: real): seq<ResizeChange>
  {
    if |next| == 0 then []
    else ChangesFrom(beforeById, next[..|next| - 1], epsDim, epsAreaRel)
         + Emit(beforeById, next[|next| - 1], epsDim, epsAreaRel)
  }

  /** The specification of `GetResizeChanges`. */
  function ResizeChanges(prev: seq<Plate>, next: seq<Plate>, epsDim: real, epsAreaRel: real): seq<ResizeChange>
  {
    ChangesFrom(ById(prev), next, epsDim, epsAreaRel)
  }

  method GetResizeChanges(prev: seq<Plate>, next: seq<Plate>,
                          epsDim: real := EPS_DIM, epsAreaRel: real := EPS_AREA_REL)
    returns (changes: seq<ResizeChange>)
    ensures changes == ResizeChanges(prev, next, epsDim, epsAreaRel)
  {
    var beforeById: map<string, Plate> := map[];
    for i := 0 to |prev|
      invariant beforeById == ById(prev[..i])
    {
      assert prev[..i + 1][..i] == prev[..i];
      beforeById := beforeById[prev[i].id := prev[i]];
    }
    assert prev[..|prev|] == prev;
    changes := [];
    for i := 0 to |next|
      invariant changes == ChangesFrom(beforeById, next[..i], epsDim, epsAreaRel)
    {
      var cur := next[i];
      assert next[..i + 1][..i] == next[..i];
      if cur.id !in beforeById {
        continue;
      }
      var before := beforeById[cur.id];
      var dw := Sub(cur.width, before.width);
      var dh := Sub(cur.height, before.height);
      if Le(Abs(dw), Fin(epsDim)) && Le(Abs(dh), Fin(epsDim)) {
        continue;
      }
      var areaBefore := Mul(before.width, before.height);
      var areaAfter := Mul(cur.width, cur.height);
      var denom := Max(areaBefore, Fin(1.0));
      var relDelta := Div(Sub(areaAfter, areaBefore), denom);
      var kind: ChangeType;
      if Gt(Abs(relDelta), Fin(epsAreaRel)) {
        kind := if Gt(relDelta, Fin(0.0)) then Grow else Shrink;
      } else {
        kind := if Ge(Abs(dw), Abs(dh))
          then (if Ge(dw, Fin(0.0)) then Grow else Shrink)
          else (if Ge(dh, Fin(0.0)) then Grow else Shrink);
      }
      changes := changes + [ResizeChange(cur.id, kind)];
    }
    assert next[..|next|] == next;
  }

  /** The map holds exactly the ids of `ps`, each bound to its LAST plate with that id. */
  lemma {:induction false} ById_IsLastOccurrence(ps: seq<Plate>, id: string)
    ensures id in ById(ps) <==> HasId(ps, id)
    ensures id in ById(ps) ==>
      exists i :: (0 <= i < |ps| && ps[i] == ById(ps)[id] && ps[i].id == id
                   && forall j :: i < j < |ps| ==> ps[j].id != id)
  {
    if |ps| > 0 {
      var init := ps[..|ps| - 1];
      ById_IsLastOccurrence(init, id);
      if ps[|ps| - 1].id != id && HasId(ps, id) {
        var i :| 0 <= i < |ps| && ps[i].id == id;
        assert init[i].id == id;
      }
    }
  }

  lemma ById_Unique(ps: seq<Plate>, i: nat)
    requires UniqueIds(ps) && i < |ps|
    ensures ps[i].id in ById(ps) && ById(ps)[ps[i].id] == ps[i]
  {
    ById_IsLastOccurrence(ps, ps[i].id);
  }

  /** A plate compared with itself is never labelled, provided its dimensions are numbers. */
  lemma ClassifySelf(p: Plate, epsDim: real, epsAreaRel: real)
    requires p.width.Fin? && p.height.Fin? && epsDim >= 0.0
    ensures Classify(p, p, epsDim, epsAreaRel) == None
  {
  }

  lemma {:induction false} ChangesFromSelfIsEmpty(ps: seq<Plate>, k: nat, epsDim: real, epsAreaRel: real)
    requires UniqueIds(ps) && AllFinite(ps) && epsDim >= 0.0 && k <= |ps|
    ensures ChangesFrom(ById(ps), ps[..k], epsDim, epsAreaRel) == []
  {
    if k > 0 {
      assert ps[..k][..k - 1] == ps[..k - 1];
      ChangesFromSelfIsEmpty(ps, k - 1, epsDim, epsAreaRel);
      ById_Unique(ps, k - 1);
      ClassifySelf(ps[k - 1], epsDim, epsAreaRel);
    }
  }

  /** Diffing a list against itself reports no resize (unique ids, numeric dimensions). */
  lemma SelfDiffIsEmpty(ps: seq<Plate>, epsDim: real, epsAreaRel: real)
    requires UniqueIds(ps) && AllFinite(ps) && epsDim >= 0.0
    ensures ResizeChanges(ps, ps, epsDim, epsAreaRel) == []
  {
    ChangesFromSelfIsEmpty(ps, |ps|, epsDim, epsAreaRel);
    assert ps[..|ps|] == ps;
  }

  /** With a repeated id, the self-diff compares the first plate with the last one and reports it. */
  lemma SelfDiffWithDuplicateIds()
    ensures var ps := [Plate("a", Fin(10.0), Fin(10.0)), Plate("a", Fin(20.0), Fin(20.0))];
      ResizeChanges(ps, ps, EPS_DIM, EPS_AREA_REL) == [ResizeChange("a", Shrink)]
  {
    var ps := [Plate("a", Fin(10.0), Fin(10.0)), Plate("a", Fin(20.0), Fin(20.0))];
    var m := ById(ps);
    assert ps[..1] == [ps[0]];
    assert ps[..1][..0] == [];
    assert ById(ps[..1]) == map["a" := ps[0]];
    assert "a" in m && m["a"] == ps[1];
    assert Classify(ps[1], ps[0], EPS_DIM, EPS_AREA_REL) == Some(Shrink);
    assert Classify(ps[1], ps[1], EPS_DIM, EPS_AREA_REL) == None;
    assert ChangesFrom(m, ps[..1], EPS_DIM, EPS_AREA_REL) == [ResizeChange("a", Shrink)];
  }

  /**
   * A NaN width defeats the "no change" test and every comparison on the
   * width, so a self-diff falls through to the height's sign (0 >= 0) and
   * reports the plate as growing.
   */
  lemma SelfDiffWithNaN()
    ensures var ps := [Plate("a", NaN, Fin(10.0))];
      ResizeChanges(ps, ps, EPS_DIM, EPS_AREA_REL) == [ResizeChange("a", Grow)]
  {
    var ps := [Plate("a", NaN, Fin(10.0))];
    assert ps[..0] == [];
    assert ById(ps) == map["a" := ps[0]];
    assert Classify(ps[0], ps[0], EPS_DIM, EPS_AREA_REL) == Some(Grow);
    assert ResizeChanges(ps, ps, EPS_DIM, EPS_AREA_REL)
        == ChangesFrom(ById(ps), [], EPS_DIM, EPS_AREA_REL) + Emit(ById(ps), ps[0], EPS_DIM, EPS_AREA_REL);
  }

  lemma QuotientSign(n: real, d: real)
    requires d > 0.0
    ensures n >= 0.0 ==> n / d >= 0.0
    ensures n <= 0.0 ==> n / d <= 0.0
  {
    assert (n / d) * d == n;
  }

  /** Growing (or keeping) both dimensions of a plate is always labelled as growth. */
  lemma GrowingBothDimensionsIsGrow(before: Plate, cur: Plate, epsDim: real, epsAreaRel: real)
    requires before.width.Fin? && before.height.Fin? && cur.width.Fin? && cur.height.Fin?
    requires before.width.r >= 0.0 && before.height.r >= 0.0 && epsAreaRel >= 0.0
    requires cur.width.r >= before.width.r && cur.height.r >= before.height.r
    requires cur.width.r - before.width.r > epsDim || cur.height.r - before.height.r > epsDim
    ensures Classify(before, cur, epsDim, epsAreaRel) == Some(Grow)
  {
    var w0, h0, w1, h1 := before.width.r, before.height.r, cur.width.r, cur.height.r;
    assert (w1 - w0) * h1 >= 0.0;
    assert w0 * (h1 - h0) >= 0.0;
    assert w1 * h1 - w0 * h0 == (w1 - w0) * h1 + w0 * (h1 - h0);
    QuotientSign(w1 * h1 - w0 * h0, RMax(w0 * h0, 1.0));
  }

  /** Shrinking (or keeping) both dimensions of a plate is always labelled as shrinking. */
  lemma ShrinkingBothDimensionsIsShrink(before: Plate, cur: Plate, epsDim: real, epsAreaRel: real)
    requires before.width.Fin? && before.height.Fin? && cur.width.Fin? && cur.height.Fin?
    requires cur.width.r >= 0.0 && cur.height.r >= 0.0 && epsAreaRel >= 0.0 && epsDim >= 0.0
    requires cur.width.r <= before.width.r && cur.height.r <= before.height.r
    requires before.width.r - cur.width.r > epsDim || before.height.r - cur.height.r > epsDim
    ensures Classify(before, cur, epsDim, epsAreaRel) == Some(Shrink)
  {
    var w0, h0, w1, h1 := before.width.r, before.height.r, cur.width.r, cur.height.r;
    assert (w0 - w1) * h0 >= 0.0;
    assert w1 * (h0 - h1) >= 0.0;
    assert w0 * h0 - w1 * h1 == (w0 - w1) * h0 + w1 * (h0 - h1);
    QuotientSign(w1 * h1 - w0 * h0, RMax(w0 * h0, 1.0));
  }

  /** Trading width for height at equal area: the larger change, width on a tie, decides. */
  lemma ClassifyTieBreakExample()
    ensures Classify(Plate("p", Fin(20.0), Fin(30.0)), Plate("p", Fin(30.0), Fin(20.0)), EPS_DIM, EPS_AREA_REL) == Some(Grow)
    ensures Classify(Plate("p", Fin(30.0), Fin(20.0)), Plate("p", Fin(20.0), Fin(30.0)), EPS_DIM, EPS_AREA_REL) == Some(Shrink)
  {
  }

  /** Widening plate "2" from 30 to 60 beside an unchanged sibling reports only "2" as growing. */
  lemma ResizeChangesExample()
    ensures var prev := [Plate("1", Fin(30.0), Fin(30.0)), Plate("2", Fin(30.0), Fin(30.0))];
      var next := [Plate("1", Fin(30.0), Fin(30.0)), Plate("2", Fin(60.0), Fin(30.0))];
      ResizeChanges(prev, next, EPS_DIM, EPS_AREA_REL) == [ResizeChange("2", Grow)]
  {
    var prev := [Plate("1", Fin(30.0), Fin(30.0)), Plate("2", Fin(30.0), Fin(30.0))];
    var next := [Plate("1", Fin(30.0), Fin(30.0)), Plate("2", Fin(60.0), Fin(30.0))];
    assert prev[..1] == [prev[0]] && prev[..1][..0] == [];
    assert next[..1] == [next[0]] && next[..1][..0] == [];
    var m := ById(prev);
    assert ById(prev[..1]) == map["1" := prev[0]];
    assert "1" in m && m["1"] == prev[0] && "2" in m && m["2"] == prev[1];
    assert Classify(prev[0], next[0], EPS_DIM, EPS_AREA_REL) == None;
    assert Classify(prev[1], next[1], EPS_DIM, EPS_AREA_REL) == Some(Grow);
    assert ChangesFrom(m, next[..1], EPS_DIM, EPS_AREA_REL) == [];
  }

  /** The output follows `next`: the changes of `a + b` are those of `a` followed by those of `b`. */
  lemma {:induction false} ChangesFromAppend(m: map<string, Plate>, a: seq<Plate>, b: seq<Plate>, epsDim: real, epsAreaRel: real)
    ensures ChangesFrom(m, a + b, epsDim, epsAreaRel) == ChangesFrom(m, a, epsDim, epsAreaRel) + ChangesFrom(m, b, epsDim, epsAreaRel)
    decreases |b|
  {
    if |b| == 0 {
      assert a + b == a;
    } else {
      assert (a + b)[..|a + b| - 1] == a + b[..|b| - 1];
      ChangesFromAppend(m, a, b[..|b| - 1], epsDim, epsAreaRel);
    }
  }

  /** At most one entry per plate of `next`, and only for ids present in both lists. */
  lemma {:induction false} ResizeChangesShape(prev: seq<Plate>, next: seq<Plate>, epsDim: real, epsAreaRel: real)
    ensures var cs := ResizeChanges(prev, next, epsDim, epsAreaRel);
      |cs| <= |next| && forall k :: 0 <= k < |cs| ==> HasId(prev, cs[k].id) && HasId(next, cs[k].id)
    decreases |next|
  {
    if |next| > 0 {
      var init := next[..|next| - 1];
      ResizeChangesShape(prev, init, epsDim, epsAreaRel);
      var cs := ResizeChanges(prev, next, epsDim, epsAreaRel);
      var cur := next[|next| - 1];
      forall k | 0 <= k < |cs|
        ensures HasId(prev, cs[k].id) && HasId(next, cs[k].id)
      {
        var n0 := |ResizeChanges(prev, init, epsDim, epsAreaRel)|;
        if k < n0 {
          var j :| 0 <= j < |init| && init[j].id == cs[k].id;
          assert next[j].id == cs[k].id;
        } else {
          assert cs[k].id == cur.id;
          ById_IsLastOccurrence(prev, cur.id);
        }
      }
    }
  }

  // ---------------------------------------------------------------------
  // Removal ghost
  // ---------------------------------------------------------------------

  /**
   * The specification of `ComputeRemovedGhost`: the FIRST plate with the
   * id, at the prefix sum of the coerced widths before it, bottom-aligned to
   * `snapH`, drawn trimmed by `GAP`; its crop is the plate crop in the
   * snapshot's cover rectangle when both a cover and an image were there.
   */
  function RemovedGhostSpec(prev: seq<Plate>, removedId: string, snapW: real, snapH: real,
                            snapCrop: Option<CoverRect>, hasImage: bool): (r: Option<RemovedGhost>)
    requires snapCrop.Some? && hasImage ==> snapW != 0.0 && snapH != 0.0
    ensures r.Some? <==> HasId(prev, removedId)
    ensures r.Some? ==> r.value.id == removedId && r.value.w >= 0.0 && r.value.y + r.value.h == snapH
    ensures r.Some? ==> (r.value.crop.Some? <==> snapCrop.Some? && hasImage)
  {
    var k := IndexOf(prev, removedId);
    if k == |prev| then None
    else
      var width := Coerce(prev[k].width);
      var height := Coerce(prev[k].height);
      var x := Layout.SumWidths(prev[..k]);
      var drawW := RMax(0.0, width - GAP);
      Some(RemovedGhost(prev[k].id, x, snapH - height, drawW, height,
        if snapCrop.Some? && hasImage
        then Some(Crop.BuildPlateCrop(snapCrop.value, snapW, snapH, x, height, drawW, height))
        else None))
  }

  /**
   * The ghost's crop as the removal code computes it: the plate's position
   * and size as fractions of the snapshot canvas, applied to the cover rectangle.
   */
  function FractionalCrop(c: CoverRect, snapW: real, snapH: real, cursor: real, height: real, drawW: real): CropRect
    requires snapW != 0.0 && snapH != 0.0
  {
    CropRect(c.x + c.w * (cursor / snapW), c.y + c.h * ((snapH - height) / snapH),
             c.w * (drawW / snapW), c.h * (height / snapH))
  }

  /** The ghost's fractional crop is the plate crop the canvas draws with. */
  lemma FractionalCropIsPlateCrop(c: CoverRect, snapW: real, snapH: real, cursor: real, height: real, drawW: real)
    requires snapW != 0.0 && snapH != 0.0
    ensures FractionalCrop(c, snapW, snapH, cursor, height, drawW)
         == Crop.BuildPlateCrop(c, snapW, snapH, cursor, height, drawW, height)
  {
    var f := FractionalCrop(c, snapW, snapH, cursor, height, drawW);
    var b := Crop.BuildPlateCrop(c, snapW, snapH, cursor, height, drawW, height);
    assert f.x == b.x by {
      assert f.x == c.x + c.w * (cursor / snapW);
      assert b.x == c.x + cursor * (c.w / snapW);
      assert c.w * (cursor / snapW) == cursor * (c.w / snapW);
    }
    assert f.y == b.y by {
      assert f.y == c.y + c.h * ((snapH - height) / snapH);
      assert b.y == c.y + (snapH - height) * (c.h / snapH);
      assert c.h * ((snapH - height) / snapH) == (snapH - height) * (c.h / snapH);
    }
    assert f.width == b.width by {
      assert f.width == c.w * (drawW / snapW);
      assert b.width == drawW * (c.w / snapW);
      assert c.w * (drawW / snapW) == drawW * (c.w / snapW);
    }
    assert f.height == b.height by {
      assert f.height == c.h * (height / snapH);
      assert b.height == height * (c.h / snapH);
      assert c.h * (height / snapH) == height * (c.h / snapH);
    }
  }

  /**
   * The spec at the first plate carrying the removed id, with the crop in
   * the fractional form the loop computes it in.
   */
  lemma GhostAtFirstMatch(prev: seq<Plate>, removedId: string, snapW: real, snapH: real,
                          snapCrop: Option<CoverRect>, hasImage: bool, i: nat)
    requires snapCrop.Some? && hasImage ==> snapW != 0.0 && snapH != 0.0
    requires i < |prev| && prev[i].id == removedId
    requires forall j :: 0 <= j < i ==> prev[j].id != removedId
    ensures var width := Coerce(prev[i].width);
      var height := Coerce(prev[i].height);
      var cursor := Layout.SumWidths(prev[..i]);
      var drawW := RMax(0.0, width - GAP);
      RemovedGhostSpec(prev, removedId, snapW, snapH, snapCrop, hasImage)
        == Some(RemovedGhost(prev[i].id, cursor, snapH - height, drawW, height,
             if snapCrop.Some? && hasImage then Some(FractionalCrop(snapCrop.value, snapW, snapH, cursor, height, drawW))
             else None))
  {
    assert IndexOf(prev, removedId) == i;
    if snapCrop.Some? && hasImage {
      var height := Coerce(prev[i].height);
      var cursor := Layout.SumWidths(prev[..i]);
      var drawW := RMax(0.0, Coerce(prev[i].width) - GAP);
      var c := snapCrop.value;
      FractionalCropIsPlateCrop(c, snapW, snapH, cursor, height, drawW);
    }
  }

  method ComputeRemovedGhost(prevPlates: seq<Plate>, removedId: string, snapW: real, snapH: real,
                             snapCrop: Option<CoverRect>, hasImage: bool)
    returns (ghostRect: Option<RemovedGhost>)
    requires snapCrop.Some? && hasImage ==> snapW != 0.0 && snapH != 0.0
    ensures ghostRect == RemovedGhostSpec(prevPlates, removedId, snapW, snapH, snapCrop, hasImage)
  {
    var cursor := 0.0;
    for i := 0 to |prevPlates|
      invariant cursor == Layout.SumWidths(prevPlates[..i])
      invariant forall j :: 0 <= j < i ==> prevPlates[j].id != removedId
    {
      var p := prevPlates[i];
      var width := Coerce(p.width);
      var height := Coerce(p.height);
      if p.id == removedId {
        var x := cursor;
        var y := snapH - height;
        var drawW := RMax(0.0, width - GAP);
        var drawH := height;
        GhostAtFirstMatch(prevPlates, removedId, snapW, snapH, snapCrop, hasImage, i);
        if snapCrop.Some? && hasImage {
          var crop := FractionalCrop(snapCrop.value, snapW, snapH, cursor, drawH, drawW);
          ghostRect := Some(RemovedGhost(p.id, x, y, drawW, drawH, Some(crop)));
          return;
        }
        ghostRect := Some(RemovedGhost(p.id, x, y, drawW, drawH, None));
        return;
      }
      Layout.SumWidthsStep(prevPlates, i);
      cursor := cursor + width;
    }
    ghostRect := None;
  }

  /** Removing "2" from 30x30, 40x20 on a 70 x 30 canvas: ghost at (30, 10), drawn 36 x 20. */
  lemma RemovedGhostExample()
    ensures var prev := [Plate("1", Fin(30.0), Fin(30.0)), Plate("2", Fin(40.0), Fin(20.0))];
      RemovedGhostSpec(prev, "2", 70.0, 30.0, None, false) == Some(RemovedGhost("2", 30.0, 10.0, 36.0, 20.0, None))
  {
    var prev := [Plate("1", Fin(30.0), Fin(30.0)), Plate("2", Fin(40.0), Fin(20.0))];
    assert IndexOf(prev, "2") == 1 by {
      assert IndexOf(prev[1..], "2") == 0;
    }
    assert prev[..1][..0] == [];
  }
}

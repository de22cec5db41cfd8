/**
 * The layout engine: from the ordered plate list to the logical canvas size
 * (`pxW` x `pxH`) and the stage size (canvas plus padding, capped in width).
 */
module Layout {
  import opened JsNumber
  import opened PlateTypes

  datatype Sizes = Sizes(
    totalWidth: real,
    maxHeight: real,
    pxW: real,
    pxH: real,
    stageWidth: real,
    stageHeight: real)

  /** Sum of the coerced widths, folded left to right as `reduce` does. */
  function SumWidths(ps: seq<Plate>): real
  {
    if |ps| == 0 then 0.0 else SumWidths(ps[..|ps| - 1]) + Coerce(ps[|ps| - 1].width)
  }

  /** `Math.max(1, ...coerced heights)`: the tallest plate, but at least 1. */
  function MaxHeight(ps: seq<Plate>): (m: real)
    ensures m >= 1.0
    ensures forall i :: 0 <= i < |ps| ==> Coerce(ps[i].height) <= m
    ensures m == 1.0 || exists i :: 0 <= i < |ps| && m == Coerce(ps[i].height)
  {
    if |ps| == 0 then 1.0
    else RMax(MaxHeight(ps[..|ps| - 1]), Coerce(ps[|ps| - 1].height))
  }

  /** The sizes the canvas is drawn with. */
  function ComputeSizes(ps: seq<Plate>): (s: Sizes)
    ensures s.totalWidth == SumWidths(ps)
    ensures s.maxHeight >= 1.0
    ensures forall i :: 0 <= i < |ps| ==> Coerce(ps[i].height) <= s.maxHeight
    ensures s.maxHeight == 1.0 || exists i :: 0 <= i < |ps| && s.maxHeight == Coerce(ps[i].height)
    ensures s.pxW >= 1.0 && s.pxH >= 1.0
    ensures s.pxW == s.pxW.Floor as real && s.pxH == s.pxH.Floor as real
    ensures s.totalWidth >= 0.5 ==> s.totalWidth - 0.5 < s.pxW <= s.totalWidth + 0.5
    ensures s.totalWidth < 0.5 ==> s.pxW == 1.0
    ensures s.maxHeight - 0.5 < s.pxH <= s.maxHeight + 0.5
    ensures s.stageWidth <= MAX_STAGE_WIDTH
    ensures s.stageWidth == RMin(s.pxW + 2.0 * PAD, MAX_STAGE_WIDTH)
    ensures s.stageHeight == s.pxH + 2.0 * PAD
  {
    var totalWidth := SumWidths(ps);
    var maxHeight := MaxHeight(ps);
    var pxW := RMax(1.0, Round(totalWidth));
    var pxH := RMax(1.0, Round(maxHeight));
    Sizes(totalWidth, maxHeight, pxW, pxH, RMin(pxW + PAD * 2.0, MAX_STAGE_WIDTH), pxH + PAD * 2.0)
  }

  /** An empty list still gives a drawable 1 x 1 canvas. */
  lemma EmptyListSizes()
    ensures ComputeSizes([]) == Sizes(0.0, 1.0, 1.0, 1.0, 49.0, 49.0)
  {
  }

  /** The default plate 300 x 128 gives a 348 x 176 stage. */
  lemma DefaultPlateSizes()
    ensures ComputeSizes(DEFAULT_PLATES) == Sizes(300.0, 128.0, 300.0, 128.0, 348.0, 176.0)
  {
    assert DEFAULT_PLATES[..0] == [];
  }

  /** When the row width is a whole number of at least 1, `pxW` equals it exactly. */
  lemma PxWExactForIntegralWidth(ps: seq<Plate>)
    requires SumWidths(ps) >= 1.0 && SumWidths(ps) == SumWidths(ps).Floor as real
    ensures ComputeSizes(ps).pxW == SumWidths(ps)
  {
    var t := SumWidths(ps);
    var n := t.Floor;
    assert n as real <= t + 0.5 < n as real + 1.0;
    assert (t + 0.5).Floor == n;
  }

  lemma {:induction false} SumWidthsAppend(a: seq<Plate>, b: seq<Plate>)
    ensures SumWidths(a + b) == SumWidths(a) + SumWidths(b)
    decreases |b|
  {
    if |b| == 0 {
      assert a + b == a;
    } else {
      var b' := b[..|b| - 1];
      assert (a + b)[..|a + b| - 1] == a + b';
      SumWidthsAppend(a, b');
    }
  }

  /** The prefix sum grows by the next plate's coerced width. */
  lemma SumWidthsStep(ps: seq<Plate>, i: nat)
    requires i < |ps|
    ensures SumWidths(ps[..i + 1]) == SumWidths(ps[..i]) + Coerce(ps[i].width)
  {
    assert ps[..i + 1][..i] == ps[..i];
  }

  /** The total width does not depend on the order of the plates. */
  lemma {:induction false} SumWidthsPermutation(a: seq<Plate>, b: seq<Plate>)
    requires multiset(a) == multiset(b)
    ensures SumWidths(a) == SumWidths(b)
    decreases |a|
  {
    if |a| == 0 {
      assert |b| == |multiset(b)| == 0;
    } else {
      var x := a[|a| - 1];
      var a' := a[..|a| - 1];
      assert a == a' + [x];
      assert x in multiset(b);
      var k :| 0 <= k < |b| && b[k] == x;
      var b' := b[..k] + b[k + 1..];
      assert b == b[..k] + [x] + b[k + 1..];
      assert multiset(a) == multiset(a') + multiset{x};
      assert multiset(b) == multiset(b[..k]) + multiset{x} + multiset(b[k + 1..]);
      assert multiset(b') == multiset(b[..k]) + multiset(b[k + 1..]);
      assert multiset(a') == multiset(a) - multiset{x};
      assert multiset(b') == multiset(b) - multiset{x};
      SumWidthsPermutation(a', b');
      SumWidthsAppend(b[..k] + [x], b[k + 1..]);
      SumWidthsAppend(b[..k], [x]);
      SumWidthsAppend(b[..k], b[k + 1..]);
      var single: seq<Plate> := [x];
      assert single[..0] == [];
    }
  }
}

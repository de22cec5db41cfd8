/**
 * The records shared by the layout, cover, crop and animation code, and the
 * fixed layout constants.
 */
module PlateTypes {
  import opened JsNumber

  /** Border around the row of plates, in logical pixels. */
  const PAD: real := 24.0
  /** Width trimmed off each drawn plate so a thin seam shows between plates. */
  const GAP: real := 4.0
  /** Hard cap on the stage width, protecting the rendering backend. */
  const MAX_STAGE_WIDTH: real := 12000.0
  /** Row width beyond which the source image is mirrored into a stripe. */
  const MIRROR_THRESHOLD: real := 300.0

  /** A plate; `width` and `height` are in cm and may be NaN or missing. */
  datatype Plate = Plate(id: string, width: Num, height: Num)

  /** Sub-rectangle of the source image that covers the whole canvas. */
  datatype CoverRect = CoverRect(x: real, y: real, w: real, h: real)

  /** Sub-rectangle of the source image sampled for one plate. */
  datatype CropRect = CropRect(x: real, y: real, width: real, height: real)

  /** `[{ id: '1', width: 300, height: 128 }]`, the initial plate list. */
  const DEFAULT_PLATES: seq<Plate> := [Plate("1", Fin(300.0), Fin(128.0))]

  predicate HasId(ps: seq<Plate>, id: string)
  {
    exists i :: 0 <= i < |ps| && ps[i].id == id
  }

  predicate UniqueIds(ps: seq<Plate>)
  {
    forall i, j :: 0 <= i < j < |ps| ==> ps[i].id != ps[j].id
  }

  /** Both dimensions of every plate are numbers (not NaN). */
  predicate AllFinite(ps: seq<Plate>)
  {
    forall i :: 0 <= i < |ps| ==> ps[i].width.Fin? && ps[i].height.Fin?
  }

  /** Index of the first plate with `id`, or `|ps|` when there is none. */
  function IndexOf(ps: seq<Plate>, id: string): (k: nat)
    ensures k <= |ps|
    ensures k < |ps| ==> ps[k].id == id
    ensures forall j :: 0 <= j < k ==> ps[j].id != id
  {
    if |ps| == 0 then 0
    else if ps[0].id == id then 0
    else 1 + IndexOf(ps[1..], id)
  }

  /** With unique ids, the first plate carrying plate `i`'s id is plate `i`. */
  lemma IndexOfUnique(ps: seq<Plate>, i: nat)
    requires UniqueIds(ps) && i < |ps|
    ensures IndexOf(ps, ps[i].id) == i
  {
  }
}

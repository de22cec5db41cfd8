/**
 * The plate store hook in its two versions: `PlateStore` starts from what
 * storage holds and also offers the layout sizes, `LegacyPlateStore` starts
 * from the default list. Each call replaces the list as the hook's state
 * setter does; the list operations themselves live in `PlateList`.
 */
module PlateStore {
  import opened JsNumber
  import opened PlateTypes
  import Validation
  import ArrayMove
  import Layout
  import opened PlateList

  /** `usePlates` of `src/hooks/use-plates.ts`. */
  class PlateStore {
    var plates: seq<Plate>

    /** Reads the initial list back from storage. */
    constructor (stored: Stored)
      ensures plates == StoredPlates(stored)
    {
      plates := StoredPlates(stored);
    }

    predicate CanAddPlate()
      reads this
    {
      CanAdd(plates)
    }

    predicate CanRemovePlate()
      reads this
    {
      CanRemove(plates)
    }

    method AddPlate(freshId: string)
      modifies this
      ensures plates == Added(old(plates), freshId)
      ensures old(WellFormed(plates)) && !HasId(old(plates), freshId) ==> WellFormed(plates)
    {
      if WellFormed(plates) && !HasId(plates, freshId) {
        AddKeepsWellFormed(plates, freshId);
      }
      if |plates| >= MAX_PLATES {
        return;
      }
      plates := plates + [Plate(freshId, Fin(NEW_PLATE_SIZE), Fin(NEW_PLATE_SIZE))];
    }

    method RemovePlate(id: string)
      modifies this
      ensures plates == Removed(old(plates), id)
      ensures old(WellFormed(plates)) ==> WellFormed(plates)
    {
      if WellFormed(plates) {
        RemoveKeepsWellFormed(plates, id);
      }
      if |plates| <= 1 {
        return;
      }
      plates := FilterOut(plates, id);
    }

    method UpdatePlate(id: string, u: PlateUpdate)
      modifies this
      ensures plates == Updated(old(plates), id, u)
      ensures old(WellFormed(plates)) && u.id.None? ==> WellFormed(plates)
    {
      if WellFormed(plates) && u.id.None? {
        UpdateKeepsWellFormed(plates, id, u);
      }
      plates := Updated(plates, id, u);
    }

    method UpdatePlateDimension(id: string, d: Validation.Dimension, text: string, parseFloat: string -> Num)
      returns (v: Validation.Validation)
      modifies this
      ensures (plates, v) == UpdatedDimension(old(plates), id, d, text, parseFloat)
      ensures old(WellFormed(plates)) ==> WellFormed(plates)
    {
      var n := Validation.ParseDecimalInput(text, parseFloat);
      v := Validation.ValidateDimension(n, d);
      if v.isValid {
        UpdatePlate(id, DimensionUpdate(d, n));
      }
    }

    /** `from` is below the length; a negative `from` counts from the end and is clamped to 0. */
    method ReorderPlates(from: int, to: int)
      requires from == to || (0 < |plates| && from < |plates|)
      modifies this
      ensures plates == Reordered(old(plates), from, to)
      ensures old(WellFormed(plates)) ==> WellFormed(plates)
    {
      if WellFormed(plates) {
        ReorderKeepsWellFormed(plates, from, to);
      }
      if from == to {
        return;
      }
      plates := ArrayMove.ArrayMove(plates, from, to);
    }

    function GetTotalDimensions(): (t: TotalDimensions)
      reads this
    {
      PlateList.GetTotalDimensions(plates)
    }

    function ComputeSizes(): (s: Layout.Sizes)
      reads this
    {
      Layout.ComputeSizes(plates)
    }
  }

  /** `usePlates` of `src/hooks/use-paltes.ts`: no storage and no layout sizes. */
  class LegacyPlateStore {
    var plates: seq<Plate>

    constructor ()
      ensures plates == DEFAULT_PLATES
      ensures WellFormed(plates)
    {
      plates := DEFAULT_PLATES;
    }

    predicate CanAddPlate()
      reads this
    {
      CanAdd(plates)
    }

    predicate CanRemovePlate()
      reads this
    {
      CanRemove(plates)
    }

    method AddPlate(freshId: string)
      modifies this
      ensures plates == Added(old(plates), freshId)
      ensures old(WellFormed(plates)) && !HasId(old(plates), freshId) ==> WellFormed(plates)
    {
      if WellFormed(plates) && !HasId(plates, freshId) {
        AddKeepsWellFormed(plates, freshId);
      }
      if |plates| >= MAX_PLATES {
        return;
      }
      plates := plates + [Plate(freshId, Fin(NEW_PLATE_SIZE), Fin(NEW_PLATE_SIZE))];
    }

    method RemovePlate(id: string)
      modifies this
      ensures plates == Removed(old(plates), id)
      ensures old(WellFormed(plates)) ==> WellFormed(plates)
    {
      if WellFormed(plates) {
        RemoveKeepsWellFormed(plates, id);
      }
      if |plates| <= 1 {
        return;
      }
      plates := FilterOut(plates, id);
    }

    method UpdatePlate(id: string, u: PlateUpdate)
      modifies this
      ensures plates == Updated(old(plates), id, u)
      ensures old(WellFormed(plates)) && u.id.None? ==> WellFormed(plates)
    {
      if WellFormed(plates) && u.id.None? {
        UpdateKeepsWellFormed(plates, id, u);
      }
      plates := Updated(plates, id, u);
    }

    method UpdatePlateDimension(id: string, d: Validation.Dimension, text: string, parseFloat: string -> Num)
      returns (v: Validation.Validation)
      modifies this
      ensures (plates, v) == UpdatedDimension(old(plates), id, d, text, parseFloat)
      ensures old(WellFormed(plates)) ==> WellFormed(plates)
    {
      var n := Validation.ParseDecimalInput(text, parseFloat);
      v := Validation.ValidateDimension(n, d);
      if v.isValid {
        UpdatePlate(id, DimensionUpdate(d, n));
      }
    }

    /** `from` is below the length; a negative `from` counts from the end and is clamped to 0. */
    method ReorderPlates(from: int, to: int)
      requires from == to || (0 < |plates| && from < |plates|)
      modifies this
      ensures plates == Reordered(old(plates), from, to)
      ensures old(WellFormed(plates)) ==> WellFormed(plates)
    {
      if WellFormed(plates) {
        ReorderKeepsWellFormed(plates, from, to);
      }
      if from == to {
        return;
      }
      plates := ArrayMove.ArrayMove(plates, from, to);
    }

    function GetTotalDimensions(): (t: TotalDimensions)
      reads this
    {
      PlateList.GetTotalDimensions(plates)
    }
  }
}

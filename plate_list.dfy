/**
 * The plate-list operations shared by both versions of the plate store:
 * add (capped at ten plates), remove by id (keeping at least one), update by
 * id, reorder, the raw totals, and the decision on what was read back from storage.
 */
module PlateList {
  import opened JsNumber
  import opened PlateTypes
  import Validation
  import ArrayMove
  import Layout

  /** The most plates the store lets the user add. */
  const MAX_PLATES: nat := 10
  /** Width and height of a freshly added plate, in cm. */
  const NEW_PLATE_SIZE: real := 30.0

  // ---------------------------------------------------------------------
  // The list operations
  // ---------------------------------------------------------------------

  /** `addPlate` with `freshId` standing for `Date.now().toString()`. */
  function Added(ps: seq<Plate>, freshId: string): (r: seq<Plate>)
  {
    if |ps| >= MAX_PLATES then ps else ps + [Plate(freshId, Fin(NEW_PLATE_SIZE), Fin(NEW_PLATE_SIZE))]
  }

  /** `prev.filter(plate => plate.id !== id)`. */
  function FilterOut(ps: seq<Plate>, id: string): (r: seq<Plate>)
    ensures |r| <= |ps|
    ensures forall i :: 0 <= i < |r| ==> r[i].id != id
    ensures forall i :: 0 <= i < |r| ==> r[i] in ps
  {
    if |ps| == 0 then []
    else if ps[0].id == id then FilterOut(ps[1..], id)
    else [ps[0]] + FilterOut(ps[1..], id)
  }

  /** `removePlate`: nothing happens while at most one plate is left. */
  function Removed(ps: seq<Plate>, id: string): seq<Plate>
  {
    if |ps| <= 1 then ps else FilterOut(ps, id)
  }

  /** `Partial<Plate>`: each field is either absent or replaces the plate's own. */
  datatype PlateUpdate = PlateUpdate(id: Option<string>, width: Option<Num>, height: Option<Num>)

  /** `{ ...plate, ...updates }`. */
  function Apply(p: Plate, u: PlateUpdate): Plate
  {
    Plate(if u.id.Some? then u.id.value else p.id,
          if u.width.Some? then u.width.value else p.width,
          if u.height.Some? then u.height.value else p.height)
  }

  /** `updatePlate`: every plate carrying `id` is merged with the update. */
  function Updated(ps: seq<Plate>, id: string, u: PlateUpdate): (r: seq<Plate>)
    ensures |r| == |ps|
    ensures forall i :: 0 <= i < |ps| ==> r[i] == if ps[i].id == id then Apply(ps[i], u) else ps[i]
  {
    seq(|ps|, i requires 0 <= i < |ps| => if ps[i].id == id then Apply(ps[i], u) else ps[i])
  }

  /** `reorderPlates`: equal indices change nothing; otherwise the two splices of `arrayMove`. */
  function Reordered(ps: seq<Plate>, from: int, to: int): seq<Plate>
    requires from == to || (0 < |ps| && from < |ps|)
  {
    if from == to then ps else ArrayMove.Moved(ps, from, to)
  }

  /** The update `{ [dimension]: value }`. */
  function DimensionUpdate(d: Validation.Dimension, value: Num): PlateUpdate
  {
    match d
    case Width => PlateUpdate(None, Some(value), None)
    case Height => PlateUpdate(None, None, Some(value))
  }

  /**
   * `updatePlateDimension`: parse the text, validate it against the
   * dimension's rule, apply it only when valid, and report the validation.
   */
  function UpdatedDimension(ps: seq<Plate>, id: string, d: Validation.Dimension, text: string,
                            parseFloat: string -> Num): (r: (seq<Plate>, Validation.Validation))
  {
    var n := Validation.ParseDecimalInput(text, parseFloat);
    var v := Validation.ValidateDimension(n, d);
    if v.isValid then (Updated(ps, id, DimensionUpdate(d, n)), v) else (ps, v)
  }

  /** `canAddPlate` and `canRemovePlate`. */
  predicate CanAdd(ps: seq<Plate>) { |ps| < MAX_PLATES }
  predicate CanRemove(ps: seq<Plate>) { |ps| > 1 }

  // ---------------------------------------------------------------------
  // Properties of the list operations
  // ---------------------------------------------------------------------

  /** The flags say exactly when adding, and (with unique ids) removing a present id, changes the list. */
  lemma FlagsMatchOperations(ps: seq<Plate>, freshId: string, id: string)
    ensures CanAdd(ps) <==> Added(ps, freshId) != ps
    ensures !CanRemove(ps) ==> Removed(ps, id) == ps
    ensures CanRemove(ps) && UniqueIds(ps) && HasId(ps, id) ==> Removed(ps, id) != ps
  {
    if CanAdd(ps) {
      assert |Added(ps, freshId)| == |ps| + 1;
    }
    if CanRemove(ps) && UniqueIds(ps) && HasId(ps, id) {
      FilterOutUnique(ps, id);
    }
  }

  /** Adding is a no-op at the cap; otherwise exactly one 30 x 30 plate is appended and the others stay. */
  lemma AddedSpec(ps: seq<Plate>, freshId: string)
    ensures !CanAdd(ps) ==> Added(ps, freshId) == ps
    ensures CanAdd(ps) ==>
      && |Added(ps, freshId)| == |ps| + 1
      && Added(ps, freshId)[..|ps|] == ps
      && Added(ps, freshId)[|ps|] == Plate(freshId, Fin(30.0), Fin(30.0))
  {
  }

  lemma {:induction false} FilterOutAbsent(ps: seq<Plate>, id: string)
    requires !HasId(ps, id)
    ensures FilterOut(ps, id) == ps
  {
    if |ps| > 0 {
      assert !HasId(ps[1..], id) by {
        forall j | 0 <= j < |ps[1..]| ensures ps[1..][j].id != id {
          assert ps[1..][j] == ps[j + 1];
        }
      }
      FilterOutAbsent(ps[1..], id);
      assert ps == [ps[0]] + ps[1..];
    }
  }

  /** Filtering keeps every plate with another id. */
  lemma {:induction false} FilterOutKeepsOthers(ps: seq<Plate>, id: string, i: nat)
    requires i < |ps| && ps[i].id != id
    ensures ps[i] in FilterOut(ps, id)
  {
    if i > 0 {
      FilterOutKeepsOthers(ps[1..], id, i - 1);
    }
  }

  /** One plate is kept exactly when its id differs. */
  lemma FilterOutSingle(p: Plate, id: string)
    ensures FilterOut([p], id) == if p.id == id then [] else [p]
  {
    assert [p][1..] == [];
  }

  /** Filtering works plate by plate and in order: it distributes over concatenation. */
  lemma {:induction false} FilterOutAppend(a: seq<Plate>, b: seq<Plate>, id: string)
    ensures FilterOut(a + b, id) == FilterOut(a, id) + FilterOut(b, id)
    decreases |a|
  {
    if |a| > 0 {
      assert (a + b)[0] == a[0];
      assert (a + b)[1..] == a[1..] + b;
      FilterOutAppend(a[1..], b, id);
    } else {
      assert a + b == b;
    }
  }

  /** Multiplicity: every plate with another id is kept as often as it occurs, the others not at all. */
  lemma {:induction false} FilterOutCount(ps: seq<Plate>, id: string, p: Plate)
    ensures multiset(FilterOut(ps, id))[p] == if p.id == id then 0 else multiset(ps)[p]
  {
    if |ps| > 0 {
      var t := ps[1..];
      FilterOutCount(t, id, p);
      assert ps == [ps[0]] + t;
      assert multiset(ps) == multiset{ps[0]} + multiset(t);
      if ps[0].id != id {
        assert multiset(FilterOut(ps, id)) == multiset{ps[0]} + multiset(FilterOut(t, id));
      }
    }
  }

  /** With unique ids, removing a present id drops exactly that plate. */
  lemma {:induction false} FilterOutUnique(ps: seq<Plate>, id: string)
    requires UniqueIds(ps) && HasId(ps, id)
    ensures |FilterOut(ps, id)| == |ps| - 1
    ensures FilterOut(ps, id) == ps[..IndexOf(ps, id)] + ps[IndexOf(ps, id) + 1..]
  {
    var tail := ps[1..];
    if ps[0].id == id {
      FilterOutHead(ps, id);
    } else {
      HasIdTail(ps, id);
      UniqueIdsTail(ps);
      FilterOutUnique(tail, id);
      var k := IndexOf(tail, id);
      assert IndexOf(ps, id) == k + 1;
      assert FilterOut(ps, id) == [ps[0]] + (tail[..k] + tail[k + 1..]);
      ConsSplice(ps, k);
    }
  }

  /** An id that is not the first plate's is found among the rest. */
  lemma HasIdTail(ps: seq<Plate>, id: string)
    requires HasId(ps, id) && ps[0].id != id
    ensures HasId(ps[1..], id)
  {
    var j :| 0 <= j < |ps| && ps[j].id == id;
    assert ps[1..][j - 1] == ps[j];
  }

  /** Putting the head back in front of a tail with element `k` cut out. */
  lemma ConsSplice<T>(s: seq<T>, k: nat)
    requires k < |s| - 1
    ensures [s[0]] + (s[1..][..k] + s[1..][k + 1..]) == s[..k + 1] + s[k + 2..]
  {
    assert [s[0]] + s[1..][..k] == s[..k + 1];
    assert s[1..][k + 1..] == s[k + 2..];
  }

  /** When the first plate carries the (unique) id, filtering drops just it. */
  lemma FilterOutHead(ps: seq<Plate>, id: string)
    requires UniqueIds(ps) && |ps| > 0 && ps[0].id == id
    ensures FilterOut(ps, id) == ps[1..]
  {
    var tail := ps[1..];
    assert !HasId(tail, id) by {
      forall j | 0 <= j < |tail| ensures tail[j].id != id {
        assert tail[j] == ps[j + 1];
      }
    }
    FilterOutAbsent(tail, id);
  }

  lemma UniqueIdsTail(ps: seq<Plate>)
    requires UniqueIds(ps) && |ps| > 0
    ensures UniqueIds(ps[1..])
  {
    var tail := ps[1..];
    forall i, j | 0 <= i < j < |tail| ensures tail[i].id != tail[j].id {
      assert tail[i] == ps[i + 1] && tail[j] == ps[j + 1];
    }
  }

  /**
   * Removing keeps at least one plate when ids are unique: a no-op at one
   * plate or for an absent id, and otherwise exactly one plate fewer.
   */
  lemma RemovedSpec(ps: seq<Plate>, id: string)
    ensures !CanRemove(ps) ==> Removed(ps, id) == ps
    ensures !HasId(ps, id) ==> Removed(ps, id) == ps
    ensures CanRemove(ps) ==> forall i :: 0 <= i < |Removed(ps, id)| ==> Removed(ps, id)[i].id != id
    ensures CanRemove(ps) && UniqueIds(ps) && HasId(ps, id) ==> |Removed(ps, id)| == |ps| - 1
    ensures forall p: Plate :: p.id != id ==> multiset(Removed(ps, id))[p] == multiset(ps)[p]
  {
    forall p: Plate | p.id != id ensures multiset(Removed(ps, id))[p] == multiset(ps)[p] {
      FilterOutCount(ps, id, p);
    }
    if !HasId(ps, id) {
      FilterOutAbsent(ps, id);
    } else if CanRemove(ps) && UniqueIds(ps) {
      FilterOutUnique(ps, id);
    }
  }

  /** Removing by a duplicated id from two plates empties the list: the "keep one" guard needs unique ids. */
  lemma RemoveWithDuplicateIdsEmpties()
    ensures Removed([Plate("a", Fin(30.0), Fin(30.0)), Plate("a", Fin(40.0), Fin(30.0))], "a") == []
  {
  }

  /** Updating touches only the plates with the id; an absent id changes nothing. */
  lemma UpdatedSpec(ps: seq<Plate>, id: string, u: PlateUpdate)
    ensures forall i :: 0 <= i < |ps| && ps[i].id != id ==> Updated(ps, id, u)[i] == ps[i]
    ensures !HasId(ps, id) ==> Updated(ps, id, u) == ps
    ensures u == PlateUpdate(None, None, None) ==> Updated(ps, id, u) == ps
  {
  }

  /** A dimension update is applied exactly when the parsed value passes the rule, and always reports the validation. */
  lemma UpdatedDimensionSpec(ps: seq<Plate>, id: string, d: Validation.Dimension, text: string,
                             parseFloat: string -> Num)
    ensures var n := Validation.ParseDecimalInput(text, parseFloat);
      var r := UpdatedDimension(ps, id, d, text, parseFloat);
      && r.1 == Validation.ValidateDimension(n, d)
      && (!r.1.isValid ==> r.0 == ps)
      && (r.1.isValid ==> |r.0| == |ps| && forall i :: 0 <= i < |ps| ==>
            r.0[i] == (if ps[i].id != id then ps[i]
                       else match d
                            case Width => Plate(ps[i].id, n, ps[i].height)
                            case Height => Plate(ps[i].id, ps[i].width, n)))
  {
  }

  /** Reordering is a no-op for equal indices and otherwise a permutation that lands the plate at `to`. */
  lemma ReorderedSpec(ps: seq<Plate>, from: int, to: int)
    requires from == to || (0 < |ps| && from < |ps|)
    ensures from == to ==> Reordered(ps, from, to) == ps
    ensures |Reordered(ps, from, to)| == |ps|
    ensures multiset(Reordered(ps, from, to)) == multiset(ps)
  {
    if from != to {
      ArrayMove.MovedIsPermutation(ps, from, to);
    }
  }

  /** Every plate of a filtered list comes from the list, so unique ids stay unique. */
  lemma {:induction false} FilterOutKeepsUniqueIds(ps: seq<Plate>, id: string)
    requires UniqueIds(ps)
    ensures UniqueIds(FilterOut(ps, id))
  {
    if |ps| > 0 {
      var tail := ps[1..];
      UniqueIdsTail(ps);
      FilterOutKeepsUniqueIds(tail, id);
      if ps[0].id != id {
        var r := FilterOut(tail, id);
        forall k | 0 <= k < |r| ensures r[k].id != ps[0].id {
          assert r[k] in tail;
          var m :| 0 <= m < |tail| && tail[m] == r[k];
          assert ps[m + 1] == r[k];
        }
      }
    }
  }

  /** With unique ids no plate occurs twice. */
  lemma {:induction false} UniqueIdsOccurOnce(a: seq<Plate>, k: nat)
    requires UniqueIds(a) && k < |a|
    ensures multiset(a)[a[k]] == 1
  {
    assert a == a[..k] + [a[k]] + a[k + 1..];
    assert a[k] !in a[..k] by {
      forall m | 0 <= m < k ensures a[..k][m] != a[k] {
        assert a[..k][m].id == a[m].id != a[k].id;
      }
    }
    var later := a[k + 1..];
    assert a[k] !in later by {
      forall m | 0 <= m < |later| ensures later[m] != a[k] {
        assert later[m].id == a[k + 1 + m].id != a[k].id;
      }
    }
  }

  /** An element occurring once in `b` differs from every later element. */
  lemma {:induction false} OnceDiffersFromLater(b: seq<Plate>, i: nat, j: nat)
    requires i < j < |b| && multiset(b)[b[i]] == 1
    ensures b[i] != b[j]
  {
    assert b == b[..j] + [b[j]] + b[j + 1..];
    assert b[..j][i] == b[i];
    assert multiset(b[..j])[b[i]] >= 1;
  }

  /** A permutation of a list with unique ids has unique ids. */
  lemma MultisetIdsUnique(a: seq<Plate>, b: seq<Plate>)
    requires multiset(a) == multiset(b) && UniqueIds(a)
    ensures UniqueIds(b)
  {
    forall i, j | 0 <= i < j < |b| ensures b[i].id != b[j].id {
      assert b[i] in multiset(a) && b[j] in multiset(a);
      var i' :| 0 <= i' < |a| && a[i'] == b[i];
      var j' :| 0 <= j' < |a| && a[j'] == b[j];
      UniqueIdsOccurOnce(a, i');
      OnceDiffersFromLater(b, i, j);
      assert i' != j';
    }
  }

  /** The shape every list operation keeps: one to ten plates with unique ids. */
  predicate WellFormed(ps: seq<Plate>)
  {
    1 <= |ps| <= MAX_PLATES && UniqueIds(ps)
  }

  /** Adding a plate with a fresh id keeps the list well formed. */
  lemma AddKeepsWellFormed(ps: seq<Plate>, freshId: string)
    requires WellFormed(ps) && !HasId(ps, freshId)
    ensures WellFormed(Added(ps, freshId))
  {
    var r := Added(ps, freshId);
    if CanAdd(ps) {
      forall i, j | 0 <= i < j < |r| ensures r[i].id != r[j].id {
        if j == |ps| {
          assert r[i] == ps[i];
        } else {
          assert r[i] == ps[i] && r[j] == ps[j];
        }
      }
    }
  }

  /** Removing keeps the list well formed: the guard and unique ids leave at least one plate. */
  lemma RemoveKeepsWellFormed(ps: seq<Plate>, id: string)
    requires WellFormed(ps)
    ensures WellFormed(Removed(ps, id))
  {
    RemovedSpec(ps, id);
    if CanRemove(ps) {
      FilterOutKeepsUniqueIds(ps, id);
    }
  }

  /** An update that leaves ids alone keeps the list well formed. */
  lemma UpdateKeepsWellFormed(ps: seq<Plate>, id: string, u: PlateUpdate)
    requires WellFormed(ps) && u.id.None?
    ensures WellFormed(Updated(ps, id, u))
  {
    var r := Updated(ps, id, u);
    assert forall i :: 0 <= i < |ps| ==> r[i].id == ps[i].id;
  }

  /** Reordering keeps the list well formed. */
  lemma ReorderKeepsWellFormed(ps: seq<Plate>, from: int, to: int)
    requires WellFormed(ps)
    requires from == to || (0 < |ps| && from < |ps|)
    ensures WellFormed(Reordered(ps, from, to))
  {
    ReorderedSpec(ps, from, to);
    MultisetIdsUnique(ps, Reordered(ps, from, to));
  }

  // ---------------------------------------------------------------------
  // getTotalDimensions: the raw totals, without coercion
  // ---------------------------------------------------------------------

  /**
   * `maxHeight` is `Math.max(...heights)`: `None` stands for `-Infinity`,
   * the value of `Math.max()` with no arguments.
   */
  datatype TotalDimensions = TotalDimensions(
    totalWidth: Num,
    maxHeight: Option<Num>,
    totalArea: Num,
    plateCount: nat,
    needsMirroring: bool)

  /** `reduce((sum, plate) => sum + plate.width, 0)`: a NaN width makes the sum NaN. */
  function RawTotalWidth(ps: seq<Plate>): Num
  {
    if |ps| == 0 then Fin(0.0) else Add(RawTotalWidth(ps[..|ps| - 1]), ps[|ps| - 1].width)
  }

  function RawMaxHeight(ps: seq<Plate>): Option<Num>
  {
    if |ps| == 0 then None
    else
      var m := RawMaxHeight(ps[..|ps| - 1]);
      Some(if m.None? then ps[|ps| - 1].height else Max(m.value, ps[|ps| - 1].height))
  }

  function RawTotalArea(ps: seq<Plate>): Num
  {
    if |ps| == 0 then Fin(0.0)
    else Add(RawTotalArea(ps[..|ps| - 1]), Mul(ps[|ps| - 1].width, ps[|ps| - 1].height))
  }

  function GetTotalDimensions(ps: seq<Plate>): (t: TotalDimensions)
    ensures t.plateCount == |ps|
    ensures t.needsMirroring <==> t.totalWidth.Fin? && t.totalWidth.r > MIRROR_THRESHOLD
  {
    var totalWidth := RawTotalWidth(ps);
    TotalDimensions(totalWidth, RawMaxHeight(ps), RawTotalArea(ps), |ps|, Gt(totalWidth, Fin(300.0)))
  }

  lemma {:induction false} RawTotalWidthFinite(ps: seq<Plate>)
    requires AllFinite(ps)
    ensures RawTotalWidth(ps) == Fin(Layout.SumWidths(ps))
  {
    if |ps| > 0 {
      RawTotalWidthFinite(ps[..|ps| - 1]);
    }
  }

  /**
   * Over numeric widths the raw total is the layout's total, so
   * `needsMirroring` is the canvas's mirror threshold on the same width.
   */
  lemma NeedsMirroringMatchesLayout(ps: seq<Plate>)
    requires AllFinite(ps)
    ensures GetTotalDimensions(ps).totalWidth == Fin(Layout.ComputeSizes(ps).totalWidth)
    ensures GetTotalDimensions(ps).needsMirroring <==> Layout.ComputeSizes(ps).totalWidth > MIRROR_THRESHOLD
  {
    RawTotalWidthFinite(ps);
  }

  /** A single NaN width makes the total NaN and switches mirroring off, while the layout counts it as 0. */
  lemma NaNWidthDisablesMirroring(ps: seq<Plate>)
    requires exists i :: 0 <= i < |ps| && ps[i].width.NaN?
    ensures GetTotalDimensions(ps).totalWidth == NaN
    ensures !GetTotalDimensions(ps).needsMirroring
  {
    RawTotalWidthNaN(ps);
  }

  lemma {:induction false} RawTotalWidthNaN(ps: seq<Plate>)
    requires exists i :: 0 <= i < |ps| && ps[i].width.NaN?
    ensures RawTotalWidth(ps) == NaN
  {
    var i :| 0 <= i < |ps| && ps[i].width.NaN?;
    if i < |ps| - 1 {
      assert ps[..|ps| - 1][i].width.NaN?;
      RawTotalWidthNaN(ps[..|ps| - 1]);
    }
  }

  /** Over numeric heights the maximum is absent only for no plates, and is one of the heights and at least every height. */
  lemma {:induction false} RawMaxHeightFinite(ps: seq<Plate>)
    requires AllFinite(ps)
    ensures RawMaxHeight(ps).Some? <==> |ps| > 0
    ensures |ps| > 0 ==>
      && RawMaxHeight(ps).value.Fin?
      && (forall i :: 0 <= i < |ps| ==> ps[i].height.r <= RawMaxHeight(ps).value.r)
      && (exists i :: 0 <= i < |ps| && RawMaxHeight(ps).value == ps[i].height)
  {
    if |ps| > 1 {
      var init := ps[..|ps| - 1];
      assert AllFinite(init) by {
        forall i | 0 <= i < |init| ensures init[i].width.Fin? && init[i].height.Fin? {
          assert init[i] == ps[i];
        }
      }
      RawMaxHeightFinite(init);
      var j :| 0 <= j < |init| && RawMaxHeight(init).value == init[j].height;
      var last := |ps| - 1;
      if RawMaxHeight(init).value.r >= ps[last].height.r {
        assert RawMaxHeight(ps).value == ps[j].height;
      } else {
        assert RawMaxHeight(ps).value == ps[last].height;
      }
      forall i | 0 <= i < |ps| ensures ps[i].height.r <= RawMaxHeight(ps).value.r {
        if i < last {
          assert ps[i] == init[i];
        }
      }
    } else if |ps| == 1 {
      assert RawMaxHeight(ps).value == ps[0].height;
    }
  }

  /** An empty list has no maximum height (`-Infinity`), a zero total and no mirroring. */
  lemma EmptyTotals()
    ensures GetTotalDimensions([]) == TotalDimensions(Fin(0.0), None, Fin(0.0), 0, false)
  {
  }

  // ---------------------------------------------------------------------
  // getStoredPlates: what was read back from storage
  // ---------------------------------------------------------------------

  /** One object of the stored array: each field absent (or of another type) or present. */
  datatype StoredEntry = StoredEntry(id: Option<string>, width: Option<Num>, height: Option<Num>)

  /**
   * The stored text after `JSON.parse`, as far as the decision needs it. An
   * element of the array is an object or `null` (`None`); `JSON.stringify`
   * writes `undefined` array elements as `null`.
   */
  datatype Stored =
    | NothingStored                      // no entry, or an empty string
    | Unparseable                        // `JSON.parse` threw
    | NotAnArray                         // parsed to something else than an array
    | StoredArray(entries: seq<Option<StoredEntry>>)

  /** The filter: an object with a truthy (non-empty string) id and numeric width and height. */
  predicate Keeps(e: Option<StoredEntry>)
  {
    e.Some? && e.value.id.Some? && e.value.id.value != "" && e.value.width.Some? && e.value.height.Some?
  }

  function ToPlate(e: Option<StoredEntry>): Plate
    requires Keeps(e)
  {
    Plate(e.value.id.value, e.value.width.value, e.value.height.value)
  }

  /** Reading `plate.id` of a `null` element throws inside the filter. */
  predicate HasNull(es: seq<Option<StoredEntry>>)
  {
    exists j :: 0 <= j < |es| && es[j].None?
  }

  /** The filter of `getStoredPlates`, on an array without `null` elements. */
  function FilterEntries(es: seq<Option<StoredEntry>>): (r: seq<Plate>)
    ensures |r| <= |es|
  {
    if |es| == 0 then []
    else if Keeps(es[0]) then [ToPlate(es[0])] + FilterEntries(es[1..])
    else FilterEntries(es[1..])
  }

  /**
   * `getStoredPlates`: the filtered array when a non-empty array was stored
   * and the filter did not throw, the default otherwise.
   */
  function StoredPlates(s: Stored): seq<Plate>
  {
    if s.StoredArray? && |s.entries| > 0 && !HasNull(s.entries) then FilterEntries(s.entries) else DEFAULT_PLATES
  }

  /** One element is kept, as its plate, exactly when it passes. */
  lemma FilterEntriesSingle(e: Option<StoredEntry>)
    ensures FilterEntries([e]) == if Keeps(e) then [ToPlate(e)] else []
  {
    assert [e][1..] == [];
  }

  /** Filtering works element by element and in order: it distributes over concatenation. */
  lemma {:induction false} FilterEntriesAppend(a: seq<Option<StoredEntry>>, b: seq<Option<StoredEntry>>)
    ensures FilterEntries(a + b) == FilterEntries(a) + FilterEntries(b)
    decreases |a|
  {
    if |a| > 0 {
      assert (a + b)[0] == a[0];
      assert (a + b)[1..] == a[1..] + b;
      FilterEntriesAppend(a[1..], b);
    } else {
      assert a + b == b;
    }
  }

  /** `p` is the plate made from some entry of `es` that passes the filter. */
  predicate FromEntry(p: Plate, es: seq<Option<StoredEntry>>)
  {
    exists j :: 0 <= j < |es| && Keeps(es[j]) && p == ToPlate(es[j])
  }

  lemma {:induction false} FilterEntriesSpec(es: seq<Option<StoredEntry>>)
    ensures forall i :: 0 <= i < |FilterEntries(es)| ==> FromEntry(FilterEntries(es)[i], es)
    ensures |FilterEntries(es)| == 0 <==> forall j :: 0 <= j < |es| ==> !Keeps(es[j])
    ensures (forall j :: 0 <= j < |es| ==> Keeps(es[j])) ==> |FilterEntries(es)| == |es|
  {
    if |es| > 0 {
      var tail := es[1..];
      FilterEntriesSpec(tail);
      assert forall j :: 0 <= j < |tail| ==> tail[j] == es[j + 1];
      var r := FilterEntries(es);
      forall i | 0 <= i < |r| ensures FromEntry(r[i], es) {
        if Keeps(es[0]) && i == 0 {
          assert Keeps(es[0]) && r[i] == ToPlate(es[0]);
        } else {
          var i' := if Keeps(es[0]) then i - 1 else i;
          assert r[i] == FilterEntries(tail)[i'];
          assert FromEntry(FilterEntries(tail)[i'], tail);
          var j :| 0 <= j < |tail| && Keeps(tail[j]) && FilterEntries(tail)[i'] == ToPlate(tail[j]);
          assert es[j + 1] == tail[j];
          assert Keeps(es[j + 1]) && r[i] == ToPlate(es[j + 1]);
        }
      }
      if forall j :: 0 <= j < |es| ==> !Keeps(es[j]) {
        assert forall j :: 0 <= j < |tail| ==> !Keeps(tail[j]);
        assert r == FilterEntries(tail);
      }
      if forall j :: 0 <= j < |es| ==> Keeps(es[j]) {
        assert forall j :: 0 <= j < |tail| ==> Keeps(tail[j]);
        assert Keeps(es[0]);
      }
      if |r| == 0 {
        assert !Keeps(es[0]);
        forall j | 0 <= j < |es| ensures !Keeps(es[j]) {
          if j > 0 {
            assert es[j] == tail[j - 1];
          }
        }
      }
    }
  }

  /**
   * The default is used when no non-empty array was stored or when the
   * array holds a `null`; otherwise the passing objects are read back, and
   * an array whose objects all fail gives NO plates.
   */
  lemma StoredPlatesSpec(s: Stored)
    ensures !(s.StoredArray? && |s.entries| > 0) ==> StoredPlates(s) == DEFAULT_PLATES
    ensures s.StoredArray? && HasNull(s.entries) ==> StoredPlates(s) == DEFAULT_PLATES
    ensures s.StoredArray? && |s.entries| > 0 && !HasNull(s.entries) ==> |StoredPlates(s)| <= |s.entries|
    ensures (s.StoredArray? && |s.entries| > 0 && !HasNull(s.entries) &&
      forall j :: 0 <= j < |s.entries| ==> !Keeps(s.entries[j])) ==> StoredPlates(s) == []
  {
    if s.StoredArray? && |s.entries| > 0 && !HasNull(s.entries) {
      FilterEntriesSpec(s.entries);
    }
  }

  /** An array holding one object with an empty id is read back as no plates at all. */
  lemma StoredEmptyIdGivesNoPlates()
    ensures StoredPlates(StoredArray([Some(StoredEntry(Some(""), Some(Fin(30.0)), Some(Fin(30.0))))])) == []
  {
  }

  /** A valid plate followed by a `null` makes the filter throw, and the default is used. */
  lemma StoredNullGivesDefault()
    ensures StoredPlates(StoredArray([Some(StoredEntry(Some("1"), Some(Fin(300.0)), Some(Fin(128.0)))), None]))
        == DEFAULT_PLATES
  {
    var es := [Some(StoredEntry(Some("1"), Some(Fin(300.0)), Some(Fin(128.0)))), None];
    assert es[1].None?;
  }
}

/**
 * `arrayMove`: copy a list, take the element at `from` out with one splice
 * and put it back at `to` with another. Indices follow `Array.prototype.splice`:
 * a negative index counts from the end, and an index past the end means the end.
 */
module ArrayMove {

  /** Where `splice(start, ...)` on an array of length `len` actually starts. */
  function SpliceStart(start: int, len: nat): (k: nat)
    ensures k <= len
    ensures 0 <= start <= len ==> k == start
    ensures start > len ==> k == len
    ensures start < 0 ==> k == if len + start < 0 then 0 else len + start
  {
    if start < 0 then (if len + start < 0 then 0 else len + start)
    else if start > len then len
    else start
  }

  /** The list with element `f` taken out. */
  function RemoveAt<T>(s: seq<T>, f: nat): seq<T>
    requires f < |s|
  {
    s[..f] + s[f + 1..]
  }

  /** The list with `x` inserted so that it lands at index `t`. */
  function InsertAt<T>(s: seq<T>, t: nat, x: T): seq<T>
    requires t <= |s|
  {
    s[..t] + [x] + s[t..]
  }

  /**
   * The specification of `arrayMove(s, from, to)`: remove at the normalised
   * `from`, then insert the removed element at `to` normalised against the
   * shortened list.
   */
  function Moved<T>(s: seq<T>, from: int, to: int): seq<T>
    requires 0 < |s| && from < |s|
  {
    var f := SpliceStart(from, |s|);
    var rest := RemoveAt(s, f);
    InsertAt(rest, SpliceStart(to, |rest|), s[f])
  }

  /**
   * Element by element: the moved element sits at `t`, the elements between
   * the two positions shift by one towards `f`, and the rest stay in place.
   */
  lemma MovedPointwise<T>(s: seq<T>, from: int, to: int)
    requires 0 < |s| && from < |s|
    ensures var f := SpliceStart(from, |s|);
      var t := SpliceStart(to, |s| - 1);
      var r := Moved(s, from, to);
      && |r| == |s|
      && t < |s|
      && r[t] == s[f]
      && (forall k :: 0 <= k < |s| && k < f && k < t ==> r[k] == s[k])
      && (forall k :: 0 <= k < |s| && k > f && k > t ==> r[k] == s[k])
      && (forall k :: f <= k < t ==> r[k] == s[k + 1])
      && (forall k :: t < k <= f ==> r[k] == s[k - 1])
  {
    var f := SpliceStart(from, |s|);
    assert f < |s|;
    var rest := RemoveAt(s, f);
    var t := SpliceStart(to, |rest|);
    assert t <= |rest| == |s| - 1;
    assert forall k :: 0 <= k < f ==> rest[k] == s[k];
    assert forall k :: f <= k < |rest| ==> rest[k] == s[k + 1];
  }

  /** Shifts the buffer's elements `f + 1 .. t` down by one place, overwriting element `f`. */
  method ShiftDown<T>(buf: array<T>, ghost a: seq<T>, f: nat, t: nat)
    requires buf[..] == a && f <= t < |a|
    modifies buf
    ensures forall k :: 0 <= k < f ==> buf[k] == a[k]
    ensures forall k :: f <= k < t ==> buf[k] == a[k + 1]
    ensures forall k :: t <= k < |a| ==> buf[k] == a[k]
  {
    var i := f;
    while i < t
      invariant f <= i <= t
      invariant forall k :: 0 <= k < f ==> buf[k] == a[k]
      invariant forall k :: f <= k < i ==> buf[k] == a[k + 1]
      invariant forall k :: i <= k < |a| ==> buf[k] == a[k]
    {
      buf[i] := buf[i + 1];
      i := i + 1;
    }
  }

  /** Shifts the buffer's elements `t .. f - 1` up by one place, overwriting element `f`. */
  method ShiftUp<T>(buf: array<T>, ghost a: seq<T>, t: nat, f: nat)
    requires buf[..] == a && t <= f < |a|
    modifies buf
    ensures forall k :: 0 <= k <= t ==> buf[k] == a[k]
    ensures forall k :: t < k <= f ==> buf[k] == a[k - 1]
    ensures forall k :: f < k < |a| ==> buf[k] == a[k]
  {
    var i := f;
    while i > t
      invariant t <= i <= f
      invariant forall k :: 0 <= k <= i ==> buf[k] == a[k]
      invariant forall k :: i < k <= f ==> buf[k] == a[k - 1]
      invariant forall k :: f < k < |a| ==> buf[k] == a[k]
    {
      buf[i] := buf[i - 1];
      i := i - 1;
    }
  }

  /**
   * Copies `a` into a buffer, takes out the element at `from` and shifts the
   * elements between the two positions by one so that it can be written back at `to`.
   */
  method ArrayMove<T>(a: seq<T>, from: int, to: int) returns (r: seq<T>)
    requires 0 < |a| && from < |a|
    ensures r == Moved(a, from, to)
  {
    var copy := new T[|a|](i requires 0 <= i < |a| => a[i]);
    var f := SpliceStart(from, |a|);
    var item := copy[f];
    var t := SpliceStart(to, |a| - 1);
    if f < t {
      ShiftDown(copy, a, f, t);
    } else {
      ShiftUp(copy, a, t, f);
    }
    copy[t] := item;
    r := copy[..];
    PointwiseIsMoved(a, from, to, r);
  }

  /** A list that agrees with `Moved` element by element, as `MovedPointwise` lists them, is `Moved`. */
  lemma PointwiseIsMoved<T>(s: seq<T>, from: int, to: int, r: seq<T>)
    requires 0 < |s| && from < |s|
    requires var f := SpliceStart(from, |s|);
      var t := SpliceStart(to, |s| - 1);
      && |r| == |s|
      && t < |s|
      && r[t] == s[f]
      && (forall k :: 0 <= k < |s| && k < f && k < t ==> r[k] == s[k])
      && (forall k :: 0 <= k < |s| && k > f && k > t ==> r[k] == s[k])
      && (forall k :: f <= k < t ==> r[k] == s[k + 1])
      && (forall k :: t < k <= f ==> r[k] == s[k - 1])
    ensures r == Moved(s, from, to)
  {
    MovedPointwise(s, from, to);
    var m := Moved(s, from, to);
    forall k | 0 <= k < |s| ensures r[k] == m[k] {
    }
  }

  /** Moving keeps the length and the elements: the result is a permutation. */
  lemma MovedIsPermutation<T>(s: seq<T>, from: int, to: int)
    requires 0 < |s| && from < |s|
    ensures |Moved(s, from, to)| == |s|
    ensures multiset(Moved(s, from, to)) == multiset(s)
  {
    var f := SpliceStart(from, |s|);
    var rest := RemoveAt(s, f);
    var t := SpliceStart(to, |rest|);
    assert s == s[..f] + [s[f]] + s[f + 1..];
    assert rest[..t] + rest[t..] == rest;
    calc {
      multiset(Moved(s, from, to));
      multiset(rest[..t]) + multiset{s[f]} + multiset(rest[t..]);
      multiset(rest) + multiset{s[f]};
      multiset(s[..f]) + multiset(s[f + 1..]) + multiset{s[f]};
      multiset(s);
    }
  }

  /** Taking the moved element back out of the result gives the list without it, in order. */
  lemma MovedKeepsOrderOfTheRest<T>(s: seq<T>, from: int, to: int)
    requires 0 < |s| && from < |s|
    ensures var f := SpliceStart(from, |s|);
      var t := SpliceStart(to, |s| - 1);
      t < |s| && RemoveAt(Moved(s, from, to), t) == RemoveAt(s, f)
  {
    var f := SpliceStart(from, |s|);
    var rest := RemoveAt(s, f);
    var t := SpliceStart(to, |rest|);
    var r := Moved(s, from, to);
    assert r[..t] == rest[..t];
    assert r[t + 1..] == rest[t..];
  }

  /** Moving an element onto its own (non-negative) index changes nothing. */
  lemma MoveInPlaceIsIdentity<T>(s: seq<T>, i: nat)
    requires i < |s|
    ensures Moved(s, i, i) == s
  {
    assert s[..i] + [s[i]] + s[i + 1..] == s;
  }

  /** Moving from `i` to `j` and back from `j` to `i` restores the list. */
  lemma MoveThereAndBack<T>(s: seq<T>, i: nat, j: nat)
    requires i < |s| && j < |s|
    ensures j < |Moved(s, i, j)|
    ensures Moved(Moved(s, i, j), j, i) == s
  {
    MovedIsPermutation(s, i, j);
    MovedKeepsOrderOfTheRest(s, i, j);
    var r := Moved(s, i, j);
    var rest := RemoveAt(s, i);
    assert RemoveAt(r, j) == rest;
    assert r[j] == s[i] by { MovedPointwise(s, i, j); }
    assert Moved(r, j, i) == InsertAt(rest, i, s[i]);
    assert InsertAt(rest, i, s[i]) == s;
  }

  /**
   * A concrete move: `[a, b, c, d]` with 0 to 2 gives `[b, c, a, d]`; -1 means
   * the last element, and a `from` below minus the length means the first.
   */
  lemma MoveExamples()
    ensures Moved(['a', 'b', 'c', 'd'], 0, 2) == ['b', 'c', 'a', 'd']
    ensures Moved(['a', 'b', 'c', 'd'], -10, 2) == ['b', 'c', 'a', 'd']
    ensures Moved(['a', 'b', 'c', 'd'], -1, 0) == ['d', 'a', 'b', 'c']
  {
    assert RemoveAt(['a', 'b', 'c', 'd'], 0) == ['b', 'c', 'd'];
    assert RemoveAt(['a', 'b', 'c', 'd'], 3) == ['a', 'b', 'c'];
  }
}

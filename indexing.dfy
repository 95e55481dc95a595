/** The index arithmetic behind `forward_value.__getitem__`: Python's
    slice semantics, boolean masks, `np.take` with negative indices, and
    the wrap-around `getitem_array` applies before `getitem_arrayp`. */
module Indexing {
  import opened Common

  /** `slice(start, stop, step)`, any part possibly `None`. */
  datatype Slice = Slice(start: Option<int>, stop: Option<int>, step: Option<int>)

  /** An integer array index or a boolean mask. */
  datatype ArrayIndex = Ints(ks: seq<int>) | Mask(bits: seq<bool>)

  /** `np.arange(len(idx))[idx]` for a mask; the integers themselves otherwise. */
  function AsInts(idx: ArrayIndex): (r: seq<int>)
    ensures idx.Ints? ==> r == idx.ks
    ensures idx.Mask? ==> forall t :: 0 <= t < |r| ==> 0 <= r[t] < |idx.bits| && idx.bits[r[t]]
    ensures idx.Mask? ==> forall p :: 0 <= p < |idx.bits| && idx.bits[p] ==> p in r
  {
    match idx
    case Ints(ks) => ks
    case Mask(bits) => TruePositions(bits)
  }

  /** Every index lies in `[-len, len)`, as `np.take` demands. */
  predicate InRange(ks: seq<int>, len: nat) {
    forall t :: 0 <= t < |ks| ==> -(len as int) <= ks[t] < len
  }

  /** The position a Python index denotes in a sequence of length `len`. */
  function Normal(k: int, len: nat): (p: int)
    requires -(len as int) <= k < len
    ensures 0 <= p < len
    ensures k >= 0 ==> p == k
    ensures k < 0 ==> p == k + len
  {
    if k < 0 then k + len else k
  }

  /** `np.take(xs, ks)` with negative indices counting from the end. */
  function TakeAt(xs: seq<real>, ks: seq<int>): (r: seq<real>)
    requires InRange(ks, |xs|)
    ensures |r| == |ks|
    ensures forall t :: 0 <= t < |ks| ==> r[t] == xs[Normal(ks[t], |xs|)]
  {
    seq(|ks|, t requires 0 <= t < |ks| => xs[Normal(ks[t], |xs|)])
  }

  /** `np.amin(idx) < 0` for a non-empty `idx`. */
  predicate HasNegative(ks: seq<int>) {
    exists t :: 0 <= t < |ks| && ks[t] < 0
  }

  /** The wrap `getitem_array` performs, as written: when some index is
      negative, every index becomes `(idx + n) % n` with `n = len(idx)`,
      the number of indices rather than the length of the value. */
  function WrapAsWritten(ks: seq<int>): (r: seq<int>)
    ensures |r| == |ks|
    ensures HasNegative(ks) ==> forall t :: 0 <= t < |ks| ==> 0 <= r[t] < |ks|
    ensures !HasNegative(ks) ==> r == ks
  {
    var n := |ks|;
    if n > 0 && HasNegative(ks) then seq(n, t requires 0 <= t < n => (ks[t] + n) % n) else ks
  }

  /** The wrap with the length of the indexed value: `(idx + len) % len`. */
  function WrapIndices(ks: seq<int>, len: nat): (r: seq<int>)
    requires InRange(ks, len)
    ensures |r| == |ks|
    ensures forall t :: 0 <= t < |ks| ==> r[t] == Normal(ks[t], len)
  {
    var n := |ks|;
    if n > 0 && HasNegative(ks) then
      seq(n, t requires 0 <= t < n => WrapOne(ks[t], len))
    else ks
  }

  /** `(k + len) % len` for one index in `[-len, len)`. */
  function WrapOne(k: int, len: nat): (p: int)
    requires -(len as int) <= k < len
    ensures p == Normal(k, len)
  {
    var a := k + len;
    ShiftMod(a, len);
    a % len
  }

  lemma ShiftMod(a: int, b: nat)
    requires 0 <= a < 2 * b
    ensures a % b == if a < b then a else a - b
  {
    if a < b {
      assert a == 0 * b + a;
    } else {
      assert a == 1 * b + (a - b);
    }
  }

  /** The rows the corrected wrap selects are exactly the elements `np.take` picks. */
  lemma WrapMatchesTake(xs: seq<real>, ks: seq<int>)
    requires InRange(ks, |xs|)
    ensures forall t :: 0 <= t < |ks| ==> 0 <= WrapIndices(ks, |xs|)[t] < |xs|
    ensures forall t :: 0 <= t < |ks| ==> TakeAt(xs, ks)[t] == xs[WrapIndices(ks, |xs|)[t]]
  {
  }

  /** On `x` of length 5, `x[np.asarray([-1])]` takes `x[4]`, but the wrap
      as written points its Jacobian row at `x[0]`. */
  lemma WrapAsWrittenMisses()
    ensures WrapAsWritten([-1]) == [0]
    ensures WrapIndices([-1], 5) == [4]
    ensures TakeAt([0.0, 1.0, 2.0, 3.0, 4.0], [-1]) == [4.0]
  {
    assert HasNegative([-1]) by { assert [-1][0] < 0; }
    assert WrapAsWritten([-1])[0] == 0;
  }

  /** The two wraps agree when every index is non-negative. */
  lemma WrapsAgreeWithoutNegatives(ks: seq<int>, len: nat)
    requires InRange(ks, len) && !HasNegative(ks)
    ensures WrapAsWritten(ks) == WrapIndices(ks, len) == ks
  {
  }

  /** Every index the wrap as written produces is a row of a value of
      length `len`; `getitem_arrayp` raises `IndexError` otherwise. */
  predicate WrapsInside(ks: seq<int>, len: nat) {
    forall t :: 0 <= t < |ks| ==> WrapAsWritten(ks)[t] < len
  }

  /** With no more indices than elements, the wrap as written stays
      inside the value. */
  lemma WrapsInsideWhenFew(ks: seq<int>, len: nat)
    requires InRange(ks, len) && |ks| <= len
    ensures WrapsInside(ks, len)
  {
    if HasNegative(ks) {
      forall t | 0 <= t < |ks|
        ensures WrapAsWritten(ks)[t] < len
      {
        assert WrapAsWritten(ks)[t] < |ks|;
      }
    }
  }

  /** `x[[-1, 0, 1]]` on `x` of length 2 is a valid numpy index, but the
      wrap as written turns `-1` into `(-1 + 3) % 3 == 2`, which is past
      the end. */
  lemma WrapAsWrittenOverruns()
    ensures InRange([-1, 0, 1], 2)
    ensures WrapAsWritten([-1, 0, 1]) == [2, 0, 1]
    ensures !WrapsInside([-1, 0, 1], 2)
  {
    var ks := [-1, 0, 1];
    assert HasNegative(ks) by { assert ks[0] < 0; }
    assert WrapAsWritten(ks)[0] == 2;
    assert WrapAsWritten(ks)[1] == 0;
    assert WrapAsWritten(ks)[2] == 1;
  }

  // ----- slices -----

  /** `slice.indices(len)`'s clamp of one bound (CPython's
      `PySlice_AdjustIndices`): negative counts from the end, then the
      bound is clamped to `[lower, upper]`. */
  function Clamp(v: Option<int>, dflt: int, len: nat, lower: int, upper: int): int {
    match v
    case None => dflt
    case Some(x) =>
      if x < 0 then (if x + len < 0 then lower else x + len)
      else if x >= len then upper
      else x
  }

  /** `range(start, stop, step)` for a positive step. */
  function Up(start: int, stop: int, step: nat): (r: seq<int>)
    requires step > 0
    ensures forall t :: 0 <= t < |r| ==> start <= r[t] < stop
    ensures |r| > 0 ==> r[0] == start
    ensures forall t :: 0 <= t < |r| - 1 ==> r[t + 1] == r[t] + step
    decreases stop - start
  {
    if start < stop then [start] + Up(start + step, stop, step) else []
  }

  /** `range(start, stop, step)` for a negative step `-down`. */
  function Down(start: int, stop: int, down: nat): (r: seq<int>)
    requires down > 0
    ensures forall t :: 0 <= t < |r| ==> stop < r[t] <= start
    ensures |r| > 0 ==> r[0] == start
    ensures forall t :: 0 <= t < |r| - 1 ==> r[t + 1] == r[t] - down
    decreases start - stop
  {
    if start > stop then [start] + Down(start - down, stop, down) else []
  }

  /** The positions `x[sl]` selects from a sequence of length `len`; a zero
      step is the `ValueError` Python raises. */
  function SlicePositions(sl: Slice, len: nat): (r: Result<seq<int>>)
    ensures r.Err? <==> sl.step == Some(0)
    ensures r.Err? ==> r.error.ValueError?
    ensures r.Ok? ==> forall t :: 0 <= t < |r.value| ==> 0 <= r.value[t] < len
  {
    var step := sl.step.GetOr(1);
    if step == 0 then Err(ValueError("slice step cannot be zero"))
    else if step > 0 then
      var start := Clamp(sl.start, 0, len, 0, len);
      var stop := Clamp(sl.stop, len, len, 0, len);
      Ok(Up(start, stop, step))
    else
      var start := Clamp(sl.start, len - 1, len, -1, len - 1);
      var stop := Clamp(sl.stop, -1, len, -1, len - 1);
      Ok(Down(start, stop, -step))
  }

  /** `x[1:-2]` on five elements selects positions 1 and 2. */
  lemma SliceInner()
    ensures SlicePositions(Slice(Some(1), Some(-2), None), 5) == Ok([1, 2])
  {
    assert Clamp(Some(1), 0, 5, 0, 5) == 1;
    assert Clamp(Some(-2), 5, 5, 0, 5) == 3;
    assert Up(3, 3, 1) == [];
    assert Up(2, 3, 1) == [2];
    assert Up(1, 3, 1) == [1, 2];
  }

  /** `x[::-1]` on four elements reverses them. */
  lemma SliceReversed()
    ensures SlicePositions(Slice(None, None, Some(-1)), 4) == Ok([3, 2, 1, 0])
  {
    assert Down(-1, -1, 1) == [];
    assert Down(0, -1, 1) == [0];
    assert Down(1, -1, 1) == [1, 0];
    assert Down(2, -1, 1) == [2, 1, 0];
    assert Down(3, -1, 1) == [3, 2, 1, 0];
  }

  /** A full slice selects every position in order. */
  lemma {:induction false} FullSlice(len: nat)
    ensures SlicePositions(Slice(None, None, None), len) == Ok(seq(len, t => t))
  {
    UpFrom(0, len);
    assert seq(len - 0, t => 0 + t) == seq(len, t => t);
  }

  lemma {:induction false} UpFrom(start: nat, stop: nat)
    requires start <= stop
    ensures Up(start, stop, 1) == seq(stop - start, t => start + t)
    decreases stop - start
  {
    if start < stop {
      UpFrom(start + 1, stop);
      assert [start] + seq(stop - start - 1, t => start + 1 + t) == seq(stop - start, t => start + t);
    }
  }
}

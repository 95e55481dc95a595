/** Shared vocabulary: optional values, the exceptions the library raises,
    numbers as numpy 0-d or 1-d arrays, and finite sums. */
module Common {

  datatype Option<+T> = None | Some(value: T) {
    function GetOr(default: T): T {
      match this
      case Some(v) => v
      case None => default
    }
  }

  /** The Python exceptions raised by the modelled code. */
  datatype Error =
    | ValueError(msg: string)
    | AssertionError(msg: string)
    | NotImplementedError(msg: string)
    | IndexError
    | DispatchError(msg: string)
    | AttributeError(msg: string)

  /** scipy's message when a nonzero number is added to a sparse matrix. */
  const NonzeroScalar := "adding a nonzero scalar to a sparse matrix is not supported"

  datatype Result<+T> = Ok(value: T) | Err(error: Error)

  /** A numpy value of dimension 0 (`Scalar`) or 1 (`Vec`). */
  datatype Num = Scalar(v: real) | Vec(vs: seq<real>)

  /** `x.shape` seen as a row count: `None` for a 0-d value. */
  function ShapeOf(x: Num): Option<nat> {
    match x
    case Scalar(_) => None
    case Vec(vs) => Some(|vs|)
  }

  /** A dimension where `None` (0-d) counts as one row. */
  function Dim(n: Option<nat>): nat {
    n.GetOr(1)
  }

  /** Element `i` of `x` after broadcasting it to `n` elements (numpy rules). */
  function At(x: Num, i: nat): real
    requires x.Vec? ==> i < |x.vs| || |x.vs| == 1
  {
    match x
    case Scalar(v) => v
    case Vec(vs) => if |vs| == 1 then vs[0] else vs[i]
  }

  /** The per-row factors that `diag(x)` applies to an `n`-row matrix. */
  function RowFactors(x: Num, n: nat): (r: seq<real>)
    requires x.Vec? ==> |x.vs| == n || |x.vs| == 1
    ensures |r| == n
    ensures forall i :: 0 <= i < n ==> r[i] == At(x, i)
  {
    seq(n, i requires 0 <= i < n => At(x, i))
  }

  /** Whether numpy can broadcast `a` and `b` together. */
  predicate Broadcastable(a: Num, b: Num) {
    a.Scalar? || b.Scalar? || |a.vs| == |b.vs| || |a.vs| == 1 || |b.vs| == 1
  }

  /** The broadcast shape of `a` and `b`. */
  function BroadcastShape(a: Num, b: Num): Option<nat>
    requires Broadcastable(a, b)
  {
    match (a, b)
    case (Scalar(_), _) => ShapeOf(b)
    case (_, Scalar(_)) => ShapeOf(a)
    case (Vec(x), Vec(y)) => if |x| == 1 then Some(|y|) else Some(|x|)
  }

  /** Elementwise combination of two broadcastable values. */
  function Zip(a: Num, b: Num, f: (real, real) -> real): (r: Num)
    requires Broadcastable(a, b)
    ensures ShapeOf(r) == BroadcastShape(a, b)
    ensures r.Vec? ==> forall i :: 0 <= i < |r.vs| ==> r.vs[i] == f(At(a, i), At(b, i))
  {
    match (a, b)
    case (Scalar(x), Scalar(y)) => Scalar(f(x, y))
    case _ =>
      var n := Dim(BroadcastShape(a, b));
      Vec(seq(n, i requires 0 <= i < n => f(At(a, i), At(b, i))))
  }

  function Plus(a: Num, b: Num): Num requires Broadcastable(a, b) { Zip(a, b, (x, y) => x + y) }
  function Minus(a: Num, b: Num): Num requires Broadcastable(a, b) { Zip(a, b, (x, y) => x - y) }
  function Times(a: Num, b: Num): Num requires Broadcastable(a, b) { Zip(a, b, (x, y) => x * y) }

  function Negate(a: Num): (r: Num)
    ensures ShapeOf(r) == ShapeOf(a)
  {
    match a
    case Scalar(x) => Scalar(-x)
    case Vec(xs) => Vec(seq(|xs|, i requires 0 <= i < |xs| => -xs[i]))
  }

  predicate NonZero(a: Num) {
    match a
    case Scalar(x) => x != 0.0
    case Vec(xs) => forall i :: 0 <= i < |xs| ==> xs[i] != 0.0
  }

  /** `np.reciprocal(z)`; a zero divisor (IEEE infinity) is outside the model. */
  function Reciprocal(z: Num): (r: Num)
    requires NonZero(z)
    ensures ShapeOf(r) == ShapeOf(z)
    ensures r.Vec? ==> forall i :: 0 <= i < |r.vs| ==> r.vs[i] * z.vs[i] == 1.0
  {
    match z
    case Scalar(x) => Scalar(1.0 / x)
    case Vec(xs) => Vec(seq(|xs|, i requires 0 <= i < |xs| => 1.0 / xs[i]))
  }

  /** `x / z` elementwise. */
  function Quotient(x: Num, z: Num): Num
    requires Broadcastable(x, z) && NonZero(z)
  {
    Times(x, Reciprocal(z))
  }

  /** `np.ones(n)` for a 1-d shape, `1.` for a 0-d one. */
  function OnesOf(shape: Option<nat>): (r: Num)
    ensures ShapeOf(r) == shape
  {
    match shape
    case None => Scalar(1.0)
    case Some(n) => Vec(seq(n, _ => 1.0))
  }

  /** The elements of `x` as a sequence (`np.atleast_1d`). */
  function Elements(x: Num): (r: seq<real>)
    ensures |r| == Dim(ShapeOf(x))
  {
    match x
    case Scalar(v) => [v]
    case Vec(vs) => vs
  }

  /** Finite sum of a sequence of reals. */
  function Sum(xs: seq<real>): real
  {
    if |xs| == 0 then 0.0 else xs[0] + Sum(xs[1..])
  }

  /** The sum of the `vals[k]` whose index `idx[k]` is `j` (scatter-add at `j`). */
  function ScatterAt(idx: seq<int>, vals: seq<real>, j: int): real
    requires |idx| == |vals|
  {
    if |idx| == 0 then 0.0
    else (if idx[0] == j then vals[0] else 0.0) + ScatterAt(idx[1..], vals[1..], j)
  }

  lemma {:induction false} SumOfZeros(xs: seq<real>)
    requires forall k :: 0 <= k < |xs| ==> xs[k] == 0.0
    ensures Sum(xs) == 0.0
  {
    if |xs| > 0 {
      SumOfZeros(xs[1..]);
    }
  }

  /** A sum with a single nonzero term is that term. */
  lemma {:induction false} SumSingle(xs: seq<real>, k: nat)
    requires k < |xs|
    requires forall j :: 0 <= j < |xs| && j != k ==> xs[j] == 0.0
    ensures Sum(xs) == xs[k]
  {
    if k == 0 {
      SumOfZeros(xs[1..]);
    } else {
      SumSingle(xs[1..], k - 1);
    }
  }

  lemma {:induction false} SumNonNegative(xs: seq<real>)
    requires forall k :: 0 <= k < |xs| ==> xs[k] >= 0.0
    ensures Sum(xs) >= 0.0
  {
    if |xs| > 0 {
      SumNonNegative(xs[1..]);
    }
  }

  /** A sum of non-negative terms one of which is positive is positive: no cancellation. */
  lemma {:induction false} SumPositive(xs: seq<real>, k: nat)
    requires k < |xs|
    requires forall j :: 0 <= j < |xs| ==> xs[j] >= 0.0
    requires xs[k] > 0.0
    ensures Sum(xs) > 0.0
  {
    if k == 0 {
      SumNonNegative(xs[1..]);
    } else {
      SumPositive(xs[1..], k - 1);
    }
  }

  /** A nonzero sum has a nonzero term. */
  lemma {:induction false} SumNonZeroHasWitness(xs: seq<real>) returns (k: nat)
    requires Sum(xs) != 0.0
    ensures k < |xs| && xs[k] != 0.0
  {
    if xs[0] != 0.0 {
      k := 0;
    } else {
      var k' := SumNonZeroHasWitness(xs[1..]);
      k := k' + 1;
    }
  }

  lemma {:induction false} ScatterAtNoMatch(idx: seq<int>, vals: seq<real>, j: int)
    requires |idx| == |vals|
    requires forall k :: 0 <= k < |idx| ==> idx[k] != j
    ensures ScatterAt(idx, vals, j) == 0.0
  {
    if |idx| > 0 {
      ScatterAtNoMatch(idx[1..], vals[1..], j);
    }
  }

  /** Scatter-add over a concatenation is the sum of the two scatter-adds. */
  lemma {:induction false} ScatterAtAppend(i1: seq<int>, v1: seq<real>, i2: seq<int>, v2: seq<real>, j: int)
    requires |i1| == |v1| && |i2| == |v2|
    ensures ScatterAt(i1 + i2, v1 + v2, j) == ScatterAt(i1, v1, j) + ScatterAt(i2, v2, j)
  {
    if |i1| == 0 {
      assert i1 + i2 == i2 && v1 + v2 == v2;
    } else {
      assert (i1 + i2)[1..] == i1[1..] + i2;
      assert (v1 + v2)[1..] == v1[1..] + v2;
      ScatterAtAppend(i1[1..], v1[1..], i2, v2, j);
    }
  }
  /** Broadcast element access through a product. */
  lemma AtTimes(a: Num, b: Num, i: nat)
    requires Broadcastable(a, b)
    requires a.Vec? ==> i < |a.vs| || |a.vs| == 1
    requires b.Vec? ==> i < |b.vs| || |b.vs| == 1
    ensures At(Times(a, b), i) == At(a, i) * At(b, i)
  {
  }

  /** Broadcast element access through a sum. */
  lemma AtPlus(a: Num, b: Num, i: nat)
    requires Broadcastable(a, b)
    requires a.Vec? ==> i < |a.vs| || |a.vs| == 1
    requires b.Vec? ==> i < |b.vs| || |b.vs| == 1
    ensures At(Plus(a, b), i) == At(a, i) + At(b, i)
  {
  }

  lemma TimesOne(p: Num)
    ensures Times(Scalar(1.0), p) == p
  {
    if p.Vec? {
      assert Times(Scalar(1.0), p).vs == p.vs;
    }
  }

  lemma {:induction false} SumSnoc(xs: seq<real>, x: real)
    ensures Sum(xs + [x]) == Sum(xs) + x
  {
    if |xs| == 0 {
      assert xs + [x] == [x];
    } else {
      assert (xs + [x])[1..] == xs[1..] + [x];
      SumSnoc(xs[1..], x);
    }
  }

  /** A common factor moves out of a sum. */
  lemma {:induction false} SumScale(xs: seq<real>, ys: seq<real>, c: real)
    requires |xs| == |ys|
    requires forall k :: 0 <= k < |xs| ==> ys[k] == xs[k] * c
    ensures Sum(ys) == Sum(xs) * c
  {
    if |xs| > 0 {
      SumScale(xs[1..], ys[1..], c);
    }
  }

  /** A sum of `|xs|` copies of `v`. */
  lemma {:induction false} SumConst(xs: seq<real>, v: real)
    requires forall k :: 0 <= k < |xs| ==> xs[k] == v
    ensures Sum(xs) == |xs| as real * v
  {
    if |xs| > 0 {
      SumConst(xs[1..], v);
    }
  }

  /** The positions where `mask` holds, in increasing order (`np.arange(len(mask))[mask]`). */
  function TruePositions(mask: seq<bool>): (r: seq<int>)
    ensures forall k :: 0 <= k < |r| ==> 0 <= r[k] < |mask| && mask[r[k]]
    ensures forall k, l :: 0 <= k < l < |r| ==> r[k] < r[l]
    ensures forall p :: 0 <= p < |mask| && mask[p] ==> p in r
  {
    if |mask| == 0 then []
    else
      var rest := TruePositions(mask[..|mask| - 1]);
      if mask[|mask| - 1] then rest + [|mask| - 1] else rest
  }
}

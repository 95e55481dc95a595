/** The factored Jacobian `s . diag(d) . M` (`sdcsr`) and its variant that
    only propagates sparsity (`sparsity_csr`), as one class with a flag. */
module ScaledMatrix {
  import opened Common
  import opened Matrices
  import Csr

  /** `mshape`: `None` rows for the derivative of a scalar, `None` columns
      for a derivative with respect to a scalar. */
  datatype MShape = MShape(rows: Option<nat>, cols: Option<nat>)

  /** The general part `M`: an immutable matrix object, compared by identity. */
  class Mat {
    const val: Matrix

    constructor (v: Matrix)
      ensures val == v
    {
      val := v;
    }
  }

  /** What `tovalue` returns: a 0-d number or a matrix object. */
  datatype Evaluated = ScalarValue(p: real) | MatrixValue(m: Mat)

  function EvalDense(v: Evaluated): Matrix {
    match v
    case ScalarValue(p) => Mx(1, 1, [[p]])
    case MatrixValue(m) => m.val
  }

  /** A `tovalue` result seen as a value: a 0-d number or a matrix. */
  datatype Plain = Number(p: real) | Sparse(m: Matrix)

  function PlainDense(v: Plain): Matrix {
    match v
    case Number(p) => Mx(1, 1, [[p]])
    case Sparse(m) => m
  }

  function PlainOf(v: Evaluated): (r: Plain)
    ensures PlainDense(r) == EvalDense(v)
    ensures r.Number? <==> v.ScalarValue?
  {
    match v
    case ScalarValue(p) => Number(p)
    case MatrixValue(m) => Sparse(m.val)
  }

  /** scipy refuses a sum of a sparse matrix and a number other than 0. */
  predicate Refused(u: Plain, v: Plain) {
    u.Number? != v.Number? && (if u.Number? then u.p else v.p) != 0.0
  }

  /** `u + v` on `tovalue` results of one shape: numbers add, matrices add,
      and a matrix plus the number 0 is (a copy of) the matrix; any other
      number added to a sparse matrix is scipy's `NotImplementedError`. */
  function SpAdd(u: Plain, v: Plain): (r: Result<Plain>)
    requires SameShape(PlainDense(u), PlainDense(v))
    ensures r.Err? <==> Refused(u, v)
    ensures r.Err? ==> r.error == NotImplementedError(NonzeroScalar)
    ensures r.Ok? ==> SameShape(PlainDense(r.value), PlainDense(u))
    ensures r.Ok? ==> (r.value.Number? <==> u.Number? && v.Number?)
  {
    match (u, v)
    case (Number(p), Number(q)) => Ok(Number(p + q))
    case (Number(p), Sparse(m)) => if p == 0.0 then Ok(v) else Err(NotImplementedError(NonzeroScalar))
    case (Sparse(m), Number(q)) => if q == 0.0 then Ok(u) else Err(NotImplementedError(NonzeroScalar))
    case (Sparse(a), Sparse(b)) => Ok(Sparse(Add(a, b)))
  }

  /** A sum scipy accepts is the sum of the two matrices. */
  lemma SpAddSums(u: Plain, v: Plain)
    requires SameShape(PlainDense(u), PlainDense(v)) && SpAdd(u, v).Ok?
    ensures PlainDense(SpAdd(u, v).value) == Add(PlainDense(u), PlainDense(v))
  {
    match (u, v)
    case (Number(p), Number(q)) => Ext(Mx(1, 1, [[p + q]]), Add(PlainDense(u), PlainDense(v)));
    case (Number(p), Sparse(m)) => AddZero(m, true);
    case (Sparse(m), Number(q)) => AddZero(m, false);
    case (Sparse(a), Sparse(b)) =>
  }

  /** A 1 x 1 matrix plus the number 0, on either side, is the matrix. */
  lemma AddZero(m: Matrix, left: bool)
    requires m.rows == 1 && m.cols == 1
    ensures left ==> Add(Mx(1, 1, [[0.0]]), m) == m
    ensures !left ==> Add(m, Mx(1, 1, [[0.0]])) == m
  {
    if left {
      Ext(Add(Mx(1, 1, [[0.0]]), m), m);
    } else {
      Ext(Add(m, Mx(1, 1, [[0.0]])), m);
    }
  }

  /** A row-scaling factor fits `rows` rows: a scalar, or one entry per row. */
  predicate FactorFits(p: Num, rows: Option<nat>) {
    p.Vec? ==> rows == Some(|p.vs|)
  }

  /** `diag(p) . base`, `p` broadcast over the rows of `base`. */
  function Scaled(p: Num, base: Matrix): (r: Matrix)
    requires p.Vec? ==> |p.vs| == base.rows || |p.vs| == 1
    ensures SameShape(r, base)
    ensures forall i, j :: 0 <= i < base.rows && 0 <= j < base.cols ==> r.e[i][j] == At(p, i) * base.e[i][j]
  {
    ScaleRows(RowFactors(p, base.rows), base)
  }

  /** What `M` stands for: `M` itself, or the identity when it is `None`. */
  function BaseOf(mshape: MShape, M: Mat?): Matrix {
    if M == null then Identity(Dim(mshape.rows)) else M.val
  }

  /** The fields of one instance agree with each other. */
  predicate Consistent(sparsity: bool, mshape: MShape, s: real, diag: Num, M: Mat?) {
    (M != null ==> M.val.rows == Dim(mshape.rows) && M.val.cols == Dim(mshape.cols)) &&
    (M == null ==> mshape.rows == mshape.cols) &&
    FactorFits(diag, mshape.rows) &&
    (sparsity ==> s == 1.0 && diag == Scalar(1.0) && (M != null ==> IsPattern(M.val)))
  }

  /** Element `i` of the chained factor `(s * x) * diag`. */
  lemma FactorAt(s: real, x: Num, diag: Num, i: nat)
    requires Broadcastable(x, diag)
    requires x.Vec? ==> i < |x.vs| || |x.vs| == 1
    requires diag.Vec? ==> i < |diag.vs| || |diag.vs| == 1
    ensures At(Times(Times(Scalar(s), x), diag), i) == At(x, i) * (s * At(diag, i))
  {
    AtTimes(Scalar(s), x, i);
    AtTimes(Times(Scalar(s), x), diag, i);
    Reassoc(s, At(x, i), At(diag, i));
  }

  /** Row by row, the chained factor `(s * x) * diag` is `x` times the old
      factor `s * diag` repeated to `n` rows. */
  lemma ChainFactors(s: real, x: Num, diag: Num, rows: nat, n: nat)
    requires Broadcastable(x, diag) && (rows == n || rows == 1)
    requires x.Vec? ==> |x.vs| == n || |x.vs| == 1
    requires diag.Vec? ==> |diag.vs| == rows
    requires Times(Times(Scalar(s), x), diag).Vec? ==> |Times(Times(Scalar(s), x), diag).vs| == n
    ensures RowFactors(Times(Times(Scalar(s), x), diag), n)
      == RowProducts(RowFactors(x, n), BroadcastFactors(RowFactors(Times(Scalar(s), diag), rows), n))
  {
    var l := RowFactors(Times(Times(Scalar(s), x), diag), n);
    var r := RowProducts(RowFactors(x, n), BroadcastFactors(RowFactors(Times(Scalar(s), diag), rows), n));
    forall i | 0 <= i < n
      ensures l[i] == r[i]
    {
      ChainFactorAt(s, x, diag, rows, n, i, l, r);
    }
  }

  lemma ChainFactorAt(s: real, x: Num, diag: Num, rows: nat, n: nat, i: nat, l: seq<real>, r: seq<real>)
    requires Broadcastable(x, diag) && (rows == n || rows == 1) && i < n
    requires x.Vec? ==> |x.vs| == n || |x.vs| == 1
    requires diag.Vec? ==> |diag.vs| == rows
    requires Times(Times(Scalar(s), x), diag).Vec? ==> |Times(Times(Scalar(s), x), diag).vs| == n
    requires l == RowFactors(Times(Times(Scalar(s), x), diag), n)
    requires r == RowProducts(RowFactors(x, n), BroadcastFactors(RowFactors(Times(Scalar(s), diag), rows), n))
    ensures l[i] == r[i]
  {
    var i0 := if rows == n then i else 0;
    FactorAt(s, x, diag, i);
    AtTimes(Scalar(s), diag, i0);
    assert At(diag, i) == At(diag, i0);
    assert r[i] == RowFactors(x, n)[i] * BroadcastFactors(RowFactors(Times(Scalar(s), diag), rows), n)[i];
  }

  lemma Reassoc(s: real, x: real, d: real)
    ensures s * x * d == x * (s * d)
  {
  }

  /** The default factors `s = 1`, `diag = 1` leave `M` as it is. */
  lemma UnitScaled(m: Matrix)
    ensures Scaled(Times(Scalar(1.0), Scalar(1.0)), m) == m
  {
    TimesOne(Scalar(1.0));
    ScaledByOne(m);
  }

  lemma ScaledByOne(base: Matrix)
    ensures Scaled(Scalar(1.0), base) == base
  {
    Ext(Scaled(Scalar(1.0), base), base);
  }

  /** A row index of `x[idx]` other than an integer array: one integer
      (negative counts from the end) or the rows a slice selects. */
  datatype RowIndex = Item(k: int) | Span(pos: seq<int>)

  predicate IndexOk(idx: RowIndex, n: nat) {
    match idx
    case Item(k) => -(n as int) <= k < n
    case Span(pos) => forall t :: 0 <= t < |pos| ==> 0 <= pos[t] < n
  }

  /** The rows `idx` selects from `n` rows, in order. */
  function Positions(idx: RowIndex, n: nat): (r: seq<int>)
    requires IndexOk(idx, n)
    ensures forall t :: 0 <= t < |r| ==> 0 <= r[t] < n
    ensures idx.Item? ==> |r| == 1 && (r[0] == idx.k || r[0] == idx.k + n)
    ensures idx.Span? ==> r == idx.pos
  {
    match idx
    case Item(k) => [if k < 0 then k + n else k]
    case Span(pos) => pos
  }

  /** The shape of `x[idx]`: 0-d for an integer index. */
  function IndexShape(idx: RowIndex): Option<nat> {
    match idx
    case Item(_) => None
    case Span(pos) => Some(|pos|)
  }

  /** `np.take(xs, idx)`. */
  function Take(xs: seq<real>, idx: seq<int>): (r: seq<real>)
    requires forall t :: 0 <= t < |idx| ==> 0 <= idx[t] < |xs|
    ensures |r| == |idx| && forall t :: 0 <= t < |idx| ==> r[t] == xs[idx[t]]
  {
    seq(|idx|, t requires 0 <= t < |idx| => xs[idx[t]])
  }

  /** `diag[idx]` when `diag` is a vector, `diag` itself when it is a number. */
  function SelectDiag(diag: Num, idx: RowIndex, n: nat): (d: Num)
    requires diag.Vec? ==> |diag.vs| == n
    requires IndexOk(idx, n)
    ensures diag.Scalar? ==> d == diag
    ensures FactorFits(d, IndexShape(idx)) || diag.Scalar?
    ensures d.Vec? ==> |d.vs| == |Positions(idx, n)| || |d.vs| == 1
    ensures forall t :: 0 <= t < |Positions(idx, n)| ==> At(d, t) == At(diag, Positions(idx, n)[t])
  {
    if diag.Scalar? then diag
    else if idx.Item? then Scalar(diag.vs[Positions(idx, n)[0]])
    else Vec(Take(diag.vs, idx.pos))
  }

  /** Selecting rows of `s . diag(d) . base` selects the factors with them. */
  lemma ScaleSelected(s: real, diag: Num, d: Num, base: Matrix, pos: seq<int>)
    requires diag.Vec? ==> |diag.vs| == base.rows
    requires forall t :: 0 <= t < |pos| ==> 0 <= pos[t] < base.rows
    requires d.Vec? ==> |d.vs| == |pos| || |d.vs| == 1
    requires forall t :: 0 <= t < |pos| ==> At(d, t) == At(diag, pos[t])
    ensures Scaled(Times(Scalar(s), d), SelectRows(base, pos)) == SelectRows(Scaled(Times(Scalar(s), diag), base), pos)
  {
    forall t | 0 <= t < |pos|
      ensures At(Times(Scalar(s), d), t) == At(Times(Scalar(s), diag), pos[t])
    {
      AtTimes(Scalar(s), d, t);
      AtTimes(Scalar(s), diag, pos[t]);
    }
    SelectScaled(Times(Scalar(s), diag), Times(Scalar(s), d), base, pos);
  }

  /** Selecting rows of a row-scaled matrix selects the factors with them. */
  lemma SelectScaled(p: Num, q: Num, base: Matrix, pos: seq<int>)
    requires p.Vec? ==> |p.vs| == base.rows || |p.vs| == 1
    requires forall t :: 0 <= t < |pos| ==> 0 <= pos[t] < base.rows
    requires q.Vec? ==> |q.vs| == |pos| || |q.vs| == 1
    requires forall t :: 0 <= t < |pos| ==> At(q, t) == At(p, pos[t])
    ensures Scaled(q, SelectRows(base, pos)) == SelectRows(Scaled(p, base), pos)
  {
    var l, r := Scaled(q, SelectRows(base, pos)), SelectRows(Scaled(p, base), pos);
    forall i, j | 0 <= i < l.rows && 0 <= j < l.cols
      ensures l.e[i][j] == r.e[i][j]
    {
      assert r.e[i][j] == Scaled(p, base).e[pos[i]][j];
    }
    Ext(l, r);
  }

  /** `u + v` of two `tovalue` results of one shape, as `SpAdd`: a sum is
      a new matrix, and a matrix plus 0 a copy of the matrix. */
  method AddEvaluated(u: Evaluated, v: Evaluated) returns (r: Result<Evaluated>)
    requires SameShape(EvalDense(u), EvalDense(v))
    ensures r.Err? <==> SpAdd(PlainOf(u), PlainOf(v)).Err?
    ensures r.Err? ==> r.error == SpAdd(PlainOf(u), PlainOf(v)).error
    ensures r.Ok? ==> PlainOf(r.value) == SpAdd(PlainOf(u), PlainOf(v)).value
    ensures r.Ok? && r.value.MatrixValue? ==> fresh(r.value.m)
  {
    var s := SpAdd(PlainOf(u), PlainOf(v));
    if s.Err? {
      return Err(s.error);
    }
    if s.value.Number? {
      r := Ok(ScalarValue(s.value.p));
    } else {
      var m := new Mat(s.value.m);
      r := Ok(MatrixValue(m));
    }
  }

  lemma Distrib(a: real, b: real, c: real)
    ensures (a + b) * c == a * c + b * c
  {
  }

  /** Row scaling distributes over a sum of factors. */
  lemma ScaledPlus(p: Num, q: Num, base: Matrix)
    requires Broadcastable(p, q)
    requires p.Vec? ==> |p.vs| == base.rows
    requires q.Vec? ==> |q.vs| == base.rows
    ensures Plus(p, q).Vec? ==> |Plus(p, q).vs| == base.rows || |Plus(p, q).vs| == 1
    ensures Scaled(Plus(p, q), base) == Add(Scaled(p, base), Scaled(q, base))
  {
    var l, r := Scaled(Plus(p, q), base), Add(Scaled(p, base), Scaled(q, base));
    forall i, j | 0 <= i < base.rows && 0 <= j < base.cols
      ensures l.e[i][j] == r.e[i][j]
    {
      AtPlus(p, q, i);
      Distrib(At(p, i), At(q, i), base.e[i][j]);
    }
    Ext(l, r);
  }

  /** A 0-d derivative: `p . I_1` and its column sums are `[[p]]`. */
  lemma OneByOne(p: real)
    ensures Scaled(Times(Scalar(p), Scalar(1.0)), Identity(1)) == Mx(1, 1, [[p]])
    ensures ColSums(Mx(1, 1, [[p]])) == Mx(1, 1, [[p]])
    ensures Pattern(Mx(1, 1, [[p]])) == Mx(1, 1, [[if p != 0.0 then 1.0 else 0.0]])
  {
    assert Column(Mx(1, 1, [[p]]), 0) == [p];
    assert Sum([p]) == p + Sum([]);
    Ext(ColSums(Mx(1, 1, [[p]])), Mx(1, 1, [[p]]));
    Ext(Scaled(Times(Scalar(p), Scalar(1.0)), Identity(1)), Mx(1, 1, [[p]]));
    Ext(Pattern(Mx(1, 1, [[p]])), Mx(1, 1, [[if p != 0.0 then 1.0 else 0.0]]));
  }

  predicate AllOk(parts: seq<Sdcsr>) {
    forall k :: 0 <= k < |parts| ==> parts[k].Ok()
  }

  /** The matrices a sequence of instances stand for. */
  function Denses(parts: seq<Sdcsr>): (r: seq<Matrix>)
    requires AllOk(parts)
    ensures |r| == |parts| && forall k :: 0 <= k < |parts| ==> r[k] == parts[k].Dense()
  {
    seq(|parts|, k requires 0 <= k < |parts| => parts[k].Dense())
  }

  /** `[p.tovalue() for p in parts]`, as matrices. */
  method Values(parts: seq<Sdcsr>) returns (ms: seq<Matrix>)
    requires AllOk(parts) && forall k :: 0 <= k < |parts| ==> parts[k].Valid()
    modifies set k | 0 <= k < |parts| :: parts[k]
    ensures forall k :: 0 <= k < |parts| ==> parts[k].Valid()
    ensures ms == Denses(parts)
  {
    ms := [];
    var k := 0;
    while k < |parts|
      invariant 0 <= k <= |parts|
      invariant |ms| == k && forall q :: 0 <= q < k ==> ms[q] == parts[q].Dense()
      invariant forall q :: 0 <= q < |parts| ==> parts[q].Valid()
    {
      var v := parts[k].ToValue();
      ms := ms + [EvalDense(v)];
      k := k + 1;
    }
  }

  class Sdcsr {
    const sparsity: bool
    const mshape: MShape
    const s: real
    const diag: Num
    const M: Mat?
    /** The memo of `tovalue`. */
    var cache: Option<Evaluated>

    constructor (sparsity: bool, mshape: MShape, s: real, diag: Num, M: Mat?)
      requires Consistent(sparsity, mshape, s, diag, M)
      ensures this.sparsity == sparsity && this.mshape == mshape && this.s == s
      ensures this.diag == diag && this.M == M && cache == None
      ensures Valid()
    {
      this.sparsity := sparsity;
      this.mshape := mshape;
      this.s := s;
      this.diag := diag;
      this.M := M;
      cache := None;
    }

    predicate Ok() {
      Consistent(sparsity, mshape, s, diag, M)
    }

    /** A 0-d derivative of a 0-d value: `tovalue` gives a number. */
    predicate IsScalarForm() {
      M == null && mshape == MShape(None, None)
    }

    predicate Valid()
      reads this
    {
      Ok() &&
      (cache.Some? ==> EvalDense(cache.value) == Dense() && (cache.value.ScalarValue? <==> IsScalarForm()))
    }

    function Rows(): nat { Dim(mshape.rows) }

    function Cols(): nat { Dim(mshape.cols) }

    /** `s * diag`. */
    function Factor(): Num {
      Times(Scalar(s), diag)
    }

    function Base(): (r: Matrix)
      requires Ok()
      ensures r.rows == Rows() && r.cols == Cols()
    {
      BaseOf(mshape, M)
    }

    /** The matrix this instance stands for: `s . diag(d) . (M or I)`. */
    function Dense(): (r: Matrix)
      requires Ok()
      ensures r.rows == Rows() && r.cols == Cols()
    {
      Scaled(Factor(), Base())
    }

    /** In the sparsity variant the stored matrix is the pattern itself. */
    lemma SparsityDense()
      requires Ok() && sparsity
      ensures Dense() == Base() && IsPattern(Dense())
    {
      ScaledByOne(Base());
    }

    /** `_mshape(output)`: the output's row count and this matrix's columns. */
    function MShapeFor(out: Option<nat>): MShape {
      MShape(out, mshape.cols)
    }

    /** `broadcast(output)` is defined: same rows, or a single row whose factor is a scalar. */
    predicate BroadcastOk(out: Option<nat>)
      requires Ok()
    {
      out == mshape.rows || (Rows() == 1 && FactorFits(diag, out))
    }

    /** `chain(output, x)` is defined: the rows broadcast and the new factor `s*x*diag` fits them. */
    predicate ChainOk(out: Option<nat>, x: Num)
      requires Ok()
    {
      (out == mshape.rows || Rows() == 1) &&
      (!sparsity ==>
        Broadcastable(x, diag) && FactorFits(Times(Times(Scalar(s), x), diag), out) &&
        (x.Vec? ==> |x.vs| == Dim(out) || |x.vs| == 1))
    }

    /** The Jacobian of `output = f(x)` elementwise: `diag(x) . B . self`,
        `B` repeating the rows to the output's count; the sparsity variant
        keeps only `B . self`. */
    function ChainDense(out: Option<nat>, x: Num): (r: Matrix)
      requires Ok() && ChainOk(out, x)
      ensures r.rows == Dim(out) && r.cols == Cols()
    {
      var b := BroadcastRows(Dense(), Dim(out));
      if sparsity then b else ScaleRows(RowFactors(x, Dim(out)), b)
    }

    /** `_evaluate`: the stored product as a number (0-d case) or a matrix;
        with no scaling left to do, `M` itself. */
    method Evaluate() returns (v: Evaluated)
      requires Ok()
      ensures EvalDense(v) == Dense()
      ensures v.ScalarValue? <==> IsScalarForm()
      ensures M != null && Factor() == Scalar(1.0) ==> v == MatrixValue(M)
      ensures v.MatrixValue? && v.m != M ==> fresh(v.m)
    {
      var p := Factor();
      if M == null {
        if mshape == MShape(None, None) {
          v := ScalarValue(p.v);
          assert At(p, 0) * Identity(1).e[0][0] == p.v;
          Ext(EvalDense(v), Dense());
        } else {
          var n := Dim(mshape.rows);
          var q := if p.Scalar? then seq(n, _ => p.v) else p.vs;
          var c := Csr.Diagonal(q, n);
          var m := new Mat(Csr.ToDense(c));
          v := MatrixValue(m);
          Ext(EvalDense(v), Dense());
        }
      } else {
        if p.Vec? {
          var m := new Mat(ScaleRows(p.vs, M.val));
          v := MatrixValue(m);
          Ext(EvalDense(v), Dense());
        } else if p.v != 1.0 {
          var m := new Mat(Scale(p.v, M.val));
          v := MatrixValue(m);
          Ext(EvalDense(v), Dense());
        } else {
          v := MatrixValue(M);
          ScaledByOne(M.val);
        }
      }
    }

    /** `tovalue`: evaluates once and returns the memo on every later call. */
    method ToValue() returns (v: Evaluated)
      requires Valid()
      modifies this
      ensures Valid() && cache == Some(v)
      ensures old(cache).Some? ==> v == old(cache).value
      ensures EvalDense(v) == Dense()
      ensures v.ScalarValue? <==> IsScalarForm()
      ensures old(cache).None? && M != null && Factor() == Scalar(1.0) ==> v == MatrixValue(M)
    {
      if cache.None? {
        var e := Evaluate();
        cache := Some(e);
      }
      v := cache.value;
    }

    /** `_broadcast(n)`: `B . M` (or `B`), `B` the n x 1 column of ones. */
    method BroadcastBase(n: Option<nat>) returns (B: Mat)
      requires Ok() && Rows() == 1
      ensures fresh(B) && B.val == BroadcastRows(Base(), Dim(n))
      ensures sparsity ==> IsPattern(B.val)
    {
      var k := Dim(n);
      var ones := Ones(k, 1);
      if M == null {
        B := new Mat(ones);
        Ext(ones, BroadcastRows(Base(), k));
      } else {
        OnesColumnMatMul(k, M.val);
        B := new Mat(MatMul(ones, M.val));
      }
    }

    /** `broadcast(output)`: this instance itself when the rows already match,
        otherwise the same factors over `B . M`. */
    method Broadcast(out: Option<nat>) returns (r: Sdcsr)
      requires Valid() && BroadcastOk(out)
      ensures r.Valid() && r.sparsity == sparsity && r.mshape == MShapeFor(out)
      ensures r.Dense() == BroadcastRows(Dense(), Dim(out))
      ensures out == mshape.rows ==> r == this
      ensures out != mshape.rows ==> fresh(r) && r.M != null
      ensures !sparsity ==> r.s == s && r.diag == diag
    {
      if out == mshape.rows {
        r := this;
        return;
      }
      var B := BroadcastBase(out);
      r := Make(sparsity, MShapeFor(out), s, diag, B);
      if sparsity {
        SparsityDense();
        PatternOfPattern(B.val);
      } else {
        Ext(r.Dense(), BroadcastRows(Dense(), Dim(out)));
      }
    }

    /** `chain(output, x)`: the factor becomes `s*x*diag` and `M` is kept when
        the rows match, otherwise replaced by `B . M`; the sparsity variant
        is `broadcast(output)`. */
    method Chain(out: Option<nat>, x: Num) returns (r: Sdcsr)
      requires Valid() && ChainOk(out, x)
      ensures r.Valid() && r.sparsity == sparsity && r.mshape == MShapeFor(out)
      ensures r.Dense() == ChainDense(out, x)
      ensures out == mshape.rows ==> r.M == M
      ensures out != mshape.rows ==> r.M != null
      ensures r.M == null ==> M == null
      ensures !sparsity ==> r.Factor() == Times(Times(Scalar(s), x), diag)
      ensures sparsity && out == mshape.rows ==> r == this
      ensures r == this || fresh(r)
    {
      if sparsity {
        r := Broadcast(out);
        return;
      }
      var d := Times(Times(Scalar(s), x), diag);
      var n := Dim(out);
      var m: Mat?;
      if out != mshape.rows {
        m := BroadcastBase(out);
      } else {
        m := M;
      }
      r := New(false, MShapeFor(out), d, m);
      ChainAgrees(out, x, BaseOf(MShapeFor(out), m));
    }

    /** `getitem_general(output, idx)`: the Jacobian of `x[idx]` for an
        integer or a slice; `M` (or the evaluated diagonal) loses the rows
        not selected and a vector `diag` is indexed alike. */
    method GetItemGeneral(idx: RowIndex) returns (r: Sdcsr)
      requires Valid() && mshape.rows.Some? && IndexOk(idx, Rows())
      modifies this
      ensures Valid() && fresh(r) && r.Valid()
      ensures r.sparsity == sparsity && r.mshape == MShape(IndexShape(idx), mshape.cols)
      ensures r.Dense() == SelectRows(Dense(), Positions(idx, Rows()))
      ensures M != null && !sparsity ==> r.s == s
    {
      var ms := MShape(IndexShape(idx), mshape.cols);
      var pos := Positions(idx, Rows());
      if M == null {
        var v := ToValue();
        var sel := new Mat(SelectRows(EvalDense(v), pos));
        r := Make(sparsity, ms, 1.0, Scalar(1.0), sel);
        if sparsity {
          SparsityDense();
          SelectRowsPattern(Dense(), pos);
          PatternOfPattern(sel.val);
        } else {
          ScaledByOne(sel.val);
        }
      } else {
        var sel := new Mat(SelectRows(M.val, pos));
        var d := SelectDiag(diag, idx, Rows());
        r := Make(sparsity, ms, s, d, sel);
        if sparsity {
          SparsityDense();
          SelectRowsPattern(M.val, pos);
          PatternOfPattern(sel.val);
        } else {
          ScaleSelected(s, diag, d, M.val, pos);
        }
      }
    }

    /** `getitem_arrayp(output, idx)`: the Jacobian of `x[idx]` for an array
        of non-negative indices; row `i` is `s*diag[idx[i]]` times row
        `idx[i]` of `M`, or of the identity when `M` is `None`. */
    method GetItemArrayP(idx: seq<int>) returns (r: Sdcsr)
      requires Valid() && mshape.rows.Some?
      requires forall t :: 0 <= t < |idx| ==> 0 <= idx[t] < Rows()
      ensures fresh(r) && r.Valid()
      ensures r.sparsity == sparsity && r.mshape == MShape(Some(|idx|), mshape.cols)
      ensures r.Dense() == SelectRows(Dense(), idx)
    {
      var p := Times(Scalar(s), SelectDiag(diag, Span(idx), Rows()));
      var ms := MShape(Some(|idx|), mshape.cols);
      var P: Mat;
      if M == null {
        var c := Csr.UnitRows(idx, Cols());
        P := new Mat(Csr.ToDense(c));
      } else {
        P := new Mat(SelectRows(M.val, idx));
      }
      r := New(sparsity, ms, p, P);
      if sparsity {
        SparsityDense();
        SelectRowsPattern(Base(), idx);
        PatternOfPattern(P.val);
      } else {
        ScaleSelected(s, diag, SelectDiag(diag, Span(idx), Rows()), Base(), idx);
      }
    }

    /** `zero(output)`: the Jacobian of `0 * x`; the sparsity variant drops
        the `s = 0` of the 0-d case, so that case is the pattern `[[1]]`. */
    method Zero(out: Option<nat>) returns (r: Sdcsr)
      ensures fresh(r) && r.Valid() && r.sparsity == sparsity && r.mshape == MShapeFor(out)
      ensures r.M == null <==> MShapeFor(out) == MShape(None, None)
      ensures !sparsity || MShapeFor(out) != MShape(None, None) ==> r.Dense() == Zeros(Dim(out), Cols())
      ensures sparsity && MShapeFor(out) == MShape(None, None) ==> r.Dense() == Identity(1)
    {
      var ms := MShapeFor(out);
      if ms == MShape(None, None) {
        r := Make(sparsity, ms, 0.0, Scalar(1.0), null);
        if sparsity {
          PatternOfPattern(Identity(1));
        } else {
          Ext(r.Dense(), Zeros(1, 1));
        }
      } else {
        var z := new Mat(Zeros(Dim(out), Cols()));
        r := Make(sparsity, ms, 1.0, Scalar(1.0), z);
        if sparsity {
          PatternOfPattern(z.val);
        } else {
          UnitScaled(z.val);
        }
      }
    }

    /** `sum()`: the Jacobian of `y = sum(x)` is the row of column sums. */
    method ColumnSum() returns (r: Sdcsr)
      requires Valid()
      modifies this
      ensures Valid() && fresh(r) && r.Valid() && r.sparsity == sparsity
      ensures r.mshape == MShape(None, mshape.cols)
      ensures r.Dense() == if sparsity then Pattern(ColSums(Dense())) else ColSums(Dense())
    {
      var v := ToValue();
      var ms := MShape(None, mshape.cols);
      if v.MatrixValue? {
        var m := new Mat(ColSums(v.m.val));
        r := Make(sparsity, ms, 1.0, Scalar(1.0), m);
        if !sparsity {
          UnitScaled(m.val);
        }
      } else {
        r := Make(sparsity, ms, v.p, Scalar(1.0), null);
        OneByOne(v.p);
        if sparsity {
          SparsityDense();
          assert Mx(1, 1, [[v.p]]) == Identity(1);
          assert v.p == Identity(1).e[0][0];
          Ext(Identity(1), Mx(1, 1, [[1.0]]));
          PatternOfPattern(Identity(1));
        }
      }
    }

    /** `rdot(y, A)`: the Jacobian of `y = A . x` is `A` times this one; the
        sparsity variant multiplies by the pattern of `A`, so no entry cancels. */
    method RDot(A: Matrix) returns (r: Sdcsr)
      requires Valid() && A.cols == Rows()
      modifies this
      ensures Valid() && fresh(r) && r.Valid() && r.sparsity == sparsity
      ensures r.mshape == MShape(Some(A.rows), Some(Cols()))
      ensures r.Dense() == if sparsity then Pattern(MatMul(Pattern(A), Dense())) else MatMul(A, Dense())
    {
      var v := ToValue();
      var left := if sparsity then Pattern(A) else A;
      var d := new Mat(MatMul(left, EvalDense(v)));
      r := Make(sparsity, MShape(Some(A.rows), Some(Cols())), 1.0, Scalar(1.0), d);
      if !sparsity {
        UnitScaled(d.val);
      }
    }

    /** `vstack(output, parts)`: the parts' matrices stacked in order. */
    method VStack(out: Option<nat>, parts: seq<Sdcsr>) returns (r: Sdcsr)
      requires AllOk(parts) && forall k :: 0 <= k < |parts| ==> parts[k].Valid()
      requires forall k :: 0 <= k < |parts| ==> parts[k].sparsity == sparsity && parts[k].Cols() == Cols()
      requires TotalRows(Denses(parts)) == Dim(out)
      modifies set k | 0 <= k < |parts| :: parts[k]
      ensures forall k :: 0 <= k < |parts| ==> parts[k].Valid()
      ensures fresh(r) && r.Valid() && r.sparsity == sparsity && r.mshape == MShapeFor(out)
      ensures r.Dense() == Matrices.VStack(Denses(parts), Cols())
    {
      var ms := Values(parts);
      var m := new Mat(Matrices.VStack(ms, Cols()));
      r := FromMatrix(sparsity, MShapeFor(out), m);
      if sparsity {
        forall q | 0 <= q < |parts|
          ensures IsPattern(ms[q])
        {
          parts[q].SparsityDense();
        }
        VStackPattern(ms, Cols());
        PatternOfPattern(Matrices.VStack(ms, Cols()));
      }
    }

    /** What `tovalue` gives, as a value: the number of a 0-d derivative
        of a 0-d value, the matrix otherwise. */
    function AsPlain(): (r: Plain)
      requires Ok()
      ensures PlainDense(r) == Dense()
      ensures r.Number? <==> IsScalarForm()
    {
      if IsScalarForm() then
        var d := Dense();
        Ext(Mx(1, 1, [[d.e[0][0]]]), d);
        Number(d.e[0][0])
      else Sparse(Dense())
    }

    /** `self + other`: the shared-`M` fast path adds the factors; otherwise
        the two `tovalue` results are added, which scipy refuses when one is
        a nonzero number and the other a matrix. */
    method Add(other: Sdcsr) returns (r: Result<Sdcsr>)
      requires Valid() && other.Valid()
      requires other.sparsity == sparsity && other.mshape == mshape
      modifies this, other
      ensures Valid() && other.Valid()
      ensures r.Err? <==> other.M != M && Refused(AsPlain(), other.AsPlain())
      ensures r.Err? ==> r.error == NotImplementedError(NonzeroScalar)
      ensures r.Ok? ==> fresh(r.value) && r.value.Valid() && r.value.sparsity == sparsity && r.value.mshape == mshape
      ensures r.Ok? ==> r.value.Dense() == if sparsity then Pattern(Matrices.Add(Dense(), other.Dense())) else Matrices.Add(Dense(), other.Dense())
      ensures other.M == M ==> r.Ok? && r.value.M == M
      ensures other.M == M && !sparsity ==> r.Ok? && r.value.Factor() == Plus(Factor(), other.Factor())
    {
      if other.M == M {
        var n := AddShared(other);
        r := Result.Ok(n);
      } else {
        r := AddUnshared(other);
      }
    }

    /** The slow path of `self + other`: `tovalue() + other.tovalue()`. */
    method AddUnshared(other: Sdcsr) returns (r: Result<Sdcsr>)
      requires Valid() && other.Valid() && other.M != M
      requires other.sparsity == sparsity && other.mshape == mshape
      modifies this, other
      ensures Valid() && other.Valid()
      ensures r.Err? <==> Refused(AsPlain(), other.AsPlain())
      ensures r.Err? ==> r.error == NotImplementedError(NonzeroScalar)
      ensures r.Ok? ==> fresh(r.value) && r.value.Valid() && r.value.sparsity == sparsity && r.value.mshape == mshape
      ensures r.Ok? ==> r.value.Dense() == if sparsity then Pattern(Matrices.Add(Dense(), other.Dense())) else Matrices.Add(Dense(), other.Dense())
    {
      var u := ToValue();
      var w := other.ToValue();
      assert PlainOf(u) == AsPlain() && PlainOf(w) == other.AsPlain();
      var v := AddEvaluated(u, w);
      if v.Err? {
        r := Err(v.error);
      } else {
        SpAddSums(PlainOf(u), PlainOf(w));
        var n := FromMatrix(sparsity, mshape, v.value.m);
        r := Result.Ok(n);
      }
    }

    /** The fast path of `self + other` over the same `M`: the factors add. */
    method AddShared(other: Sdcsr) returns (r: Sdcsr)
      requires Ok() && other.Ok() && other.M == M
      requires other.sparsity == sparsity && other.mshape == mshape
      ensures fresh(r) && r.Valid() && r.sparsity == sparsity && r.mshape == mshape && r.M == M
      ensures r.Dense() == if sparsity then Pattern(Matrices.Add(Dense(), other.Dense())) else Matrices.Add(Dense(), other.Dense())
      ensures !sparsity ==> r.Factor() == Plus(Factor(), other.Factor())
    {
      r := New(sparsity, mshape, Plus(Factor(), other.Factor()), M);
      if sparsity {
        SparsityDense();
        other.SparsityDense();
        PatternOfAddSelf(Dense());
        PatternOfPattern(Base());
      } else {
        ScaledPlus(Factor(), other.Factor(), Base());
      }
    }

    /** The chain-rule product computed by `chain` is `diag(x) . B . self`. */
    lemma ChainAgrees(out: Option<nat>, x: Num, base: Matrix)
      requires Ok() && ChainOk(out, x) && !sparsity
      requires base == BroadcastRows(Base(), Dim(out))
      ensures Scaled(Times(Times(Scalar(s), x), diag), base) == ChainDense(out, x)
    {
      var n := Dim(out);
      var q := RowFactors(Factor(), Rows());
      var px := RowFactors(x, n);
      BroadcastOfScaled(q, Base(), n);
      ScaleRowsTwice(px, BroadcastFactors(q, n), base);
      ChainFactors(s, x, diag, Rows(), n);
    }
  }

  /** `self.__class__(mshape, s=s, diag=diag, M=M)`; the sparsity variant
      ignores `s` and `diag` and stores `M` as its pattern of ones. */
  method Make(sparsity: bool, mshape: MShape, s: real, diag: Num, M: Mat?) returns (r: Sdcsr)
    requires M != null ==> M.val.rows == Dim(mshape.rows) && M.val.cols == Dim(mshape.cols)
    requires M == null ==> mshape.rows == mshape.cols
    requires !sparsity ==> FactorFits(diag, mshape.rows)
    ensures fresh(r) && r.Valid() && r.cache == None
    ensures r.sparsity == sparsity && r.mshape == mshape
    ensures !sparsity ==> r.s == s && r.diag == diag && r.M == M
    ensures sparsity ==> r.s == 1.0 && r.diag == Scalar(1.0)
    ensures sparsity ==> (M == null <==> r.M == null) && (M != null && IsPattern(M.val) ==> r.M == M)
    ensures r.Dense() == if sparsity then Pattern(BaseOf(mshape, M)) else Scaled(Times(Scalar(s), diag), BaseOf(mshape, M))
  {
    if !sparsity {
      r := new Sdcsr(false, mshape, s, diag, M);
    } else {
      var P: Mat? := M;
      if M != null && !IsPattern(M.val) {
        PatternIsPattern(M.val);
        P := new Mat(Pattern(M.val));
      }
      r := new Sdcsr(true, mshape, 1.0, Scalar(1.0), P);
      r.SparsityDense();
      if M != null {
        if IsPattern(M.val) {
          PatternOfPattern(M.val);
        }
      } else {
        PatternOfPattern(Identity(Dim(mshape.rows)));
      }
    }
  }

  /** A new `sdcsr` that stands for the matrix `m` itself (`s = 1`, `diag = 1`). */
  method FromMatrix(sparsity: bool, mshape: MShape, m: Mat) returns (r: Sdcsr)
    requires m.val.rows == Dim(mshape.rows) && m.val.cols == Dim(mshape.cols)
    ensures fresh(r) && r.Valid() && r.sparsity == sparsity && r.mshape == mshape
    ensures r.Dense() == if sparsity then Pattern(m.val) else m.val
  {
    r := Make(sparsity, mshape, 1.0, Scalar(1.0), m);
    if !sparsity {
      UnitScaled(m.val);
    }
  }

  /** `new(mshape, diag, M)`: a vector factor goes to `diag`, a scalar one to `s`. */
  method New(sparsity: bool, mshape: MShape, p: Num, M: Mat?) returns (r: Sdcsr)
    requires M != null ==> M.val.rows == Dim(mshape.rows) && M.val.cols == Dim(mshape.cols)
    requires M == null ==> mshape.rows == mshape.cols
    requires !sparsity ==> FactorFits(p, mshape.rows)
    ensures fresh(r) && r.Valid() && r.cache == None
    ensures r.sparsity == sparsity && r.mshape == mshape
    ensures !sparsity ==> r.Factor() == p && r.M == M
    ensures !sparsity && p.Vec? ==> r.s == 1.0 && r.diag == p
    ensures !sparsity && p.Scalar? ==> r.s == p.v && r.diag == Scalar(1.0)
    ensures sparsity ==> (M == null <==> r.M == null) && (M != null && IsPattern(M.val) ==> r.M == M)
    ensures r.Dense() == if sparsity then Pattern(BaseOf(mshape, M)) else Scaled(p, BaseOf(mshape, M))
  {
    if p.Vec? {
      r := Make(sparsity, mshape, 1.0, p, M);
      TimesOne(p);
    } else {
      r := Make(sparsity, mshape, p.v, Scalar(1.0), M);
    }
  }
}

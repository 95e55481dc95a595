/** The earlier matrix layer: a factory decides how derivatives are built.
    The standard factory computes CSR Jacobians; the sparsity factory only
    tracks where entries may be nonzero, with identity and zero
    placeholders that short-circuit products. Derivatives are summed by an
    accumulator (`MatrixSum`, or `sosum` for sparsity). */
module LegacySparse {
  import opened Common
  import opened Matrices

  /** `sparse.standard` or `sparse.sparsity`. */
  datatype Factory = Standard | Sparsity

  /** A derivative of the earlier layer: a Python scalar, a scipy CSR
      matrix, or one of the sparsity factory's `socsr`, `soidentity` and
      `sozero`. */
  datatype Deriv =
    | DScalar(c: real)
    | DMatrix(m: Matrix)
    | SoCsr(p: Matrix)
    | SoIdentity(n: nat)
    | SoZero(rows: nat, cols: nat)

  /** `shape[0]` of a matrix-like derivative. */
  function Rows(d: Deriv): nat
    requires !d.DScalar?
  {
    match d
    case DMatrix(m) => m.rows
    case SoCsr(p) => p.rows
    case SoIdentity(n) => n
    case SoZero(r, _) => r
  }

  /** `shape[1]` of a matrix-like derivative. */
  function Cols(d: Deriv): nat
    requires !d.DScalar?
  {
    match d
    case DMatrix(m) => m.cols
    case SoCsr(p) => p.cols
    case SoIdentity(n) => n
    case SoZero(_, c) => c
  }

  /** `tocsr()`: the matrix a matrix-like derivative stands for. A `socsr`
      holds a one at every position its source matrix stores. */
  function ToCsr(d: Deriv): (r: Matrix)
    requires !d.DScalar?
    ensures r.rows == Rows(d) && r.cols == Cols(d)
    ensures d.SoCsr? ==> IsPattern(r)
    ensures d.SoCsr? ==> forall i, j :: 0 <= i < r.rows && 0 <= j < r.cols ==> (r.e[i][j] == 1.0 <==> d.p.e[i][j] != 0.0)
  {
    match d
    case DMatrix(m) => m
    case SoCsr(p) => PatternIsPattern(p); Pattern(p)
    case SoIdentity(n) => Identity(n)
    case SoZero(r, c) => Zeros(r, c)
  }

  // ----- the factory methods -----

  /** `identityMatrix(n)`: the n x n identity under either factory. */
  function IdentityMatrix(f: Factory, n: nat): (r: Deriv)
    ensures !r.DScalar? && ToCsr(r) == Identity(n)
  {
    match f
    case Standard => DMatrix(Identity(n))
    case Sparsity => SoIdentity(n)
  }

  /** `diagonalMatrix(n, xf)`: the standard factory fills a scalar to `n`
      diagonal entries or uses the vector; the sparsity factory ignores the
      values and gives the identity. */
  function DiagonalMatrix(f: Factory, n: nat, x: Num): (r: Deriv)
    requires x.Vec? ==> |x.vs| == n
    ensures !r.DScalar? && Rows(r) == n && Cols(r) == n
    ensures f.Standard? ==> forall i, j :: 0 <= i < n && 0 <= j < n ==>
      ToCsr(r).e[i][j] == if i == j then At(x, i) else 0.0
    ensures f.Sparsity? ==> r == SoIdentity(n)
  {
    match f
    case Standard => DMatrix(Diag(RowFactors(x, n)))
    case Sparsity => SoIdentity(n)
  }

  /** `zeroMatrix(shape)`: an all-zero matrix of that shape. */
  function ZeroMatrix(f: Factory, rows: nat, cols: nat): (r: Deriv)
    ensures !r.DScalar? && ToCsr(r) == Zeros(rows, cols)
  {
    match f
    case Standard => DMatrix(Zeros(rows, cols))
    case Sparsity => SoZero(rows, cols)
  }

  /** `broadcastMatrix01d(n)`: the n x 1 column of ones (a CSR matrix under
      both factories). */
  function Broadcast01d(n: nat): (r: Deriv)
    ensures r.DMatrix? && r.m == Ones(n, 1)
  {
    DMatrix(Ones(n, 1))
  }

  /** `StandardFactory.dot(a, b)`: `a.dot(b)`, a scaling when `b` is a
      scalar and scipy's `ValueError` when the inner dimensions differ. */
  function StdDot(a: Deriv, b: Deriv): (r: Result<Deriv>)
    requires !a.DScalar?
    ensures r.Err? <==> !b.DScalar? && Cols(a) != Rows(b)
    ensures r.Ok? ==> r.value.DMatrix? && r.value.m.rows == Rows(a)
    ensures r.Ok? && b.DScalar? ==> r.value.m == Scale(b.c, ToCsr(a))
    ensures r.Ok? && !b.DScalar? ==> r.value.m == MatMul(ToCsr(a), ToCsr(b))
  {
    if b.DScalar? then Ok(DMatrix(Scale(b.c, ToCsr(a))))
    else if Cols(a) != Rows(b) then Err(ValueError("dimension mismatch"))
    else Ok(DMatrix(MatMul(ToCsr(a), ToCsr(b))))
  }

  /** `SparsityFactory.dot(a, b)`: the dimension assertion, then a zero
      operand gives a zero, an identity operand gives the other operand, and
      otherwise the stored positions of the product of the two patterns. */
  function SpDot(a: Deriv, b: Deriv): (r: Result<Deriv>)
    requires !a.DScalar? && !b.DScalar?
    ensures r.Err? <==> Cols(a) != Rows(b)
    ensures r.Err? ==> r.error == AssertionError("incompatible matrix dimensions")
    ensures r.Ok? && (a.SoZero? || b.SoZero?) ==> r.value == SoZero(Rows(a), Cols(b))
    ensures r.Ok? && !a.SoZero? && !b.SoZero? && a.SoIdentity? ==> r.value == b
    ensures r.Ok? && !a.SoZero? && !b.SoZero? && !a.SoIdentity? && b.SoIdentity? ==> r.value == a
    ensures r.Ok? ==> !r.value.DScalar? && Rows(r.value) == Rows(a) && Cols(r.value) == Cols(b)
  {
    if Cols(a) != Rows(b) then Err(AssertionError("incompatible matrix dimensions"))
    else if a.SoZero? || b.SoZero? then Ok(SoZero(Rows(a), Cols(b)))
    else if a.SoIdentity? then Ok(b)
    else if b.SoIdentity? then Ok(a)
    else Ok(SoCsr(MatMul(Pattern(ToCsr(a)), ToCsr(b))))
  }

  /** `chain(a, b)`: the standard factory multiplies by a scalar `a` or
      takes the product; the sparsity factory returns the other operand
      when either one is a scalar. */
  function Chain(f: Factory, a: Deriv, b: Deriv): (r: Result<Deriv>)
    ensures f.Sparsity? && a.DScalar? ==> r == Ok(b)
    ensures f.Sparsity? && !a.DScalar? && b.DScalar? ==> r == Ok(a)
    ensures f.Standard? && a.DScalar? && b.DScalar? ==> r == Ok(DScalar(a.c * b.c))
    ensures f.Standard? && a.DScalar? && !b.DScalar? ==> r == Ok(DMatrix(Scale(a.c, ToCsr(b))))
  {
    match f
    case Standard =>
      if a.DScalar? then
        (if b.DScalar? then Ok(DScalar(a.c * b.c)) else Ok(DMatrix(Scale(a.c, ToCsr(b)))))
      else StdDot(a, b)
    case Sparsity =>
      if a.DScalar? then Ok(b)
      else if b.DScalar? then Ok(a)
      else SpDot(a, b)
  }

  /** What `eforward` needs of the local derivative `dff()`: a scalar for a
      scalar result, and a scalar or a vector of the result's length otherwise. */
  predicate DffFits(value: Num, dff: Num) {
    (value.Scalar? ==> dff.Scalar?) && (value.Vec? && dff.Vec? ==> |dff.vs| == |value.vs|)
  }

  /** `eforward(value, a, da, dff)`: forward an elementwise operation of the
      argument `a` with derivative `da`. A scalar argument of a vector
      result is first broadcast by the column of ones; the standard factory
      then chains with `diag(dff)` (or the scalar `dff`), the sparsity
      factory passes the derivative on. */
  function EForward(f: Factory, value: Num, a: Num, da: Deriv, dff: Num): (r: Result<Deriv>)
    requires DffFits(value, dff)
    ensures f.Sparsity? && !(a.Scalar? && value.Vec?) ==> r == Ok(da)
  {
    var broadcast := a.Scalar? && value.Vec?;
    match f
    case Standard =>
      if value.Scalar? then Chain(Standard, DScalar(dff.v), da)
      else
        var da1 := if broadcast then StdDot(Broadcast01d(|value.vs|), da) else Ok(da);
        if da1.Err? then da1
        else Chain(Standard, DiagonalMatrix(Standard, |value.vs|, dff), da1.value)
    case Sparsity =>
      if broadcast then Chain(Sparsity, Broadcast01d(|value.vs|), da) else Ok(da)
  }

  /** The standard factory's elementwise rule: for a vector argument the
      Jacobian rows are scaled by `dff`, `diag(dff) . da`. */
  lemma StdEForwardRule(value: Num, a: Num, j: Matrix, dff: Num)
    requires value.Vec? && a.Vec? && DffFits(value, dff) && j.rows == |value.vs|
    ensures EForward(Standard, value, a, DMatrix(j), dff) == Ok(DMatrix(ScaleRows(RowFactors(dff, |value.vs|), j)))
  {
    DiagMatMul(RowFactors(dff, |value.vs|), j);
  }

  /** A scalar argument of a vector result: its single Jacobian row is
      repeated for every element, then scaled by `dff`. */
  lemma StdEForwardBroadcast(value: Num, a: Num, j: Matrix, dff: Num)
    requires value.Vec? && a.Scalar? && DffFits(value, dff) && j.rows == 1
    ensures EForward(Standard, value, a, DMatrix(j), dff)
      == Ok(DMatrix(ScaleRows(RowFactors(dff, |value.vs|), BroadcastRows(j, |value.vs|))))
  {
    var n := |value.vs|;
    OnesColumnMatMul(n, j);
    DiagMatMul(RowFactors(dff, n), BroadcastRows(j, n));
  }

  /** A scalar result: the standard `eforward` chains with the number
      `dff()`, which scales `da`. */
  lemma StdEForwardScalar(value: Num, a: Num, da: Deriv, dff: Num)
    requires value.Scalar? && DffFits(value, dff)
    ensures da.DScalar? ==> EForward(Standard, value, a, da, dff) == Ok(DScalar(dff.v * da.c))
    ensures !da.DScalar? ==> EForward(Standard, value, a, da, dff) == Ok(DMatrix(Scale(dff.v, ToCsr(da))))
  {
    assert EForward(Standard, value, a, da, dff) == Chain(Standard, DScalar(dff.v), da);
    if da.DScalar? {
      var c := Chain(Standard, DScalar(dff.v), da);
      assert c.value == DScalar(dff.v * da.c);
    }
  }

  // ----- the sparsity factory tracks the standard one -----

  /** `sp` is a sparsity derivative whose pattern covers the standard
      derivative `d`; scalars correspond to scalars. */
  predicate Tracks(sp: Deriv, d: Deriv) {
    if d.DScalar? then sp.DScalar?
    else d.DMatrix? && !sp.DScalar? && IsPattern(ToCsr(sp)) && Covers(ToCsr(sp), d.m)
  }

  /** A product of covering patterns covers the product: with no negative
      entries nothing cancels. */
  lemma {:induction false} ProductCovers(sa: Matrix, sb: Matrix, a: Matrix, b: Matrix)
    requires a.cols == b.rows && Covers(sa, a) && Covers(sb, b)
    requires NonNegative(sa) && NonNegative(sb)
    ensures Covers(MatMul(sa, sb), MatMul(a, b)) && NonNegative(MatMul(sa, sb))
  {
    var num, pat := MatMul(a, b), MatMul(sa, sb);
    forall i, j | 0 <= i < num.rows && 0 <= j < num.cols
      ensures pat.e[i][j] >= 0.0 && (num.e[i][j] != 0.0 ==> pat.e[i][j] != 0.0)
    {
      var terms := DotTerms(sa, sb, i, j);
      assert forall k :: 0 <= k < |terms| ==> terms[k] >= 0.0 by {
        forall k | 0 <= k < |terms|
          ensures terms[k] >= 0.0
        {
          assert terms[k] == sa.e[i][k] * sb.e[k][j];
        }
      }
      SumNonNegative(terms);
      if num.e[i][j] != 0.0 {
        var k := SumNonZeroHasWitness(DotTerms(a, b, i, j));
        assert a.e[i][k] != 0.0 && b.e[k][j] != 0.0;
        assert sa.e[i][k] > 0.0 && sb.e[k][j] > 0.0;
        SumPositive(terms, k);
      }
    }
  }

  /** For pattern operands the short-circuits agree with the general
      product: the sparsity `dot` is the pattern of the product. */
  lemma SpDotIsPatternOfProduct(a: Deriv, b: Deriv)
    requires !a.DScalar? && !b.DScalar? && Cols(a) == Rows(b)
    requires IsPattern(ToCsr(a)) && IsPattern(ToCsr(b))
    ensures ToCsr(SpDot(a, b).value) == Pattern(MatMul(ToCsr(a), ToCsr(b)))
  {
    var pa, pb := ToCsr(a), ToCsr(b);
    if a.SoZero? {
      MatMulZeroLeft(Rows(a), pb);
      PatternOfPattern(Zeros(Rows(a), Cols(b)));
    } else if b.SoZero? {
      MatMulZeroRight(pa, Cols(b));
      PatternOfPattern(Zeros(Rows(a), Cols(b)));
    } else if a.SoIdentity? {
      IdentityMatMul(pb);
      PatternOfPattern(pb);
    } else if b.SoIdentity? {
      MatMulIdentity(pa);
      PatternOfPattern(pa);
    } else {
      PatternOfPattern(pa);
      PatternIsPattern(MatMul(pa, pb));
      PatternOfPattern(Pattern(MatMul(pa, pb)));
    }
  }

  /** The sparsity `dot` covers the standard `dot`. */
  lemma DotTracks(sa: Deriv, sb: Deriv, a: Deriv, b: Deriv)
    requires Tracks(sa, a) && Tracks(sb, b) && !a.DScalar? && !b.DScalar? && Cols(a) == Rows(b)
    ensures SpDot(sa, sb).Ok? && StdDot(a, b).Ok?
    ensures Tracks(SpDot(sa, sb).value, StdDot(a, b).value)
  {
    SpDotIsPatternOfProduct(sa, sb);
    ProductCovers(ToCsr(sa), ToCsr(sb), a.m, b.m);
    PatternCovers(MatMul(ToCsr(sa), ToCsr(sb)), MatMul(a.m, b.m));
    PatternIsPattern(MatMul(ToCsr(sa), ToCsr(sb)));
  }

  /** The sparsity `chain` covers the standard `chain`. */
  lemma ChainTracks(sa: Deriv, sb: Deriv, a: Deriv, b: Deriv)
    requires Tracks(sa, a) && Tracks(sb, b)
    requires !a.DScalar? && !b.DScalar? ==> Cols(a) == Rows(b)
    ensures Chain(Sparsity, sa, sb).Ok? && Chain(Standard, a, b).Ok?
    ensures Tracks(Chain(Sparsity, sa, sb).value, Chain(Standard, a, b).value)
  {
    if !a.DScalar? && !b.DScalar? {
      DotTracks(sa, sb, a, b);
    }
  }

  /** The sparsity factory's `eforward` covers the standard factory's,
      whatever the local derivative `dff`. */
  lemma EForwardTracks(value: Num, a: Num, sda: Deriv, da: Deriv, dff: Num)
    requires DffFits(value, dff) && Tracks(sda, da)
    requires a.Scalar? && value.Vec? && !da.DScalar? ==> Rows(da) == 1
    requires !(a.Scalar? && value.Vec?) && value.Vec? ==> !da.DScalar? && Rows(da) == |value.vs|
    ensures EForward(Sparsity, value, a, sda, dff).Ok? && EForward(Standard, value, a, da, dff).Ok?
    ensures Tracks(EForward(Sparsity, value, a, sda, dff).value, EForward(Standard, value, a, da, dff).value)
  {
    if value.Vec? {
      var n := |value.vs|;
      var b := Broadcast01d(n);
      var da1 := if a.Scalar? then StdDot(b, da).value else da;
      var sda1 := if a.Scalar? then Chain(Sparsity, b, sda).value else sda;
      assert Tracks(sda1, da1) by {
        if a.Scalar? {
          PatternOfPattern(Ones(n, 1));
          if !da.DScalar? {
            DotTracks(b, sda, b, da);
          }
        }
      }
      var df := DiagonalMatrix(Standard, n, dff);
      assert EForward(Standard, value, a, da, dff) == StdDot(df, da1);
      DiagMatMul(RowFactors(dff, n), da1.m);
      ScaleRowsCovered(RowFactors(dff, n), ToCsr(sda1), da1.m);
    }
  }

  // ----- the accumulators -----

  /** `s += u`: scalars and equally shaped matrices add; scipy adds a zero
      scalar to a matrix by copying the matrix, refuses a nonzero one, and
      refuses matrices of different shapes. */
  function AddDeriv(w: Deriv, u: Deriv): (r: Result<Deriv>)
    ensures w.DScalar? && u.DScalar? ==> r == Ok(DScalar(w.c + u.c))
    ensures !w.DScalar? && !u.DScalar? && SameShape(ToCsr(w), ToCsr(u)) ==> r == Ok(DMatrix(Add(ToCsr(w), ToCsr(u))))
    ensures w == DScalar(0.0) && !u.DScalar? ==> r == Ok(DMatrix(ToCsr(u)))
    ensures u == DScalar(0.0) && !w.DScalar? ==> r == Ok(DMatrix(ToCsr(w)))
    ensures r.Err? <==>
      (w.DScalar? && !u.DScalar? && w.c != 0.0) ||
      (u.DScalar? && !w.DScalar? && u.c != 0.0) ||
      (!w.DScalar? && !u.DScalar? && !SameShape(ToCsr(w), ToCsr(u)))
    ensures r.Err? && (w.DScalar? || u.DScalar?) ==> r.error == NotImplementedError(NonzeroScalar)
  {
    if w.DScalar? && u.DScalar? then Ok(DScalar(w.c + u.c))
    else if w.DScalar? then (if w.c == 0.0 then Ok(DMatrix(ToCsr(u))) else Err(NotImplementedError(NonzeroScalar)))
    else if u.DScalar? then (if u.c == 0.0 then Ok(DMatrix(ToCsr(w))) else Err(NotImplementedError(NonzeroScalar)))
    else if !SameShape(ToCsr(w), ToCsr(u)) then Err(ValueError("inconsistent shapes"))
    else Ok(DMatrix(Add(ToCsr(w), ToCsr(u))))
  }

  /** One call `accumulate(u)`: `MatrixSum` stores or adds `u`; `sosum`
      first converts `u` with `tocsr()`, which a scalar does not have. */
  function Step(f: Factory, s: Option<Deriv>, u: Deriv): (r: Result<Option<Deriv>>)
    ensures r.Ok? ==> r.value.Some?
    ensures f.Standard? && s.None? ==> r == Ok(Some(u))
    ensures f.Sparsity? && u.DScalar? ==> r.Err? && r.error.AttributeError?
    ensures f.Sparsity? && !u.DScalar? && s.None? ==> r == Ok(Some(DMatrix(ToCsr(u))))
    ensures f.Standard? && s.Some? && s.value.DScalar? && !u.DScalar? ==>
      (r.Err? <==> s.value.c != 0.0) && (r.Ok? ==> r == Ok(Some(DMatrix(ToCsr(u)))))
    ensures f.Standard? && s.Some? && !s.value.DScalar? && u.DScalar? ==>
      (r.Err? <==> u.c != 0.0) && (r.Ok? ==> r == Ok(Some(DMatrix(ToCsr(s.value)))))
    ensures f.Sparsity? && s.Some? && s.value.DScalar? && !u.DScalar? ==> (r.Err? <==> s.value.c != 0.0)
  {
    match f
    case Standard =>
      if s.None? then Ok(Some(u))
      else
        var w := AddDeriv(s.value, u);
        if w.Err? then Err(w.error) else Ok(Some(w.value))
    case Sparsity =>
      if u.DScalar? then Err(AttributeError("'float' object has no attribute 'tocsr'"))
      else if s.None? then Ok(Some(DMatrix(ToCsr(u))))
      else
        var w := AddDeriv(s.value, DMatrix(ToCsr(u)));
        if w.Err? then Err(w.error) else Ok(Some(w.value))
  }

  /** The accumulator's content after the calls `us`, in order; the first
      error ends the run. */
  function Total(f: Factory, us: seq<Deriv>): Result<Option<Deriv>> {
    if |us| == 0 then Ok(None)
    else
      var prev := Total(f, us[..|us| - 1]);
      if prev.Err? then prev else Step(f, prev.value, us[|us| - 1])
  }

  /** The `value()` of a sum `s`: `MatrixSum` gives the scalar sum or a
      CSR matrix (and `None` for no calls, which `isscalar` accepts); `sosum`
      gives the `socsr` of the sum, and fails on no calls. A `sosum` never
      holds a scalar, which `socsr` would reject. */
  function Finish(f: Factory, s: Option<Deriv>): (r: Result<Option<Deriv>>)
    ensures f.Standard? ==> r.Ok? && (r.value.None? <==> s.None?)
    ensures f.Standard? && s.Some? && s.value.DScalar? ==> r == Ok(s)
    ensures f.Standard? && s.Some? && !s.value.DScalar? ==> r == Ok(Some(DMatrix(ToCsr(s.value))))
    ensures f.Sparsity? ==> (r.Err? <==> s.None? || s.value.DScalar?)
    ensures f.Sparsity? && r.Ok? ==>
      r.value.Some? && r.value.value.SoCsr? && ToCsr(r.value.value) == Pattern(ToCsr(s.value))
  {
    match f
    case Standard =>
      if s.None? || s.value.DScalar? then Ok(s) else Ok(Some(DMatrix(ToCsr(s.value))))
    case Sparsity =>
      if s.None? then Err(AttributeError("'NoneType' object has no attribute 'shape'"))
      else if s.value.DScalar? then Err(AttributeError("'float' object has no attribute 'shape'"))
      else Ok(Some(SoCsr(ToCsr(s.value))))
  }

  /** `MatrixSum(factory)` or `sosum(factory)`: a running sum `s` of the
      derivatives it has been called with. */
  class Accumulator {
    const factory: Factory
    var s: Option<Deriv>
    ghost var calls: seq<Deriv>

    ghost predicate Valid()
      reads this
    {
      Total(factory, calls) == Ok(s)
    }

    constructor(factory: Factory)
      ensures Valid() && this.factory == factory && s.None? && calls == []
    {
      this.factory := factory;
      s := None;
      calls := [];
    }

    /** `__call__(u)`: store the first derivative, add later ones; an error
      leaves the sum as it was. */
    method Call(u: Deriv) returns (r: Result<()>)
      requires Valid()
      modifies this
      ensures Valid()
      ensures r.Err? <==> Step(factory, old(s), u).Err?
      ensures r.Err? ==> r.error == Step(factory, old(s), u).error && s == old(s) && calls == old(calls)
      ensures r.Ok? ==> s == Step(factory, old(s), u).value && calls == old(calls) + [u]
    {
      var next := Step(factory, s, u);
      if next.Err? {
        return Err(next.error);
      }
      s := next.value;
      calls := calls + [u];
      assert calls[..|calls| - 1] == old(calls);
      r := Ok(());
    }

    /** `value()`, which is `Finish` of the sum; the sum is empty exactly
      before the first call. */
    method Value() returns (r: Result<Option<Deriv>>)
      requires Valid()
      ensures r == Finish(factory, s)
      ensures factory.Standard? ==> (r.value.None? <==> calls == [])
      ensures factory.Sparsity? ==> (r.Err? <==> calls == [])
    {
      TotalSome(factory, calls);
      match factory {
        case Standard =>
          if s.None? || s.value.DScalar? {
            r := Ok(s);
          } else {
            r := Ok(Some(DMatrix(ToCsr(s.value))));
          }
        case Sparsity =>
          if s.None? {
            r := Err(AttributeError("'NoneType' object has no attribute 'shape'"));
          } else {
            TotalSparsityMatrix(calls);
            r := Ok(Some(SoCsr(ToCsr(s.value))));
          }
      }
    }
  }

  /** The sum is empty exactly before the first call. */
  lemma {:induction false} TotalSome(f: Factory, us: seq<Deriv>)
    requires Total(f, us).Ok?
    ensures Total(f, us).value.None? <==> us == []
  {
  }

  /** `sosum` holds a matrix once it holds anything. */
  lemma {:induction false} TotalSparsityMatrix(us: seq<Deriv>)
    requires Total(Sparsity, us).Ok? && Total(Sparsity, us).value.Some?
    ensures Total(Sparsity, us).value.value.DMatrix?
  {
    var prev := Total(Sparsity, us[..|us| - 1]);
    if prev.value.Some? {
      TotalSparsityMatrix(us[..|us| - 1]);
    }
  }

  /** `MatrixSum` over standard matrices of one shape is their sum. */
  lemma {:induction false} StandardTotalIsSum(ms: seq<Matrix>, us: seq<Deriv>, n: nat, m: nat)
    requires |us| == |ms| > 0 && AllShape(ms, n, m)
    requires forall k :: 0 <= k < |us| ==> us[k] == DMatrix(ms[k])
    ensures Total(Standard, us) == Ok(Some(DMatrix(SumAll(ms, n, m))))
  {
    var k := |us| - 1;
    SumAllPrefix(ms, k, n, m);
    assert ms[..k + 1] == ms;
    if k > 0 {
      StandardTotalIsSum(ms[..k], us[..k], n, m);
    }
  }

  /** `sosum`, fed derivatives that track `MatrixSum`'s, holds a pattern
      covering `MatrixSum`'s sum: no cancellation can remove an entry. */
  lemma {:induction false} TotalTracks(sus: seq<Deriv>, us: seq<Deriv>)
    requires |sus| == |us| && forall k :: 0 <= k < |us| ==> Tracks(sus[k], us[k]) && !us[k].DScalar?
    requires Total(Standard, us).Ok? && Total(Standard, us).value.Some?
    ensures Total(Sparsity, sus).Ok? && Total(Sparsity, sus).value.Some?
    ensures var sp, d := Total(Sparsity, sus).value.value, Total(Standard, us).value.value;
      sp.DMatrix? && d.DMatrix? && Covers(sp.m, d.m) && NonNegative(sp.m)
  {
    var k := |us| - 1;
    var prev, sprev := Total(Standard, us[..k]), Total(Sparsity, sus[..k]);
    if prev.value.None? {
      TotalSome(Standard, us[..k]);
      assert sus[..k] == [];
    } else {
      TotalTracks(sus[..k], us[..k]);
      var w, sw := prev.value.value, sprev.value.value;
      AddCovers(sw.m, ToCsr(sus[k]), w.m, us[k].m);
    }
  }
}

/** `forward_value`: a value paired with its Jacobian with respect to the
    seeded variable, and the chain-rule operators over such pairs. */
module Forward {
  import opened Common
  import opened Matrices
  import opened ScaledMatrix
  import opened FusedChain
  import opened Indexing

  /** A value and its Jacobian (`value`, `deriv`). */
  datatype ForwardValue = ForwardValue(value: Num, deriv: Sdcsr) {
    /** The invariant `__new__` asserts: a 0-d value has a 0-d row count,
        a vector one row per element. */
    predicate Valid()
      reads deriv
    {
      deriv.Valid() && deriv.mshape.rows == ShapeOf(value)
    }

    predicate Sparsity() {
      deriv.sparsity
    }

    /** The Jacobian as a matrix. */
    function J(): Matrix
      requires deriv.Ok()
    {
      deriv.Dense()
    }
  }

  /** An argument of an operation: a `forward_value` or a constant. */
  datatype Arg = Var(fv: ForwardValue) | Const(c: Num)

  /** `nvalue(x)`: the numeric value of an argument. */
  function NValue(a: Arg): (r: Num)
    ensures a.Var? ==> r == a.fv.value
    ensures a.Const? ==> r == a.c
  {
    match a
    case Var(fv) => fv.value
    case Const(c) => c
  }

  /** `forward_value(value=..., deriv=...)`: the shape assertions of `__new__`. */
  function NewValue(value: Num, deriv: Sdcsr): (r: Result<ForwardValue>)
    ensures r.Ok? <==> deriv.mshape.rows == ShapeOf(value)
    ensures r.Ok? ==> r.value.value == value && r.value.deriv == deriv
    ensures r.Err? ==> r.error.AssertionError?
  {
    if deriv.mshape.rows == ShapeOf(value) then Ok(ForwardValue(value, deriv))
    else Err(AssertionError(""))
  }

  // ----- the chain rule on matrices -----

  /** `diag(x) . B . J`: the Jacobian of an elementwise function with local
      derivative `x` of something with Jacobian `J`, `B` repeating a single
      row to `n` rows; the sparsity variant keeps `B . J` only. */
  function ChainRule(sparsity: bool, jac: Matrix, x: Num, n: nat): (r: Matrix)
    requires CanBroadcastRows(jac, n)
    requires !sparsity ==> x.Vec? ==> |x.vs| == n || |x.vs| == 1
    ensures r.rows == n && r.cols == jac.cols
  {
    if sparsity then BroadcastRows(jac, n) else ScaleRows(RowFactors(x, n), BroadcastRows(jac, n))
  }

  /** The sum of two chained terms; the sparsity variant keeps its pattern. */
  function Combine(sparsity: bool, a: Matrix, b: Matrix): (r: Matrix)
    requires SameShape(a, b)
    ensures SameShape(r, a)
  {
    if sparsity then Pattern(Add(a, b)) else Add(a, b)
  }

  /** A unit local derivative only repeats rows: the sum rule. */
  lemma ChainRuleByOne(jac: Matrix, n: nat)
    requires CanBroadcastRows(jac, n)
    ensures ChainRule(false, jac, Scalar(1.0), n) == BroadcastRows(jac, n)
  {
    ScaleRowsOnes(BroadcastRows(jac, n));
    assert RowFactors(Scalar(1.0), n) == seq(n, _ => 1.0);
  }

  /** The sparsity variant over-approximates the Jacobian whatever the
      local derivative: a pattern covering `J` covers `diag(x) . B . J`. */
  lemma ChainRuleCovers(sp: Matrix, jac: Matrix, x: Num, n: nat)
    requires Covers(sp, jac) && CanBroadcastRows(jac, n)
    requires x.Vec? ==> |x.vs| == n || |x.vs| == 1
    ensures Covers(ChainRule(true, sp, x, n), ChainRule(false, jac, x, n))
  {
    BroadcastCovers(sp, jac, n);
    ScaleRowsCovered(RowFactors(x, n), BroadcastRows(sp, n), BroadcastRows(jac, n));
  }

  /** The sparsity variant of a two-term rule covers the numeric one. */
  lemma CombineCovers(sa: Matrix, sb: Matrix, a: Matrix, b: Matrix)
    requires Covers(sa, a) && Covers(sb, b) && SameShape(a, b)
    requires NonNegative(sa) && NonNegative(sb)
    ensures Covers(Combine(true, sa, sb), Combine(false, a, b))
  {
    AddCovers(sa, sb, a, b);
    PatternCovers(Add(sa, sb), Add(a, b));
  }

  /** The Jacobian of `a - a` vanishes. */
  lemma DifferenceOfSelf(jac: Matrix, n: nat)
    requires CanBroadcastRows(jac, n)
    ensures Combine(false, ChainRule(false, jac, Scalar(1.0), n), ChainRule(false, jac, Scalar(-1.0), n))
      == Zeros(n, jac.cols)
  {
    var l := Combine(false, ChainRule(false, jac, Scalar(1.0), n), ChainRule(false, jac, Scalar(-1.0), n));
    forall i, j | 0 <= i < n && 0 <= j < jac.cols
      ensures l.e[i][j] == 0.0
    {
      var b := BroadcastRows(jac, n).e[i][j];
      assert l.e[i][j] == 1.0 * b + -1.0 * b;
    }
    Ext(l, Zeros(n, jac.cols));
  }

  /** The product rule on a seed: the Jacobian of `x * x` is `diag(2 x)`. */
  lemma SquareOfSeed(xs: seq<real>)
    ensures Combine(false, ChainRule(false, Identity(|xs|), Vec(xs), |xs|), ChainRule(false, Identity(|xs|), Vec(xs), |xs|))
      == Diag(seq(|xs|, i requires 0 <= i < |xs| => 2.0 * xs[i]))
  {
    var n := |xs|;
    var c := ChainRule(false, Identity(n), Vec(xs), n);
    var l, r := Combine(false, c, c), Diag(seq(n, i requires 0 <= i < n => 2.0 * xs[i]));
    forall i, j | 0 <= i < n && 0 <= j < n
      ensures l.e[i][j] == r.e[i][j]
    {
      assert c.e[i][j] == At(Vec(xs), i) * Identity(n).e[i][j];
    }
    Ext(l, r);
  }

  // ----- fma over two terms -----

  /** The sum of two chained terms as `fma` computes it. */
  lemma TwoTerms(sparsity: bool, out: Option<nat>, terms: seq<Term>)
    requires TermsOk(sparsity, out, terms) && |terms| == 2
    ensures FmaDense(sparsity, out, terms)
      == Add(terms[0].d.ChainDense(out, terms[0].x), terms[1].d.ChainDense(out, terms[1].x))
  {
    var cs := Chains(sparsity, out, terms);
    SumAllPrefix(cs, 0, Dim(out), Cols(terms));
    SumAllPrefix(cs, 1, Dim(out), Cols(terms));
    assert cs[..2] == cs;
  }

  /** `fma2` refuses two terms whose `M`s differ when one chains to a
      nonzero number and the other to a matrix: scipy does not add a nonzero
      scalar to a sparse matrix. */
  predicate Refuses2(out: Option<nat>, x1: Num, d1: Sdcsr, x2: Num, d2: Sdcsr)
    requires d1.Ok() && d1.ChainOk(out, x1) && d2.Ok() && d2.ChainOk(out, x2)
  {
    d1.M != d2.M && Refused(PieceOf(out, Term(x1, d1)), PieceOf(out, Term(x2, d2)))
  }

  /** The Jacobian `fma2` computes from two terms: the sum of their chain
      rules, kept as a pattern in the sparsity variant. */
  function Fma2Dense(out: Option<nat>, x1: Num, d1: Sdcsr, x2: Num, d2: Sdcsr): Matrix
    requires d1.Ok() && d1.ChainOk(out, x1) && d2.Ok() && d2.ChainOk(out, x2)
    requires d1.sparsity == d2.sparsity && d1.mshape.cols == d2.mshape.cols
  {
    var sp := d1.sparsity;
    Combine(sp, ChainRule(sp, d1.Dense(), x1, Dim(out)), ChainRule(sp, d2.Dense(), x2, Dim(out)))
  }

  /** `fma2(output, (x1, d1), (x2, d2))`. */
  method Fma2(sparsity: bool, out: Option<nat>, x1: Num, d1: Sdcsr, x2: Num, d2: Sdcsr) returns (r: Result<Sdcsr>)
    requires d1.Valid() && d2.Valid() && d1.sparsity == sparsity && d2.sparsity == sparsity
    requires d1.mshape.cols == d2.mshape.cols
    requires d1.ChainOk(out, x1) && d2.ChainOk(out, x2)
    modifies d1, d2
    ensures d1.Valid() && d2.Valid()
    ensures r.Err? <==> Refuses2(out, x1, d1, x2, d2)
    ensures r.Err? ==> r.error == NotImplementedError(NonzeroScalar)
    ensures r.Ok? ==> fresh(r.value) && r.value.Valid() && r.value.sparsity == sparsity
    ensures r.Ok? ==> r.value.mshape == MShape(out, d1.mshape.cols)
    ensures r.Ok? ==> r.value.Dense() == Fma2Dense(out, x1, d1, x2, d2)
  {
    var terms := [Term(x1, d1), Term(x2, d2)];
    Fma2Terms(sparsity, out, x1, d1, x2, d2);
    r := Fma(sparsity, out, terms);
  }

  /** The two terms of `fma2` are valid `fma` terms, refused exactly when
      `Refuses2` holds, and summing to `Fma2Dense`. */
  lemma Fma2Terms(sparsity: bool, out: Option<nat>, x1: Num, d1: Sdcsr, x2: Num, d2: Sdcsr)
    requires d1.Ok() && d2.Ok() && d1.sparsity == sparsity && d2.sparsity == sparsity
    requires d1.mshape.cols == d2.mshape.cols
    requires d1.ChainOk(out, x1) && d2.ChainOk(out, x2)
    ensures TermsOk(sparsity, out, [Term(x1, d1), Term(x2, d2)])
    ensures FmaRefuses(sparsity, out, [Term(x1, d1), Term(x2, d2)]) <==> Refuses2(out, x1, d1, x2, d2)
    ensures var f := FmaDense(sparsity, out, [Term(x1, d1), Term(x2, d2)]);
      (if sparsity then Pattern(f) else f) == Fma2Dense(out, x1, d1, x2, d2)
  {
    var terms := [Term(x1, d1), Term(x2, d2)];
    assert TermsOk(sparsity, out, terms);
    TwoTermsRefusal(sparsity, out, terms[0], terms[1]);
    TwoTerms(sparsity, out, terms);
  }

  /** The number a term in the 0-d form chains to: its local derivative
      times its factor, or 1 in the sparsity variant. */
  lemma ScalarPiece(out: Option<nat>, t: Term)
    requires t.d.Ok() && t.d.ChainOk(out, t.x) && ChainScalar(out, t)
    ensures PieceOf(out, t).p == if t.d.sparsity then 1.0 else At(t.x, 0) * (t.d.s * At(t.d.diag, 0))
  {
    var d := t.d;
    AtTimes(Scalar(d.s), d.diag, 0);
    assert d.Dense().e[0][0] == d.s * At(d.diag, 0);
  }

  /** Only a 0-d output is ever refused: one Jacobian is the 0-d form
      without `M` and chains to a nonzero number, the other carries an `M`. */
  lemma RefusedOnlyZeroDim(out: Option<nat>, x1: Num, d1: Sdcsr, x2: Num, d2: Sdcsr)
    requires d1.Ok() && d1.ChainOk(out, x1) && d2.Ok() && d2.ChainOk(out, x2)
    ensures Refuses2(out, x1, d1, x2, d2) <==>
      (out == None &&
       ((d1.IsScalarForm() && d2.M != null && PieceOf(out, Term(x1, d1)).p != 0.0) ||
        (d2.IsScalarForm() && d1.M != null && PieceOf(out, Term(x2, d2)).p != 0.0)))
  {
  }

  /** `x = seed(2.); (x * np.ones(3)).sum() + x`: the sum's Jacobian is 0-d
      with a 1 x 1 `M`, the seed's is the 0-d identity without one, and
      `fma2` refuses the pair. */
  lemma SumPlusSeedRefused(dsum: Sdcsr, dseed: Sdcsr)
    requires dsum.Ok() && dsum.mshape.rows == None && dsum.M != null
    requires dseed.Ok() && dseed.IsScalarForm() && dseed.s == 1.0 && dseed.diag == Scalar(1.0)
    ensures dsum.ChainOk(None, Scalar(1.0)) && dseed.ChainOk(None, Scalar(1.0))
    ensures Refuses2(None, Scalar(1.0), dsum, Scalar(1.0), dseed)
  {
    ScalarPiece(None, Term(Scalar(1.0), dseed));
    RefusedOnlyZeroDim(None, Scalar(1.0), dsum, Scalar(1.0), dseed);
  }

  // ----- shapes -----

  /** Two values an operator can combine: valid, of one kind of Jacobian,
      differentiated with respect to the same variable, of shapes numpy
      broadcasts. */
  predicate Compatible(a: ForwardValue, b: ForwardValue)
    reads a.deriv, b.deriv
  {
    a.Valid() && b.Valid() && a.deriv.sparsity == b.deriv.sparsity &&
    a.deriv.mshape.cols == b.deriv.mshape.cols && Broadcastable(a.value, b.value)
  }

  /** Both Jacobians chain to the output `y` with the rule's local
      derivatives `xa` and `xb`. */
  predicate ChainBoth(a: ForwardValue, xa: Num, b: ForwardValue, xb: Num, y: Num)
    requires a.deriv.Ok() && b.deriv.Ok()
  {
    a.deriv.ChainOk(ShapeOf(y), xa) && b.deriv.ChainOk(ShapeOf(y), xb)
  }

  /** A Jacobian chains to an output of `a`'s shape, or of any shape when
      `a` is 0-d or one element with a scalar factor, with a local
      derivative that is 0-d or of the output's shape. */
  lemma ChainFits(a: ForwardValue, out: Option<nat>, x: Num)
    requires a.Valid()
    requires out == ShapeOf(a.value) || a.value.Scalar? || (|a.value.vs| == 1 && a.deriv.diag.Scalar?)
    requires x.Scalar? || ShapeOf(x) == out
    ensures a.deriv.ChainOk(out, x) && a.deriv.BroadcastOk(out)
  {
  }

  /** What the chain conditions leave out: one element whose factor is a
      length-1 vector, taken to more rows with a 0-d local derivative,
      would keep a factor shorter than its rows. */
  lemma LengthOneFactorMisfits(a: ForwardValue, n: nat, x: Num)
    requires a.Valid() && !a.deriv.sparsity && a.value.Vec? && |a.value.vs| == 1
    requires a.deriv.diag.Vec? && n > 1 && x.Scalar?
    ensures !a.deriv.ChainOk(Some(n), x) && !a.deriv.BroadcastOk(Some(n))
  {
    var d := a.deriv;
    assert |d.diag.vs| == 1;
    assert ShapeOf(Times(Times(Scalar(d.s), x), d.diag)) == Some(1);
  }

  // ----- arithmetic between two forward values -----

  /** `a + b`: `fma2(y, (1, da), (1, db))`. */
  method AddValues(a: ForwardValue, b: ForwardValue) returns (r: Result<ForwardValue>)
    requires Compatible(a, b) && ChainBoth(a, Scalar(1.0), b, Scalar(1.0), Plus(a.value, b.value))
    modifies a.deriv, b.deriv
    ensures a.Valid() && b.Valid()
    ensures r.Err? <==> Refuses2(ShapeOf(Plus(a.value, b.value)), Scalar(1.0), a.deriv, Scalar(1.0), b.deriv)
    ensures r.Err? ==> r.error == NotImplementedError(NonzeroScalar)
    ensures r.Ok? ==> r.value.Valid() && fresh(r.value.deriv)
    ensures r.Ok? ==> r.value.deriv.sparsity == a.deriv.sparsity && r.value.deriv.mshape.cols == a.deriv.mshape.cols
    ensures r.Ok? ==> r.value.value == Plus(a.value, b.value)
    ensures r.Ok? ==> r.value.J() == Fma2Dense(ShapeOf(r.value.value), Scalar(1.0), a.deriv, Scalar(1.0), b.deriv)
  {
    var y := Plus(a.value, b.value);
    var dy := Fma2(a.deriv.sparsity, ShapeOf(y), Scalar(1.0), a.deriv, Scalar(1.0), b.deriv);
    if dy.Err? {
      return Err(dy.error);
    }
    r := Ok(ForwardValue(y, dy.value));
  }

  /** `a - b`: `fma2(y, (1, da), (-1, db))`. */
  method SubValues(a: ForwardValue, b: ForwardValue) returns (r: Result<ForwardValue>)
    requires Compatible(a, b) && ChainBoth(a, Scalar(1.0), b, Scalar(-1.0), Minus(a.value, b.value))
    modifies a.deriv, b.deriv
    ensures a.Valid() && b.Valid()
    ensures r.Err? <==> Refuses2(ShapeOf(Minus(a.value, b.value)), Scalar(1.0), a.deriv, Scalar(-1.0), b.deriv)
    ensures r.Err? ==> r.error == NotImplementedError(NonzeroScalar)
    ensures r.Ok? ==> r.value.Valid() && fresh(r.value.deriv)
    ensures r.Ok? ==> r.value.deriv.sparsity == a.deriv.sparsity && r.value.deriv.mshape.cols == a.deriv.mshape.cols
    ensures r.Ok? ==> r.value.value == Minus(a.value, b.value)
    ensures r.Ok? ==> r.value.J() == Fma2Dense(ShapeOf(r.value.value), Scalar(1.0), a.deriv, Scalar(-1.0), b.deriv)
  {
    var y := Minus(a.value, b.value);
    var dy := Fma2(a.deriv.sparsity, ShapeOf(y), Scalar(1.0), a.deriv, Scalar(-1.0), b.deriv);
    if dy.Err? {
      return Err(dy.error);
    }
    r := Ok(ForwardValue(y, dy.value));
  }

  /** `a * b`, the product rule: `fma2(y, (b, da), (a, db))`. */
  method MulValues(a: ForwardValue, b: ForwardValue) returns (r: Result<ForwardValue>)
    requires Compatible(a, b) && ChainBoth(a, b.value, b, a.value, Times(a.value, b.value))
    modifies a.deriv, b.deriv
    ensures a.Valid() && b.Valid()
    ensures r.Err? <==> Refuses2(ShapeOf(Times(a.value, b.value)), b.value, a.deriv, a.value, b.deriv)
    ensures r.Err? ==> r.error == NotImplementedError(NonzeroScalar)
    ensures r.Ok? ==> r.value.Valid() && fresh(r.value.deriv)
    ensures r.Ok? ==> r.value.deriv.sparsity == a.deriv.sparsity && r.value.deriv.mshape.cols == a.deriv.mshape.cols
    ensures r.Ok? ==> r.value.value == Times(a.value, b.value)
    ensures r.Ok? ==> r.value.J() == Fma2Dense(ShapeOf(r.value.value), b.value, a.deriv, a.value, b.deriv)
  {
    var y := Times(a.value, b.value);
    var dy := Fma2(a.deriv.sparsity, ShapeOf(y), b.value, a.deriv, a.value, b.deriv);
    if dy.Err? {
      return Err(dy.error);
    }
    r := Ok(ForwardValue(y, dy.value));
  }

  /** The local derivatives of `y = x / z`: `1/z` for `x` and `-y/z` for `z`. */
  function QuotientTerms(x: Num, z: Num): (r: (Num, Num))
    requires Broadcastable(x, z) && NonZero(z)
    ensures ShapeOf(r.0) == ShapeOf(z)
    ensures ShapeOf(r.1) == ShapeOf(Quotient(x, z))
  {
    var y := Quotient(x, z);
    var t := Reciprocal(z);
    (t, Times(Negate(y), t))
  }

  /** `x / z`, the quotient rule: `fma2(y, (1/z, dx), (-y/z, dz))`. */
  method DivValues(x: ForwardValue, z: ForwardValue) returns (r: Result<ForwardValue>)
    requires Compatible(x, z) && NonZero(z.value)
    requires var (t, u) := QuotientTerms(x.value, z.value); ChainBoth(x, t, z, u, Quotient(x.value, z.value))
    modifies x.deriv, z.deriv
    ensures x.Valid() && z.Valid()
    ensures var (t, u) := QuotientTerms(x.value, z.value);
      r.Err? <==> Refuses2(ShapeOf(Quotient(x.value, z.value)), t, x.deriv, u, z.deriv)
    ensures r.Err? ==> r.error == NotImplementedError(NonzeroScalar)
    ensures r.Ok? ==> r.value.Valid() && fresh(r.value.deriv)
    ensures r.Ok? ==> r.value.deriv.sparsity == x.deriv.sparsity && r.value.deriv.mshape.cols == x.deriv.mshape.cols
    ensures r.Ok? ==> r.value.value == Quotient(x.value, z.value)
    ensures r.Ok? ==> var (t, u) := QuotientTerms(x.value, z.value);
      r.value.J() == Fma2Dense(ShapeOf(r.value.value), t, x.deriv, u, z.deriv)
  {
    var y := Quotient(x.value, z.value);
    var (t, u) := QuotientTerms(x.value, z.value);
    var dy := Fma2(x.deriv.sparsity, ShapeOf(y), t, x.deriv, u, z.deriv);
    if dy.Err? {
      return Err(dy.error);
    }
    r := Ok(ForwardValue(y, dy.value));
  }

  /** `x / z` reached through `z.__rdiv__(x)`: the same two terms in the
      other order, `fma2(y, (-y/z, dz), (1/z, dx))`. */
  method RDivValues(z: ForwardValue, x: ForwardValue) returns (r: Result<ForwardValue>)
    requires Compatible(z, x) && NonZero(z.value)
    requires var (t, u) := QuotientTerms(x.value, z.value); ChainBoth(z, u, x, t, Quotient(x.value, z.value))
    modifies x.deriv, z.deriv
    ensures x.Valid() && z.Valid()
    ensures var (t, u) := QuotientTerms(x.value, z.value);
      r.Err? <==> Refuses2(ShapeOf(Quotient(x.value, z.value)), u, z.deriv, t, x.deriv)
    ensures r.Err? ==> r.error == NotImplementedError(NonzeroScalar)
    ensures r.Ok? ==> r.value.Valid() && fresh(r.value.deriv)
    ensures r.Ok? ==> r.value.deriv.sparsity == z.deriv.sparsity && r.value.deriv.mshape.cols == z.deriv.mshape.cols
    ensures r.Ok? ==> r.value.value == Quotient(x.value, z.value)
    ensures r.Ok? ==> var (t, u) := QuotientTerms(x.value, z.value);
      r.value.J() == Fma2Dense(ShapeOf(r.value.value), u, z.deriv, t, x.deriv)
  {
    var y := Quotient(x.value, z.value);
    var (t, u) := QuotientTerms(x.value, z.value);
    var dy := Fma2(z.deriv.sparsity, ShapeOf(y), u, z.deriv, t, x.deriv);
    if dy.Err? {
      return Err(dy.error);
    }
    r := Ok(ForwardValue(y, dy.value));
  }

  // ----- arithmetic with a constant -----

  /** A value and a constant an operator can combine. */
  predicate CompatibleConst(a: ForwardValue, c: Num)
    reads a.deriv
  {
    a.Valid() && Broadcastable(a.value, c)
  }

  /** `a + c` (and `c + a`): the Jacobian is `broadcast(y)`. */
  method AddConst(a: ForwardValue, c: Num) returns (r: ForwardValue)
    requires CompatibleConst(a, c) && a.deriv.BroadcastOk(ShapeOf(Plus(a.value, c)))
    ensures r.Valid() && r.deriv.sparsity == a.deriv.sparsity && r.deriv.mshape.cols == a.deriv.mshape.cols
    ensures r.value == Plus(a.value, c)
    ensures r.J() == BroadcastRows(a.J(), Dim(ShapeOf(r.value)))
    ensures ShapeOf(r.value) == ShapeOf(a.value) ==> r.deriv == a.deriv
    ensures r.deriv == a.deriv || fresh(r.deriv)
  {
    var y := Plus(a.value, c);
    var dy := a.deriv.Broadcast(ShapeOf(y));
    r := ForwardValue(y, dy);
  }

  /** `a - c`: the Jacobian is `broadcast(y)`. */
  method SubConst(a: ForwardValue, c: Num) returns (r: ForwardValue)
    requires CompatibleConst(a, c) && a.deriv.BroadcastOk(ShapeOf(Minus(a.value, c)))
    ensures r.Valid() && r.deriv.sparsity == a.deriv.sparsity && r.deriv.mshape.cols == a.deriv.mshape.cols
    ensures r.value == Minus(a.value, c)
    ensures r.J() == BroadcastRows(a.J(), Dim(ShapeOf(r.value)))
    ensures ShapeOf(r.value) == ShapeOf(a.value) ==> r.deriv == a.deriv
    ensures r.deriv == a.deriv || fresh(r.deriv)
  {
    var y := Minus(a.value, c);
    var dy := a.deriv.Broadcast(ShapeOf(y));
    r := ForwardValue(y, dy);
  }

  /** `c - a`: the Jacobian is `chain(y, -1)`. */
  method RSubConst(a: ForwardValue, c: Num) returns (r: ForwardValue)
    requires CompatibleConst(a, c) && a.deriv.ChainOk(ShapeOf(Minus(c, a.value)), Scalar(-1.0))
    ensures r.Valid() && r.deriv.sparsity == a.deriv.sparsity && r.deriv.mshape.cols == a.deriv.mshape.cols
    ensures r.value == Minus(c, a.value)
    ensures r.J() == ChainRule(a.deriv.sparsity, a.J(), Scalar(-1.0), Dim(ShapeOf(r.value)))
  {
    var y := Minus(c, a.value);
    var dy := a.deriv.Chain(ShapeOf(y), Scalar(-1.0));
    r := ForwardValue(y, dy);
  }

  /** `a * c` (and `c * a`): the Jacobian is `chain(y, c)`. */
  method MulConst(a: ForwardValue, c: Num) returns (r: ForwardValue)
    requires CompatibleConst(a, c) && a.deriv.ChainOk(ShapeOf(Times(a.value, c)), c)
    ensures r.Valid() && r.deriv.sparsity == a.deriv.sparsity && r.deriv.mshape.cols == a.deriv.mshape.cols
    ensures r.value == Times(a.value, c)
    ensures r.J() == ChainRule(a.deriv.sparsity, a.J(), c, Dim(ShapeOf(r.value)))
    ensures r.deriv == a.deriv || fresh(r.deriv)
    ensures ShapeOf(r.value) == ShapeOf(a.value) ==> r.deriv.M == a.deriv.M
  {
    var y := Times(a.value, c);
    var dy := a.deriv.Chain(ShapeOf(y), c);
    r := ForwardValue(y, dy);
  }

  /** `a / c`: the Jacobian is `chain(y, 1/c)`. */
  method DivConst(a: ForwardValue, c: Num) returns (r: ForwardValue)
    requires CompatibleConst(a, c) && NonZero(c)
    requires a.deriv.ChainOk(ShapeOf(Quotient(a.value, c)), Reciprocal(c))
    ensures r.Valid() && r.deriv.sparsity == a.deriv.sparsity && r.deriv.mshape.cols == a.deriv.mshape.cols
    ensures r.value == Quotient(a.value, c)
    ensures r.J() == ChainRule(a.deriv.sparsity, a.J(), Reciprocal(c), Dim(ShapeOf(r.value)))
  {
    var y := Quotient(a.value, c);
    var t := Reciprocal(c);
    var dy := a.deriv.Chain(ShapeOf(y), t);
    r := ForwardValue(y, dy);
  }

  /** `c / a`: the Jacobian is `chain(y, -y/a)`. */
  method RDivConst(a: ForwardValue, c: Num) returns (r: ForwardValue)
    requires CompatibleConst(a, c) && NonZero(a.value)
    requires a.deriv.ChainOk(ShapeOf(Quotient(c, a.value)), QuotientTerms(c, a.value).1)
    ensures r.Valid() && r.deriv.sparsity == a.deriv.sparsity && r.deriv.mshape.cols == a.deriv.mshape.cols
    ensures r.value == Quotient(c, a.value)
    ensures r.J() == ChainRule(a.deriv.sparsity, a.J(), Times(Negate(r.value), Reciprocal(a.value)), Dim(ShapeOf(r.value)))
  {
    var y := Quotient(c, a.value);
    var u := QuotientTerms(c, a.value).1;
    var dy := a.deriv.Chain(ShapeOf(y), u);
    r := ForwardValue(y, dy);
  }

  /** `-a`: `chain(y, -1)`. */
  method Neg(a: ForwardValue) returns (r: ForwardValue)
    requires a.Valid()
    ensures r.Valid() && r.deriv.sparsity == a.deriv.sparsity && r.deriv.mshape == a.deriv.mshape
    ensures r.value == Negate(a.value)
    ensures r.J() == ChainRule(a.deriv.sparsity, a.J(), Scalar(-1.0), Dim(ShapeOf(a.value)))
  {
    var y := Negate(a.value);
    ChainFits(a, ShapeOf(y), Scalar(-1.0));
    var dy := a.deriv.Chain(ShapeOf(y), Scalar(-1.0));
    r := ForwardValue(y, dy);
  }

  /** `+a` is `a` itself. */
  function Pos(a: ForwardValue): (r: ForwardValue)
    ensures r == a
  {
    a
  }

  // ----- properties of the rules -----

  /** The constant rules are the two-value rules with a derivative-free
      second operand: adding a constant only repeats rows. */
  lemma SumRule(ja: Matrix, jb: Matrix, n: nat)
    requires CanBroadcastRows(ja, n) && CanBroadcastRows(jb, n) && ja.cols == jb.cols
    ensures Combine(false, ChainRule(false, ja, Scalar(1.0), n), ChainRule(false, jb, Scalar(1.0), n))
      == Add(BroadcastRows(ja, n), BroadcastRows(jb, n))
    ensures Combine(false, ChainRule(false, ja, Scalar(1.0), n), ChainRule(false, Zeros(jb.rows, jb.cols), Scalar(1.0), n))
      == BroadcastRows(ja, n)
  {
    ChainRuleByOne(ja, n);
    ChainRuleByOne(jb, n);
    ChainRuleByOne(Zeros(jb.rows, jb.cols), n);
    var l := Add(BroadcastRows(ja, n), BroadcastRows(Zeros(jb.rows, jb.cols), n));
    forall i, j | 0 <= i < n && 0 <= j < ja.cols
      ensures l.e[i][j] == BroadcastRows(ja, n).e[i][j]
    {
    }
    Ext(l, BroadcastRows(ja, n));
  }

  lemma Cancel(z: real, a: real, x: real, b: real, t: real, p: real, y: real, w: real)
    requires z != 0.0 && t == 1.0 / z && p == z * a + x * b && y == (x * z) * t && w == -y * t
    ensures t * p + w * b == a
  {
    assert z * t == 1.0;
    assert y == x;
  }

  /** One entry of a non-sparsity combination. */
  lemma CombineEntry(a: Matrix, b: Matrix, i: nat, j: nat)
    requires SameShape(a, b) && i < a.rows && j < a.cols
    ensures Combine(false, a, b).e[i][j] == a.e[i][j] + b.e[i][j]
  {
  }

  /** One entry of a non-sparsity chain over an `n`-row Jacobian. */
  lemma ChainRuleEntry(jac: Matrix, x: Num, n: nat, i: nat, j: nat)
    requires jac.rows == n && i < n && j < jac.cols
    requires x.Vec? ==> |x.vs| == n || |x.vs| == 1
    ensures ChainRule(false, jac, x, n).e[i][j] == At(x, i) * jac.e[i][j]
  {
  }

  /** A chain over a full-length vector scales each row by its element. */
  lemma ChainRuleOnVec(jac: Matrix, vs: seq<real>)
    requires jac.rows == |vs|
    ensures ChainRule(false, jac, Vec(vs), |vs|) == ScaleRows(vs, jac)
  {
    assert RowFactors(Vec(vs), |vs|) == vs;
  }

  /** The quotient rule undoes the product rule: differentiating
      `(x * z) / z` gives back the Jacobian of `x`. */
  lemma QuotientOfProduct(xs: seq<real>, zs: seq<real>, jx: Matrix, jz: Matrix)
    requires |xs| == |zs| && jx.rows == |xs| && jz.rows == |xs| && jx.cols == jz.cols
    requires NonZero(Vec(zs))
    ensures var n := |xs|;
      var jp := Combine(false, ChainRule(false, jx, Vec(zs), n), ChainRule(false, jz, Vec(xs), n));
      var y := Quotient(Times(Vec(xs), Vec(zs)), Vec(zs));
      Combine(false, ChainRule(false, jp, Reciprocal(Vec(zs)), n),
        ChainRule(false, jz, Times(Negate(y), Reciprocal(Vec(zs))), n)) == jx
  {
    var n := |xs|;
    var y := Quotient(Times(Vec(xs), Vec(zs)), Vec(zs));
    var t := Reciprocal(Vec(zs));
    var w := Times(Negate(y), t);
    QuotientFactors(xs, zs, y, t, w);
    ChainRuleOnVec(jx, zs);
    ChainRuleOnVec(jz, xs);
    var jp := Add(ScaleRows(zs, jx), ScaleRows(xs, jz));
    ChainRuleOnVec(jp, t.vs);
    ChainRuleOnVec(jz, w.vs);
    forall i | 0 <= i < n
      ensures zs[i] != 0.0 && t.vs[i] == 1.0 / zs[i] && y.vs[i] == (xs[i] * zs[i]) * t.vs[i]
      ensures w.vs[i] == -y.vs[i] * t.vs[i]
    {
      QuotientFactorsAt(xs, zs, y, t, w, i);
    }
    QuotientRule(xs, zs, y.vs, t.vs, w.vs, jx, jz);
  }

  /** The quotient rule's row factors undo the product rule's. */
  lemma QuotientRule(xs: seq<real>, zs: seq<real>, ys: seq<real>, ts: seq<real>, ws: seq<real>,
                     jx: Matrix, jz: Matrix)
    requires |xs| == |zs| == |ys| == |ts| == |ws| == jx.rows == jz.rows && jx.cols == jz.cols
    requires forall i :: 0 <= i < |xs| ==> zs[i] != 0.0 && ts[i] == 1.0 / zs[i] && ys[i] == (xs[i] * zs[i]) * ts[i]
    requires forall i :: 0 <= i < |xs| ==> ws[i] == -ys[i] * ts[i]
    ensures Add(ScaleRows(ts, Add(ScaleRows(zs, jx), ScaleRows(xs, jz))), ScaleRows(ws, jz)) == jx
  {
    var l := Add(ScaleRows(ts, Add(ScaleRows(zs, jx), ScaleRows(xs, jz))), ScaleRows(ws, jz));
    forall i, j | 0 <= i < |xs| && 0 <= j < jx.cols
      ensures l.e[i][j] == jx.e[i][j]
    {
      QuotientEntry(xs, zs, ys, ts, ws, jx, jz, i, j);
    }
    Ext(l, jx);
  }

  lemma QuotientEntry(xs: seq<real>, zs: seq<real>, ys: seq<real>, ts: seq<real>, ws: seq<real>,
                      jx: Matrix, jz: Matrix, i: nat, j: nat)
    requires |xs| == |zs| == |ts| == |ws| == jx.rows == jz.rows && jx.cols == jz.cols
    requires i < |xs| && j < jx.cols && i < |ys|
    requires zs[i] != 0.0 && ts[i] == 1.0 / zs[i] && ys[i] == (xs[i] * zs[i]) * ts[i]
    requires ws[i] == -ys[i] * ts[i]
    ensures Add(ScaleRows(ts, Add(ScaleRows(zs, jx), ScaleRows(xs, jz))), ScaleRows(ws, jz)).e[i][j]
      == jx.e[i][j]
  {
    var p := Add(ScaleRows(zs, jx), ScaleRows(xs, jz)).e[i][j];
    assert p == zs[i] * jx.e[i][j] + xs[i] * jz.e[i][j];
    Cancel(zs[i], jx.e[i][j], xs[i], jz.e[i][j], ts[i], p, ys[i], ws[i]);
  }

  /** The elementwise factors of the quotient rule applied to `(x * z) / z`. */
  lemma QuotientFactors(xs: seq<real>, zs: seq<real>, y: Num, t: Num, w: Num)
    requires |xs| == |zs| && NonZero(Vec(zs))
    requires y == Quotient(Times(Vec(xs), Vec(zs)), Vec(zs)) && t == Reciprocal(Vec(zs))
    requires w == Times(Negate(y), t)
    ensures y.Vec? && |y.vs| == |xs| && t.Vec? && |t.vs| == |xs| && w.Vec? && |w.vs| == |xs|
  {
  }

  lemma QuotientFactorsAt(xs: seq<real>, zs: seq<real>, y: Num, t: Num, w: Num, i: nat)
    requires |xs| == |zs| && NonZero(Vec(zs)) && i < |xs|
    requires y == Quotient(Times(Vec(xs), Vec(zs)), Vec(zs)) && t == Reciprocal(Vec(zs))
    requires w == Times(Negate(y), t)
    ensures y.Vec? && |y.vs| == |xs| && t.Vec? && |t.vs| == |xs| && w.Vec? && |w.vs| == |xs|
    ensures zs[i] != 0.0 && t.vs[i] == 1.0 / zs[i]
    ensures y.vs[i] == (xs[i] * zs[i]) * t.vs[i]
    ensures w.vs[i] == -y.vs[i] * t.vs[i]
  {
  }

  // ----- apply: elementwise functions of several arguments -----

  /** The Jacobians of the arguments that are forward values. */
  function ArgDerivs(args: seq<Arg>): set<Sdcsr> {
    set k | 0 <= k < |args| && args[k].Var? :: args[k].fv.deriv
  }

  /** Every forward-value argument can be chained, with its local
      derivative `ds[k]`, to an output of shape `out`. */
  predicate ArgsFit(self: ForwardValue, args: seq<Arg>, ds: seq<Num>, out: Option<nat>)
    reads self.deriv, ArgDerivs(args)
  {
    |ds| == |args| && self.Valid() &&
    forall k :: 0 <= k < |args| && args[k].Var? ==>
      args[k].fv.Valid() && args[k].fv.deriv.sparsity == self.deriv.sparsity &&
      args[k].fv.deriv.mshape.cols == self.deriv.mshape.cols &&
      args[k].fv.deriv.ChainOk(out, ds[k])
  }

  /** `((f(), a.deriv) for f, a in zip(df, args) if isinstance(a, forward_value))`. */
  function Terms(args: seq<Arg>, ds: seq<Num>): (r: seq<Term>)
    requires |ds| == |args|
    ensures |r| == 0 <==> forall k :: 0 <= k < |args| ==> args[k].Const?
    ensures forall t :: 0 <= t < |r| ==>
      exists k :: 0 <= k < |args| && args[k].Var? && r[t] == Term(ds[k], args[k].fv.deriv)
    decreases |args|
  {
    if |args| == 0 then []
    else
      var rest := Terms(args[..|args| - 1], ds[..|ds| - 1]);
      var last := args[|args| - 1];
      assert forall k :: 0 <= k < |args| - 1 ==> args[..|args| - 1][k] == args[k];
      if last.Var? then rest + [Term(ds[|ds| - 1], last.fv.deriv)] else rest
  }

  /** The terms of fitting arguments satisfy what `fma` needs. */
  lemma TermsFit(self: ForwardValue, args: seq<Arg>, ds: seq<Num>, out: Option<nat>)
    requires ArgsFit(self, args, ds, out) && exists k :: 0 <= k < |args| && args[k].Var?
    ensures TermsOk(self.deriv.sparsity, out, Terms(args, ds))
    ensures forall t :: 0 <= t < |Terms(args, ds)| ==> Terms(args, ds)[t].d.Valid()
    ensures (set t | 0 <= t < |Terms(args, ds)| :: Terms(args, ds)[t].d) <= ArgDerivs(args)
  {
    var terms := Terms(args, ds);
    forall t | 0 <= t < |terms|
      ensures terms[t].d.Valid() && terms[t].d.sparsity == self.deriv.sparsity
      ensures terms[t].d.mshape.cols == self.deriv.mshape.cols && terms[t].d.ChainOk(out, terms[t].x)
      ensures terms[t].d in ArgDerivs(args)
    {
      var k :| 0 <= k < |args| && args[k].Var? && terms[t] == Term(ds[k], args[k].fv.deriv);
    }
  }

  /** `apply(func, *args)`: `y` is `func.evaluate(*nargs)` and `ds[k]` the
      local derivative `func.deriv` gives for argument `k`. A lone argument
      that is this value goes through `chain`; otherwise the forward-value
      arguments go through `fma`, which fails on an empty list and refuses
      a nonzero number added to a matrix. */
  method Apply(self: ForwardValue, args: seq<Arg>, y: Num, ds: seq<Num>) returns (r: Result<ForwardValue>)
    requires ArgsFit(self, args, ds, ShapeOf(y))
    modifies ArgDerivs(args)
    ensures forall k :: 0 <= k < |args| && args[k].Var? ==> args[k].fv.Valid()
    ensures (exists k :: 0 <= k < |args| && args[k].Var?) ==> TermsOk(self.deriv.sparsity, ShapeOf(y), Terms(args, ds))
    ensures r.Err? <==>
      ((forall k :: 0 <= k < |args| ==> args[k].Const?) ||
       (!(|args| == 1 && args[0] == Var(self)) && FmaRefuses(self.deriv.sparsity, ShapeOf(y), Terms(args, ds))))
    ensures r.Err? && (forall k :: 0 <= k < |args| ==> args[k].Const?) ==> r.error.IndexError?
    ensures r.Err? && (exists k :: 0 <= k < |args| && args[k].Var?) ==> r.error == NotImplementedError(NonzeroScalar)
    ensures r.Ok? ==> r.value.value == y && r.value.Valid() && r.value.Sparsity() == self.Sparsity()
    ensures r.Ok? ==> r.value.deriv.mshape.cols == self.deriv.mshape.cols
    ensures r.Ok? ==> var f := FmaDense(self.deriv.sparsity, ShapeOf(y), Terms(args, ds));
      r.value.J() == if self.deriv.sparsity then Pattern(f) else f
  {
    if |args| == 1 && args[0] == Var(self) {
      var v := ApplyChain(self, args, y, ds);
      TermsFit(self, args, ds, ShapeOf(y));
      r := Ok(v);
    } else if forall k | 0 <= k < |args| :: args[k].Const? {
      r := Err(IndexError);
    } else {
      r := ApplyFma(self, args, y, ds);
    }
  }
  method ApplyChain(self: ForwardValue, args: seq<Arg>, y: Num, ds: seq<Num>) returns (r: ForwardValue)
    requires ArgsFit(self, args, ds, ShapeOf(y)) && |args| == 1 && args[0] == Var(self)
    ensures r.value == y && r.Valid() && r.Sparsity() == self.Sparsity()
    ensures r.deriv.mshape.cols == self.deriv.mshape.cols
    ensures var f := FmaDense(self.deriv.sparsity, ShapeOf(y), Terms(args, ds));
      r.J() == if self.deriv.sparsity then Pattern(f) else f
  {
    var dy := self.deriv.Chain(ShapeOf(y), ds[0]);
    r := ForwardValue(y, dy);
    ApplyPathsAgree(self, args, ds, ShapeOf(y));
  }

  method ApplyFma(self: ForwardValue, args: seq<Arg>, y: Num, ds: seq<Num>) returns (r: Result<ForwardValue>)
    requires ArgsFit(self, args, ds, ShapeOf(y)) && exists k :: 0 <= k < |args| && args[k].Var?
    modifies ArgDerivs(args)
    ensures forall k :: 0 <= k < |args| && args[k].Var? ==> args[k].fv.Valid()
    ensures TermsOk(self.deriv.sparsity, ShapeOf(y), Terms(args, ds))
    ensures r.Err? <==> FmaRefuses(self.deriv.sparsity, ShapeOf(y), Terms(args, ds))
    ensures r.Err? ==> r.error == NotImplementedError(NonzeroScalar)
    ensures r.Ok? ==> r.value.value == y && r.value.Valid() && r.value.Sparsity() == self.Sparsity()
    ensures r.Ok? ==> r.value.deriv.mshape.cols == self.deriv.mshape.cols
    ensures r.Ok? ==> var f := FmaDense(self.deriv.sparsity, ShapeOf(y), Terms(args, ds));
      r.value.J() == if self.deriv.sparsity then Pattern(f) else f
  {
    TermsFit(self, args, ds, ShapeOf(y));
    var terms := Terms(args, ds);
    var dy := Fma(self.deriv.sparsity, ShapeOf(y), terms);
    forall k | 0 <= k < |args| && args[k].Var?
      ensures args[k].fv.Valid()
    {
      var t := TermOf(args, ds, k);
    }
    if dy.Err? {
      return Err(dy.error);
    }
    r := Ok(ForwardValue(y, dy.value));
  }

  /** The `chain` shortcut of `apply` agrees with its general `fma` path. */
  lemma ApplyPathsAgree(self: ForwardValue, args: seq<Arg>, ds: seq<Num>, out: Option<nat>)
    requires ArgsFit(self, args, ds, out) && |args| == 1 && args[0] == Var(self)
    ensures TermsOk(self.deriv.sparsity, out, Terms(args, ds))
    ensures var f := FmaDense(self.deriv.sparsity, out, Terms(args, ds));
      self.deriv.ChainDense(out, ds[0]) == if self.deriv.sparsity then Pattern(f) else f
  {
    TermsFit(self, args, ds, out);
    OneVariable(self, args, ds, out, 0);
    if self.deriv.sparsity {
      self.deriv.SparsityDense();
      BroadcastPattern(self.deriv.Dense(), Dim(out));
      PatternOfPattern(self.deriv.ChainDense(out, ds[0]));
    }
  }

  lemma BroadcastPattern(a: Matrix, n: nat)
    requires CanBroadcastRows(a, n) && IsPattern(a)
    ensures IsPattern(BroadcastRows(a, n))
  {
  }

  /** Constant arguments contribute nothing: with one forward-value
      argument, `fma` over the terms is that argument's `chain`. */
  lemma OneVariable(self: ForwardValue, args: seq<Arg>, ds: seq<Num>, out: Option<nat>, k: nat)
    requires ArgsFit(self, args, ds, out) && k < |args| && args[k].Var?
    requires forall q :: 0 <= q < |args| && q != k ==> args[q].Const?
    ensures Terms(args, ds) == [Term(ds[k], args[k].fv.deriv)]
    ensures TermsOk(self.deriv.sparsity, out, Terms(args, ds))
    ensures FmaDense(self.deriv.sparsity, out, Terms(args, ds)) == args[k].fv.deriv.ChainDense(out, ds[k])
  {
    OnlyTerm(args, ds, k);
    TermsFit(self, args, ds, out);
    var t := Term(ds[k], args[k].fv.deriv);
    var c := t.d.ChainDense(out, t.x);
    assert Chains(self.deriv.sparsity, out, [t]) == [c];
    SumAllOne(c);
  }

  /** Every forward-value argument has its term. */
  lemma {:induction false} TermOf(args: seq<Arg>, ds: seq<Num>, k: nat) returns (t: nat)
    requires |ds| == |args| && k < |args| && args[k].Var?
    ensures t < |Terms(args, ds)| && Terms(args, ds)[t] == Term(ds[k], args[k].fv.deriv)
    decreases |args|
  {
    var n := |args| - 1;
    var rest := Terms(args[..n], ds[..n]);
    if k == n {
      t := |rest|;
    } else {
      t := TermOf(args[..n], ds[..n], k);
    }
  }

  lemma {:induction false} OnlyTerm(args: seq<Arg>, ds: seq<Num>, k: nat)
    requires |ds| == |args| && k < |args| && args[k].Var?
    requires forall q :: 0 <= q < |args| && q != k ==> args[q].Const?
    ensures Terms(args, ds) == [Term(ds[k], args[k].fv.deriv)]
    decreases |args|
  {
    var n := |args| - 1;
    var front, dfront := args[..n], ds[..n];
    if k == n {
      assert forall q :: 0 <= q < n ==> front[q].Const?;
      assert Terms(front, dfront) == [];
    } else {
      OnlyTerm(front, dfront, k);
    }
  }

  // ----- indexing -----

  /** `getitem_array(idx)`: a mask becomes its true positions, the value is
      `np.take(x, idx)` (an index outside `[-len(x), len(x))` is numpy's
      `IndexError`), and the Jacobian takes the matching rows once the
      negative indices are wrapped by the length of the value. */
  method GetItemArray(a: ForwardValue, idx: ArrayIndex) returns (r: Result<ForwardValue>)
    requires a.Valid() && a.value.Vec?
    ensures var ks := AsInts(idx); r.Err? <==> !InRange(ks, |a.value.vs|)
    ensures r.Err? ==> r.error.IndexError?
    ensures r.Ok? ==> r.value.Valid() && r.value.Sparsity() == a.Sparsity()
    ensures r.Ok? ==> r.value.deriv.mshape.cols == a.deriv.mshape.cols
    ensures r.Ok? ==> var ks, xs := AsInts(idx), a.value.vs;
      r.value.value == Vec(TakeAt(xs, ks)) &&
      r.value.J() == SelectRows(a.J(), WrapIndices(ks, |xs|))
    ensures r.Ok? ==> var ks, xs := AsInts(idx), a.value.vs;
      forall t :: 0 <= t < |ks| ==>
        r.value.value.vs[t] == xs[Normal(ks[t], |xs|)] &&
        r.value.J().e[t] == a.J().e[Normal(ks[t], |xs|)]
  {
    var xs := a.value.vs;
    var ks := AsInts(idx);
    if !InRange(ks, |xs|) {
      return Err(IndexError);
    }
    var y := Vec(TakeAt(xs, ks));
    var w := WrapIndices(ks, |xs|);
    var dy := a.deriv.GetItemArrayP(w);
    r := Ok(ForwardValue(y, dy));
  }

  /** `getitem_array(idx)` as written: the indices are wrapped by their own
      count `n = len(idx)`, and `getitem_arrayp` raises `IndexError` when a
      wrapped index is past the end of the value (through `np.take` on a
      vector `diag`, or on the row pointers of `M`). Where it succeeds
      without negative indices it agrees with `GetItemArray`. */
  method GetItemArrayAsWritten(a: ForwardValue, idx: ArrayIndex) returns (r: Result<ForwardValue>)
    requires a.Valid() && a.value.Vec?
    requires var ks := AsInts(idx);
      InRange(ks, |a.value.vs|) && a.deriv.M == null && a.deriv.diag.Scalar? ==> WrapsInside(ks, |a.value.vs|)
    ensures var ks, xs := AsInts(idx), a.value.vs;
      r.Err? <==> !InRange(ks, |xs|) || !WrapsInside(ks, |xs|)
    ensures r.Err? ==> r.error.IndexError?
    ensures r.Ok? ==> r.value.Valid() && r.value.Sparsity() == a.Sparsity()
    ensures r.Ok? ==> r.value.deriv.mshape.cols == a.deriv.mshape.cols
    ensures r.Ok? ==> var ks, xs := AsInts(idx), a.value.vs;
      r.value.value == Vec(TakeAt(xs, ks)) &&
      r.value.J() == SelectRows(a.J(), WrapAsWritten(ks))
    ensures r.Ok? && !HasNegative(AsInts(idx)) ==>
      r.value.J() == SelectRows(a.J(), WrapIndices(AsInts(idx), |a.value.vs|))
  {
    var xs := a.value.vs;
    var ks := AsInts(idx);
    if !InRange(ks, |xs|) {
      return Err(IndexError);
    }
    var w := WrapAsWritten(ks);
    if !WrapsInside(ks, |xs|) {
      return Err(IndexError);
    }
    var y := Vec(TakeAt(xs, ks));
    var dy := a.deriv.GetItemArrayP(w);
    r := Ok(ForwardValue(y, dy));
  }

  /** `getitem_scalar(k)`: one element, a 0-d result whose Jacobian is one
      row; indexing a 0-d value or an index out of range is `IndexError`. */
  method GetItemScalar(a: ForwardValue, k: int) returns (r: Result<ForwardValue>)
    requires a.Valid()
    modifies a.deriv
    ensures a.Valid()
    ensures r.Err? <==> a.value.Scalar? || !(-|a.value.vs| <= k < |a.value.vs|)
    ensures r.Err? ==> r.error.IndexError?
    ensures r.Ok? ==> r.value.Valid() && r.value.Sparsity() == a.Sparsity()
    ensures r.Ok? ==> r.value.deriv.mshape == MShape(None, a.deriv.mshape.cols)
    ensures r.Ok? ==> var p := Normal(k, |a.value.vs|);
      r.value.value == Scalar(a.value.vs[p]) && r.value.J() == SelectRows(a.J(), [p])
  {
    if a.value.Scalar? || !(-|a.value.vs| <= k < |a.value.vs|) {
      return Err(IndexError);
    }
    var xs := a.value.vs;
    var y := Scalar(xs[Normal(k, |xs|)]);
    var dy := a.deriv.GetItemGeneral(Item(k));
    r := Ok(ForwardValue(y, dy));
  }

  /** `getitem_slice(sl)`: the selected elements, and the Jacobian rows
      with them; a zero step is `ValueError`, a 0-d value `IndexError`. */
  method GetItemSlice(a: ForwardValue, sl: Slice) returns (r: Result<ForwardValue>)
    requires a.Valid()
    modifies a.deriv
    ensures a.Valid()
    ensures r.Err? <==> a.value.Scalar? || sl.step == Some(0)
    ensures r.Err? && a.value.Scalar? ==> r.error.IndexError?
    ensures r.Err? && a.value.Vec? ==> r.error.ValueError?
    ensures r.Ok? ==> r.value.Valid() && r.value.Sparsity() == a.Sparsity()
    ensures r.Ok? ==> r.value.deriv.mshape.cols == a.deriv.mshape.cols
    ensures r.Ok? ==> var pos := SlicePositions(sl, |a.value.vs|).value;
      r.value.value == Vec(Take(a.value.vs, pos)) && r.value.J() == SelectRows(a.J(), pos)
  {
    if a.value.Scalar? {
      return Err(IndexError);
    }
    var xs := a.value.vs;
    var ps := SlicePositions(sl, |xs|);
    if ps.Err? {
      return Err(ps.error);
    }
    var y := Vec(Take(xs, ps.value));
    var dy := a.deriv.GetItemGeneral(Span(ps.value));
    r := Ok(ForwardValue(y, dy));
  }

  /** What `x[idx]` is given: an integer, a slice, an array with a shape,
      or a 0-d array (treated as an integer). */
  datatype Index = IntIndex(k: int) | SliceIndex(sl: Slice) | ArrayIdx(arr: ArrayIndex) | ZeroDimIndex(k0: int)

  /** `__getitem__`: dispatch on the kind of index. */
  method GetItem(a: ForwardValue, idx: Index) returns (r: Result<ForwardValue>)
    requires a.Valid() && (idx.ArrayIdx? ==> a.value.Vec?)
    modifies a.deriv
    ensures a.Valid()
    ensures r.Ok? ==> r.value.Valid() && r.value.Sparsity() == a.Sparsity()
    ensures idx.IntIndex? || idx.ZeroDimIndex? ==>
      var k := if idx.IntIndex? then idx.k else idx.k0;
      (r.Err? <==> a.value.Scalar? || !(-|a.value.vs| <= k < |a.value.vs|)) &&
      (r.Ok? ==> r.value.value == Scalar(a.value.vs[Normal(k, |a.value.vs|)]) &&
                 r.value.J() == SelectRows(a.J(), [Normal(k, |a.value.vs|)]))
    ensures idx.SliceIndex? ==> (r.Err? <==> a.value.Scalar? || idx.sl.step == Some(0))
    ensures idx.ArrayIdx? ==> (r.Err? <==> !InRange(AsInts(idx.arr), |a.value.vs|))
    ensures idx.ArrayIdx? && r.Ok? ==>
      r.value.J() == SelectRows(a.J(), WrapIndices(AsInts(idx.arr), |a.value.vs|))
  {
    match idx
    case ArrayIdx(arr) => r := GetItemArray(a, arr);
    case ZeroDimIndex(k) => r := GetItemScalar(a, k);
    case SliceIndex(sl) => r := GetItemSlice(a, sl);
    case IntIndex(k) => r := GetItemScalar(a, k);
  }

  // ----- where and branch_join -----

  /** A condition of `where`: one boolean or one per element. */
  datatype Cond = CondScalar(b: bool) | CondVec(bs: seq<bool>)

  /** `np.where(cond, 1., 0.)` (`want` true) or `np.where(not cond, 1., 0.)`. */
  function Indicator(c: Cond, want: bool): (r: Num)
    ensures c.CondScalar? ==> r.Scalar?
    ensures c.CondVec? ==> r.Vec? && |r.vs| == |c.bs|
    ensures c.CondVec? ==> forall i :: 0 <= i < |c.bs| ==> r.vs[i] == if c.bs[i] == want then 1.0 else 0.0
    ensures c.CondScalar? ==> r.v == if c.b == want then 1.0 else 0.0
  {
    match c
    case CondScalar(b) => Scalar(if b == want then 1.0 else 0.0)
    case CondVec(bs) => Vec(seq(|bs|, i requires 0 <= i < |bs| => if bs[i] == want then 1.0 else 0.0))
  }

  /** Condition `i` after broadcasting. */
  function CondAt(c: Cond, i: nat): bool
    requires c.CondVec? ==> i < |c.bs|
  {
    match c
    case CondScalar(b) => b
    case CondVec(bs) => bs[i]
  }

  function CondShape(c: Cond): Option<nat> {
    match c
    case CondScalar(_) => None
    case CondVec(bs) => Some(|bs|)
  }

  /** The Jacobian an argument holds, if any. */
  function DerivOf(a: Arg): set<Sdcsr> {
    if a.Var? then {a.fv.deriv} else {}
  }

  /** Two shapes numpy broadcasts in this model: equal, or one 0-d. */
  predicate Fit(p: Option<nat>, q: Option<nat>) {
    p == q || p.None? || q.None?
  }

  /** The shapes `where` combines, pairwise equal or 0-d. */
  predicate WhereShapes(c: Cond, x: Num, y: Num) {
    Fit(CondShape(c), ShapeOf(x)) && Fit(CondShape(c), ShapeOf(y)) && Fit(ShapeOf(x), ShapeOf(y))
  }

  /** The shape of `where(cond, x, y)`: the one of them that is not 0-d. */
  function WhereShape(c: Cond, x: Num, y: Num): Option<nat> {
    if CondShape(c).Some? then CondShape(c) else if ShapeOf(x).Some? then ShapeOf(x) else ShapeOf(y)
  }

  /** `where`'s arguments: shapes that combine, and the arguments that are
      forward values valid and of one kind. */
  predicate WhereFits(c: Cond, a: Arg, b: Arg)
    reads DerivOf(a), DerivOf(b)
  {
    WhereShapes(c, NValue(a), NValue(b)) &&
    (a.Var? ==> a.fv.Valid()) && (b.Var? ==> b.fv.Valid()) &&
    (a.Var? && b.Var? ==> a.fv.deriv.sparsity == b.fv.deriv.sparsity && a.fv.deriv.mshape.cols == b.fv.deriv.mshape.cols)
  }

  /** The value `where` computes: `ind * a + notind * b`. */
  function WhereValue(c: Cond, x: Num, y: Num): (r: Num)
    requires WhereShapes(c, x, y)
    ensures ShapeOf(r) == WhereShape(c, x, y)
  {
    var p, q := Times(Indicator(c, true), x), Times(Indicator(c, false), y);
    assert ShapeOf(p) == (if CondShape(c).Some? then CondShape(c) else ShapeOf(x));
    assert ShapeOf(q) == (if CondShape(c).Some? then CondShape(c) else ShapeOf(y));
    Plus(p, q)
  }

  /** Element `i` of `where(cond, x, y)` is `x[i]` where `cond[i]` holds and
      `y[i]` elsewhere. */
  lemma WhereSelects(c: Cond, x: Num, y: Num, i: nat)
    requires WhereShapes(c, x, y)
    requires i < Dim(WhereShape(c, x, y))
    ensures c.CondVec? ==> i < |c.bs|
    ensures x.Vec? ==> i < |x.vs|
    ensures y.Vec? ==> i < |y.vs|
    ensures At(WhereValue(c, x, y), i) == if CondAt(c, i) then At(x, i) else At(y, i)
  {
    var ca, cb := Indicator(c, true), Indicator(c, false);
    AtTimes(ca, x, i);
    AtTimes(cb, y, i);
    AtPlus(Times(ca, x), Times(cb, y), i);
  }

  /** Each product of `where` chains to the result's shape. */
  lemma WhereChainOk(c: Cond, x: Num, y: Num, d: Sdcsr, v: Num, want: bool)
    requires WhereShapes(c, x, y) && (v == x || v == y)
    requires d.Ok() && d.mshape.rows == ShapeOf(v)
    ensures d.ChainOk(WhereShape(c, x, y), Indicator(c, want))
  {
  }

  /** `where` of two forward values adds the two products with `fma2`,
      which refuses them exactly when it would refuse the operands' own
      Jacobians chained by the two indicators. */
  predicate WhereRefuses(c: Cond, u: ForwardValue, w: ForwardValue)
    requires u.deriv.Ok() && w.deriv.Ok() && WhereShapes(c, u.value, w.value)
    requires u.deriv.mshape.rows == ShapeOf(u.value) && w.deriv.mshape.rows == ShapeOf(w.value)
  {
    WhereChainOk(c, u.value, w.value, u.deriv, u.value, true);
    WhereChainOk(c, u.value, w.value, w.deriv, w.value, false);
    Refuses2(WhereShape(c, u.value, w.value), Indicator(c, true), u.deriv, Indicator(c, false), w.deriv)
  }

  /** `where(cond, a, b)`: `np.where(cond, 1., 0.) * a +
      np.where(np.logical_not(cond), 1., 0.) * b` through the operators. */
  method Where(c: Cond, a: Arg, b: Arg) returns (r: Result<Arg>)
    requires WhereFits(c, a, b)
    modifies DerivOf(a), DerivOf(b)
    ensures r.Err? <==> a.Var? && b.Var? && WhereRefuses(c, a.fv, b.fv)
    ensures r.Err? ==> r.error == NotImplementedError(NonzeroScalar)
    ensures r.Ok? ==> NValue(r.value) == WhereValue(c, NValue(a), NValue(b))
    ensures r.Ok? ==> (r.value.Var? <==> a.Var? || b.Var?)
    ensures r.Ok? && r.value.Var? ==> r.value.fv.Valid()
    ensures r.Ok? && a.Var? ==>
      r.value.Var? && r.value.fv.Sparsity() == a.fv.Sparsity() && r.value.fv.deriv.mshape.cols == a.fv.deriv.mshape.cols
    ensures r.Ok? && b.Var? ==>
      r.value.Var? && r.value.fv.Sparsity() == b.fv.Sparsity() && r.value.fv.deriv.mshape.cols == b.fv.deriv.mshape.cols
    ensures r.Ok? && a.Var? && b.Var? ==> var n := Dim(WhereShape(c, NValue(a), NValue(b))); var sp := a.fv.Sparsity();
      r.value.fv.J() == Combine(sp, ChainRule(sp, a.fv.J(), Indicator(c, true), n), ChainRule(sp, b.fv.J(), Indicator(c, false), n))
    ensures r.Ok? && a.Var? && b.Const? ==> var n := Dim(WhereShape(c, NValue(a), NValue(b)));
      r.value.fv.J() == ChainRule(a.fv.Sparsity(), a.fv.J(), Indicator(c, true), n)
    ensures r.Ok? && a.Const? && b.Var? ==> var n := Dim(WhereShape(c, NValue(a), NValue(b)));
      r.value.fv.J() == ChainRule(b.fv.Sparsity(), b.fv.J(), Indicator(c, false), n)
  {
    match (a, b)
    case (Const(x), Const(y)) =>
      r := Ok(Const(WhereValue(c, x, y)));
    case (Var(u), Const(y)) =>
      var v := WhereVarConst(c, u, y);
      r := Ok(Var(v));
    case (Const(x), Var(w)) =>
      var v := WhereConstVar(c, x, w);
      r := Ok(Var(v));
    case (Var(u), Var(w)) =>
      var v := WhereVarVar(c, u, w);
      if v.Err? {
        return Err(v.error);
      }
      r := Ok(Var(v.value));
  }

  method WhereVarConst(c: Cond, u: ForwardValue, y: Num) returns (v: ForwardValue)
    requires u.Valid() && WhereShapes(c, u.value, y)
    ensures v.Valid() && v.Sparsity() == u.Sparsity() && v.deriv.mshape.cols == u.deriv.mshape.cols
    ensures v.value == WhereValue(c, u.value, y)
    ensures v.J() == ChainRule(u.Sparsity(), u.J(), Indicator(c, true), Dim(WhereShape(c, u.value, y)))
  {
    var ca, cb := Indicator(c, true), Indicator(c, false);
    IndicatorTimes(c, true, u.value);
    IndicatorTimes(c, false, y);
    ChainFits(u, ShapeOf(Times(u.value, ca)), ca);
    var tu := MulConst(u, ca);
    TimesCommutes(u.value, ca);
    ChainFits(tu, ShapeOf(Plus(tu.value, Times(cb, y))), Scalar(1.0));
    v := AddConst(tu, Times(cb, y));
    BroadcastOfChain(u.Sparsity(), u.J(), ca, Dim(ShapeOf(tu.value)), Dim(WhereShape(c, u.value, y)));
  }

  method WhereConstVar(c: Cond, x: Num, w: ForwardValue) returns (v: ForwardValue)
    requires w.Valid() && WhereShapes(c, x, w.value)
    ensures v.Valid() && v.Sparsity() == w.Sparsity() && v.deriv.mshape.cols == w.deriv.mshape.cols
    ensures v.value == WhereValue(c, x, w.value)
    ensures v.J() == ChainRule(w.Sparsity(), w.J(), Indicator(c, false), Dim(WhereShape(c, x, w.value)))
  {
    var ca, cb := Indicator(c, true), Indicator(c, false);
    IndicatorTimes(c, true, x);
    IndicatorTimes(c, false, w.value);
    ChainFits(w, ShapeOf(Times(w.value, cb)), cb);
    var tw := MulConst(w, cb);
    TimesCommutes(w.value, cb);
    ChainFits(tw, ShapeOf(Plus(tw.value, Times(ca, x))), Scalar(1.0));
    v := AddConst(tw, Times(ca, x));
    PlusCommutes(Times(ca, x), Times(cb, w.value));
    BroadcastOfChain(w.Sparsity(), w.J(), cb, Dim(ShapeOf(tw.value)), Dim(WhereShape(c, x, w.value)));
  }

  method WhereVarVar(c: Cond, u: ForwardValue, w: ForwardValue) returns (v: Result<ForwardValue>)
    requires u.Valid() && w.Valid() && WhereShapes(c, u.value, w.value)
    requires u.deriv.sparsity == w.deriv.sparsity && u.deriv.mshape.cols == w.deriv.mshape.cols
    modifies u.deriv, w.deriv
    ensures v.Err? <==> WhereRefuses(c, u, w)
    ensures v.Err? ==> v.error == NotImplementedError(NonzeroScalar)
    ensures v.Ok? ==> v.value.Valid() && v.value.Sparsity() == u.Sparsity() && v.value.deriv.mshape.cols == u.deriv.mshape.cols
    ensures v.Ok? ==> v.value.value == WhereValue(c, u.value, w.value)
    ensures v.Ok? ==> var n := Dim(WhereShape(c, u.value, w.value)); var sp := u.Sparsity();
      v.value.J() == Combine(sp, ChainRule(sp, u.J(), Indicator(c, true), n), ChainRule(sp, w.J(), Indicator(c, false), n))
  {
    var tu := WhereTerm(c, true, u, u.value, w.value);
    var tw := WhereTerm(c, false, w, u.value, w.value);
    WhereTermsFit(c, u, w, tu, tw);
    WhereTermsRefuse(c, u, w, tu, tw);
    v := AddValues(tu, tw);
  }

  /** The two products of `where` can be added, and their sum is its value. */
  lemma WhereTermsFit(c: Cond, u: ForwardValue, w: ForwardValue, tu: ForwardValue, tw: ForwardValue)
    requires u.Valid() && w.Valid() && WhereShapes(c, u.value, w.value)
    requires u.deriv.sparsity == w.deriv.sparsity && u.deriv.mshape.cols == w.deriv.mshape.cols
    requires tu.Valid() && tu.Sparsity() == u.Sparsity() && tu.deriv.mshape.cols == u.deriv.mshape.cols
    requires tw.Valid() && tw.Sparsity() == w.Sparsity() && tw.deriv.mshape.cols == w.deriv.mshape.cols
    requires Broadcastable(Indicator(c, true), u.value) && tu.value == Times(Indicator(c, true), u.value)
    requires Broadcastable(Indicator(c, false), w.value) && tw.value == Times(Indicator(c, false), w.value)
    ensures Compatible(tu, tw) && Plus(tu.value, tw.value) == WhereValue(c, u.value, w.value)
    ensures ChainBoth(tu, Scalar(1.0), tw, Scalar(1.0), Plus(tu.value, tw.value))
  {
    IndicatorTimes(c, true, u.value);
    IndicatorTimes(c, false, w.value);
    var out := WhereShape(c, u.value, w.value);
    ChainFits(tu, out, Scalar(1.0));
    ChainFits(tw, out, Scalar(1.0));
  }

  /** Adding the two products is refused exactly when `where` refuses. */
  lemma WhereTermsRefuse(c: Cond, u: ForwardValue, w: ForwardValue, tu: ForwardValue, tw: ForwardValue)
    requires u.Valid() && w.Valid() && WhereShapes(c, u.value, w.value)
    requires u.deriv.sparsity == w.deriv.sparsity && u.deriv.mshape.cols == w.deriv.mshape.cols
    requires tu.Valid() && tu.Sparsity() == u.Sparsity() && tu.deriv.mshape.cols == u.deriv.mshape.cols
    requires tw.Valid() && tw.Sparsity() == w.Sparsity() && tw.deriv.mshape.cols == w.deriv.mshape.cols
    requires ShapeOf(tu.value) == ShapeOf(u.value) ==> tu.deriv.M == u.deriv.M
    requires ShapeOf(tw.value) == ShapeOf(w.value) ==> tw.deriv.M == w.deriv.M
    requires Broadcastable(Indicator(c, true), u.value) && tu.value == Times(Indicator(c, true), u.value)
    requires Broadcastable(Indicator(c, false), w.value) && tw.value == Times(Indicator(c, false), w.value)
    requires var n := Dim(WhereShape(c, u.value, w.value));
      CanBroadcastRows(tu.J(), n) && CanBroadcastRows(u.J(), n) &&
      ChainRule(u.Sparsity(), tu.J(), Scalar(1.0), n) == ChainRule(u.Sparsity(), u.J(), Indicator(c, true), n)
    requires var n := Dim(WhereShape(c, u.value, w.value));
      CanBroadcastRows(tw.J(), n) && CanBroadcastRows(w.J(), n) &&
      ChainRule(w.Sparsity(), tw.J(), Scalar(1.0), n) == ChainRule(w.Sparsity(), w.J(), Indicator(c, false), n)
    ensures tu.deriv.ChainOk(WhereShape(c, u.value, w.value), Scalar(1.0))
    ensures tw.deriv.ChainOk(WhereShape(c, u.value, w.value), Scalar(1.0))
    ensures Refuses2(WhereShape(c, u.value, w.value), Scalar(1.0), tu.deriv, Scalar(1.0), tw.deriv) <==> WhereRefuses(c, u, w)
  {
    var out := WhereShape(c, u.value, w.value);
    IndicatorTimes(c, true, u.value);
    IndicatorTimes(c, false, w.value);
    ChainFits(tu, out, Scalar(1.0));
    ChainFits(tw, out, Scalar(1.0));
    WhereChainOk(c, u.value, w.value, u.deriv, u.value, true);
    WhereChainOk(c, u.value, w.value, w.deriv, w.value, false);
    WhereTermPiece(out, Indicator(c, true), u.deriv, tu.deriv);
    WhereTermPiece(out, Indicator(c, false), w.deriv, tw.deriv);
  }

  /** A product of `where` chains by 1 to the piece its operand chains to
      by the indicator. */
  lemma WhereTermPiece(out: Option<nat>, ind: Num, u: Sdcsr, t: Sdcsr)
    requires u.Ok() && t.Ok() && u.ChainOk(out, ind) && t.ChainOk(out, Scalar(1.0))
    requires u.sparsity == t.sparsity
    requires CanBroadcastRows(t.Dense(), Dim(out)) && CanBroadcastRows(u.Dense(), Dim(out))
    requires ChainRule(u.sparsity, t.Dense(), Scalar(1.0), Dim(out)) == ChainRule(u.sparsity, u.Dense(), ind, Dim(out))
    requires out == None ==> t.M == u.M && t.mshape == u.mshape
    ensures PieceOf(out, Term(Scalar(1.0), t)) == PieceOf(out, Term(ind, u))
  {
    assert t.ChainDense(out, Scalar(1.0)) == ChainRule(u.sparsity, t.Dense(), Scalar(1.0), Dim(out));
    assert u.ChainDense(out, ind) == ChainRule(u.sparsity, u.Dense(), ind, Dim(out));
  }

  /** One product of `where(cond, x, y)`: `np.where(cond == want, 1., 0.) * u`
      with `u` the value that stands for `x` (`want`) or `y`; its Jacobian,
      repeated to the rows of the result, is `u`'s chained by the indicator. */
  method WhereTerm(c: Cond, want: bool, u: ForwardValue, x: Num, y: Num) returns (t: ForwardValue)
    requires u.Valid() && WhereShapes(c, x, y) && u.value == if want then x else y
    ensures t.Valid() && t.Sparsity() == u.Sparsity() && t.deriv.mshape.cols == u.deriv.mshape.cols
    ensures t.deriv == u.deriv || fresh(t.deriv)
    ensures ShapeOf(t.value) == ShapeOf(u.value) ==> t.deriv.M == u.deriv.M
    ensures Broadcastable(Indicator(c, want), u.value)
    ensures t.value == Times(Indicator(c, want), u.value)
    ensures var n := Dim(WhereShape(c, x, y));
      CanBroadcastRows(t.J(), n) && CanBroadcastRows(u.J(), n) &&
      ChainRule(u.Sparsity(), t.J(), Scalar(1.0), n) == ChainRule(u.Sparsity(), u.J(), Indicator(c, want), n)
  {
    var ci := Indicator(c, want);
    var ju := u.J();
    IndicatorTimes(c, want, u.value);
    ChainFits(u, ShapeOf(Times(u.value, ci)), ci);
    t := MulConst(u, ci);
    TimesCommutes(u.value, ci);
    RepeatOfChain(u.Sparsity(), ju, ci, Dim(ShapeOf(t.value)), Dim(WhereShape(c, x, y)));
  }

  /** The shape of one product of `where`. */
  lemma IndicatorTimes(c: Cond, want: bool, x: Num)
    requires Fit(CondShape(c), ShapeOf(x))
    ensures Broadcastable(Indicator(c, want), x) && Broadcastable(x, Indicator(c, want))
    ensures ShapeOf(Times(Indicator(c, want), x)) == if CondShape(c).Some? then CondShape(c) else ShapeOf(x)
  {
  }

  lemma TimesCommutes(x: Num, y: Num)
    requires Broadcastable(x, y)
    ensures Times(y, x) == Times(x, y)
  {
    var l, r := Times(y, x), Times(x, y);
    if l.Vec? {
      assert r.Vec? && |l.vs| == |r.vs|;
      forall i | 0 <= i < |l.vs|
        ensures l.vs[i] == r.vs[i]
      {
      }
    }
  }

  lemma PlusCommutes(x: Num, y: Num)
    requires Broadcastable(x, y)
    ensures Plus(y, x) == Plus(x, y)
  {
    var l, r := Plus(y, x), Plus(x, y);
    if l.Vec? {
      assert r.Vec? && |l.vs| == |r.vs|;
      forall i | 0 <= i < |l.vs|
        ensures l.vs[i] == r.vs[i]
      {
      }
    }
  }

  /** Chaining to `m` rows and then repeating to `n` rows is chaining to `n`
      rows, when `m` is `n` or one. */
  lemma BroadcastOfChain(sp: bool, jac: Matrix, x: Num, m: nat, n: nat)
    requires CanBroadcastRows(jac, m) && (m == n || m == 1) && CanBroadcastRows(jac, n)
    requires x.Vec? ==> |x.vs| == m
    requires !sp ==> x.Vec? ==> |x.vs| == n || |x.vs| == 1
    ensures BroadcastRows(ChainRule(sp, jac, x, m), n) == ChainRule(sp, jac, x, n)
  {
    var l, r := BroadcastRows(ChainRule(sp, jac, x, m), n), ChainRule(sp, jac, x, n);
    forall i, j | 0 <= i < n && 0 <= j < jac.cols
      ensures l.e[i][j] == r.e[i][j]
    {
    }
    Ext(l, r);
  }

  /** The same through the unit chain of `a + b`. */
  lemma RepeatOfChain(sp: bool, jac: Matrix, x: Num, m: nat, n: nat)
    requires CanBroadcastRows(jac, m) && (m == n || m == 1) && CanBroadcastRows(jac, n)
    requires x.Vec? ==> |x.vs| == m
    requires !sp ==> x.Vec? ==> |x.vs| == n || |x.vs| == 1
    ensures ChainRule(sp, ChainRule(sp, jac, x, m), Scalar(1.0), n) == ChainRule(sp, jac, x, n)
  {
    BroadcastOfChain(sp, jac, x, m, n);
    if !sp {
      ChainRuleByOne(ChainRule(sp, jac, x, m), n);
    }
  }

  /** Row `i` of the Jacobian of `where(cond, a, b)` is row `i` of `a`'s
      where `cond[i]` holds and of `b`'s elsewhere. */
  lemma WhereRows(c: Cond, ja: Matrix, jb: Matrix, n: nat, i: nat, j: nat)
    requires CanBroadcastRows(ja, n) && CanBroadcastRows(jb, n) && ja.cols == jb.cols
    requires c.CondVec? ==> |c.bs| == n
    requires i < n && j < ja.cols
    ensures var l := Combine(false, ChainRule(false, ja, Indicator(c, true), n), ChainRule(false, jb, Indicator(c, false), n));
      l.e[i][j] == if CondAt(c, i) then BroadcastRows(ja, n).e[i][j] else BroadcastRows(jb, n).e[i][j]
  {
  }

  /** In the sparsity variant the pattern of `where` is the union of both
      branches' patterns, whatever the condition: `branch_join` relies on
      this to keep the sparsity of both branches. */
  lemma WhereUnion(c: Cond, pa: Matrix, pb: Matrix, n: nat, i: nat, j: nat)
    requires CanBroadcastRows(pa, n) && CanBroadcastRows(pb, n) && pa.cols == pb.cols
    requires IsPattern(pa) && IsPattern(pb) && i < n && j < pa.cols
    ensures var l := Combine(true, ChainRule(true, pa, Indicator(c, true), n), ChainRule(true, pb, Indicator(c, false), n));
      l.e[i][j] != 0.0 <==> BroadcastRows(pa, n).e[i][j] != 0.0 || BroadcastRows(pb, n).e[i][j] != 0.0
  {
  }

  /** `branch_join(cond, iftrue, iffalse)` of the sparsity variant: both
      branches are evaluated (on `ones_like(cond)`; `ta` and `tb` are their
      results) and joined by `where`. */
  method BranchJoin(c: Cond, ta: Arg, tb: Arg) returns (r: Result<Arg>)
    requires WhereFits(c, ta, tb)
    requires ta.Var? ==> ta.fv.Sparsity()
    requires tb.Var? ==> tb.fv.Sparsity()
    modifies DerivOf(ta), DerivOf(tb)
    ensures r.Err? <==> ta.Var? && tb.Var? && WhereRefuses(c, ta.fv, tb.fv)
    ensures r.Err? ==> r.error == NotImplementedError(NonzeroScalar)
    ensures r.Ok? ==> (r.value.Var? <==> ta.Var? || tb.Var?)
    ensures r.Ok? && ta.Var? && tb.Var? ==>
      r.value.Var? && r.value.fv.Valid() && r.value.fv.Sparsity() &&
      (var n := Dim(ShapeOf(r.value.fv.value));
       CanBroadcastRows(ta.fv.J(), n) && CanBroadcastRows(tb.fv.J(), n) &&
       r.value.fv.J() == Pattern(Add(BroadcastRows(ta.fv.J(), n), BroadcastRows(tb.fv.J(), n))))
  {
    r := Where(c, ta, tb);
  }
}

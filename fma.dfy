/** `sdcsr.fma` and `sparsity_csr.fma`: the chain rule for an elementwise
    function of several arguments, `sum(d.chain(output, x) for x, d in terms)`,
    with a fast path when every term holds the same `M` object. */
module FusedChain {
  import opened Common
  import opened Matrices
  import opened ScaledMatrix

  /** One `(x, d)` pair: a local derivative and the argument's Jacobian. */
  datatype Term = Term(x: Num, d: Sdcsr)

  /** The terms can all be chained to an output of shape `out`, all hold the
      same kind of Jacobian and all differentiate with respect to one variable. */
  predicate TermsOk(sparsity: bool, out: Option<nat>, terms: seq<Term>) {
    |terms| > 0 &&
    forall k :: 0 <= k < |terms| ==>
      terms[k].d.Ok() && terms[k].d.sparsity == sparsity &&
      terms[k].d.mshape.cols == terms[0].d.mshape.cols &&
      terms[k].d.ChainOk(out, terms[k].x)
  }

  /** `all(d.M is M for x, d in terms[1:])`. */
  predicate Shared(terms: seq<Term>)
    requires |terms| > 0
  {
    forall k :: 0 <= k < |terms| ==> terms[k].d.M == terms[0].d.M
  }

  function Cols(terms: seq<Term>): nat
    requires |terms| > 0
  {
    Dim(terms[0].d.mshape.cols)
  }

  /** `d.chain(output, x)` of every term, as matrices. */
  function Chains(sparsity: bool, out: Option<nat>, terms: seq<Term>): (r: seq<Matrix>)
    requires TermsOk(sparsity, out, terms)
    ensures |r| == |terms| && AllShape(r, Dim(out), Cols(terms))
    ensures forall k :: 0 <= k < |terms| ==> r[k] == terms[k].d.ChainDense(out, terms[k].x)
  {
    seq(|terms|, k requires 0 <= k < |terms| => terms[k].d.ChainDense(out, terms[k].x))
  }

  /** The Jacobian `fma` stands for: the sum of the chained terms. */
  function FmaDense(sparsity: bool, out: Option<nat>, terms: seq<Term>): (r: Matrix)
    requires TermsOk(sparsity, out, terms)
    ensures r.rows == Dim(out) && r.cols == Cols(terms)
  {
    SumAll(Chains(sparsity, out, terms), Dim(out), Cols(terms))
  }

  /** `(d.s * x) * d.diag` of every term. */
  function Factors(out: Option<nat>, terms: seq<Term>): (r: seq<Num>)
    requires TermsOk(false, out, terms)
    ensures |r| == |terms|
    ensures forall k :: 0 <= k < |terms| ==>
      r[k] == Times(Times(Scalar(terms[k].d.s), terms[k].x), terms[k].d.diag)
    ensures forall k :: 0 <= k < |r| ==> r[k].Vec? ==> |r[k].vs| == Dim(out)
    ensures out == None ==> forall k :: 0 <= k < |r| ==> r[k].Scalar?
  {
    seq(|terms|, k requires 0 <= k < |terms| =>
      Times(Times(Scalar(terms[k].d.s), terms[k].x), terms[k].d.diag))
  }

  predicate FitAll(fs: seq<Num>, n: nat) {
    forall k :: 0 <= k < |fs| ==> fs[k].Vec? ==> |fs[k].vs| == n
  }

  /** Python's `sum(fs)`: `((0 + fs[0]) + fs[1]) + ...`. */
  function NumSum(fs: seq<Num>, n: nat): (r: Num)
    requires FitAll(fs, n)
    ensures r.Vec? ==> |r.vs| == n
    ensures (forall k :: 0 <= k < |fs| ==> fs[k].Scalar?) ==> r.Scalar?
  {
    if |fs| == 0 then Scalar(0.0)
    else Plus(NumSum(fs[..|fs| - 1], n), fs[|fs| - 1])
  }

  /** Element `i` of every value in `fs`. */
  function Column(fs: seq<Num>, n: nat, i: nat): (r: seq<real>)
    requires FitAll(fs, n) && i < n
    ensures |r| == |fs| && forall k :: 0 <= k < |fs| ==> r[k] == At(fs[k], i)
  {
    seq(|fs|, k requires 0 <= k < |fs| => At(fs[k], i))
  }

  /** Element `i` of `sum(fs)` is the sum of the elements `i`. */
  lemma {:induction false} NumSumAt(fs: seq<Num>, n: nat, i: nat)
    requires FitAll(fs, n) && i < n
    ensures At(NumSum(fs, n), i) == Sum(Column(fs, n, i))
  {
    if |fs| > 0 {
      var init := fs[..|fs| - 1];
      NumSumAt(init, n, i);
      AtPlus(NumSum(init, n), fs[|fs| - 1], i);
      assert Column(fs, n, i) == Column(init, n, i) + [At(fs[|fs| - 1], i)];
      SumSnoc(Column(init, n, i), At(fs[|fs| - 1], i));
    }
  }

  /** Every factor of `fs` scaling `base`, in order. */
  function ScaledCopies(fs: seq<Num>, base: Matrix): (r: seq<Matrix>)
    requires FitAll(fs, base.rows)
    ensures |r| == |fs| && AllShape(r, base.rows, base.cols)
    ensures forall k :: 0 <= k < |fs| ==> r[k] == Scaled(fs[k], base)
  {
    seq(|fs|, k requires 0 <= k < |fs| => Scaled(fs[k], base))
  }

  /** Row scaling is linear in the factor: the sum of the scaled copies of
      `base` is `base` scaled by the summed factor. */
  lemma {:induction false} SumOfScaled(fs: seq<Num>, base: Matrix)
    requires FitAll(fs, base.rows)
    ensures SumAll(ScaledCopies(fs, base), base.rows, base.cols) == Scaled(NumSum(fs, base.rows), base)
  {
    var l, r := SumAll(ScaledCopies(fs, base), base.rows, base.cols), Scaled(NumSum(fs, base.rows), base);
    forall i, j | 0 <= i < base.rows && 0 <= j < base.cols
      ensures l.e[i][j] == r.e[i][j]
    {
      NumSumAt(fs, base.rows, i);
      SumOfScaledEntry(fs, base, i, j, l, NumSum(fs, base.rows));
    }
    Ext(l, r);
  }

  lemma SumOfScaledEntry(fs: seq<Num>, base: Matrix, i: nat, j: nat, l: Matrix, s: Num)
    requires FitAll(fs, base.rows) && i < base.rows && j < base.cols
    requires l == SumAll(ScaledCopies(fs, base), base.rows, base.cols)
    requires s.Vec? ==> |s.vs| == base.rows
    requires At(s, i) == Sum(Column(fs, base.rows, i))
    ensures l.e[i][j] == Scaled(s, base).e[i][j]
  {
    SumOfScaledAt(fs, base, i, j, At(s, i));
    ScaledEntry(s, base, i, j);
  }

  lemma ScaledEntry(p: Num, base: Matrix, i: nat, j: nat)
    requires p.Vec? ==> |p.vs| == base.rows
    requires i < base.rows && j < base.cols
    ensures Scaled(p, base).e[i][j] == At(p, i) * base.e[i][j]
  {
  }

  lemma {:induction false} SumOfScaledAt(fs: seq<Num>, base: Matrix, i: nat, j: nat, t: real)
    requires FitAll(fs, base.rows) && i < base.rows && j < base.cols
    requires t == Sum(Column(fs, base.rows, i))
    ensures Sum(Entries(ScaledCopies(fs, base), base.rows, base.cols, i, j)) == t * base.e[i][j]
  {
    ScaledEntries(fs, base, i, j);
    SumScale(Column(fs, base.rows, i), Entries(ScaledCopies(fs, base), base.rows, base.cols, i, j), base.e[i][j]);
  }

  lemma ScaledEntries(fs: seq<Num>, base: Matrix, i: nat, j: nat)
    requires FitAll(fs, base.rows) && i < base.rows && j < base.cols
    ensures forall k :: 0 <= k < |fs| ==>
      Entries(ScaledCopies(fs, base), base.rows, base.cols, i, j)[k] == Column(fs, base.rows, i)[k] * base.e[i][j]
  {
    var xs, ys := Column(fs, base.rows, i), Entries(ScaledCopies(fs, base), base.rows, base.cols, i, j);
    forall k | 0 <= k < |fs|
      ensures ys[k] == xs[k] * base.e[i][j]
    {
      assert ys[k] == Scaled(fs[k], base).e[i][j];
    }
  }

  /** The chained terms of a shared `M` all scale the same matrix. */
  lemma {:induction false} SharedChains(out: Option<nat>, terms: seq<Term>, base: Matrix)
    requires TermsOk(false, out, terms) && Shared(terms)
    requires base == BroadcastRows(terms[0].d.Base(), Dim(out))
    ensures base.rows == Dim(out)
    ensures Chains(false, out, terms) == ScaledCopies(Factors(out, terms), base)
  {
    var fs := Factors(out, terms);
    forall k | 0 <= k < |terms|
      ensures terms[k].d.ChainDense(out, terms[k].x) == Scaled(fs[k], base)
    {
      var d := terms[k].d;
      assert d.Base() == terms[0].d.Base();
      d.ChainAgrees(out, terms[k].x, base);
    }
  }

  /** The fast path agrees with the slow path: scaling the shared `M` by the
      summed factor is the sum of the chained terms. */
  lemma {:induction false} FastPathAgrees(out: Option<nat>, terms: seq<Term>, base: Matrix)
    requires TermsOk(false, out, terms) && Shared(terms)
    requires base == BroadcastRows(terms[0].d.Base(), Dim(out))
    ensures base.rows == Dim(out)
    ensures Scaled(NumSum(Factors(out, terms), Dim(out)), base) == FmaDense(false, out, terms)
  {
    SharedChains(out, terms, base);
    SumOfScaled(Factors(out, terms), base);
  }

  /** In the sparsity variant every chained term of a shared `M` is the same pattern. */
  lemma {:induction false} SharedPatterns(out: Option<nat>, terms: seq<Term>, base: Matrix)
    requires TermsOk(true, out, terms) && Shared(terms)
    requires base == BroadcastRows(terms[0].d.Base(), Dim(out))
    ensures IsPattern(base)
    ensures Pattern(FmaDense(true, out, terms)) == base
  {
    var cs := Chains(true, out, terms);
    forall k | 0 <= k < |terms|
      ensures cs[k] == base
    {
      terms[k].d.SparsityDense();
      assert terms[k].d.Base() == terms[0].d.Base();
    }
    terms[0].d.SparsityDense();
    PatternOfRepeatedSum(cs, base);
  }

  /** The fast path of `fma`: the summed factor over the shared `M`, or
      over `B . M` when the output has other rows. */
  method FmaShared(sparsity: bool, out: Option<nat>, terms: seq<Term>) returns (r: Sdcsr)
    requires TermsOk(sparsity, out, terms) && Shared(terms)
    ensures fresh(r) && r.Valid() && r.sparsity == sparsity
    ensures r.mshape == MShape(out, terms[0].d.mshape.cols)
    ensures r.Dense() == if sparsity then Pattern(FmaDense(sparsity, out, terms)) else FmaDense(sparsity, out, terms)
    ensures out == terms[0].d.mshape.rows ==> r.M == terms[0].d.M
    ensures out != terms[0].d.mshape.rows ==> r.M != null
    ensures !sparsity ==> r.Factor() == NumSum(Factors(out, terms), Dim(out))
  {
    var first := terms[0].d;
    var mshape := MShape(out, first.mshape.cols);
    var n := Dim(out);
    var M := first.M;
    if out != first.mshape.rows {
      M := first.BroadcastBase(out);
    }
    var base := BroadcastRows(first.Base(), n);
    assert BaseOf(mshape, M) == base;
    if sparsity {
      r := New(true, mshape, Scalar(1.0), M);
      SharedPatterns(out, terms, base);
      PatternOfPattern(base);
    } else {
      var diag := NumSum(Factors(out, terms), n);
      r := New(false, mshape, diag, M);
      FastPathAgrees(out, terms, base);
    }
  }

  /** `d.chain(output, x)` is a 0-d derivative of a 0-d value exactly
      when the output is 0-d and so is `d` (it keeps `d`'s `M`). */
  predicate ChainScalar(out: Option<nat>, t: Term) {
    out == None && t.d.IsScalarForm()
  }

  /** `d.chain(output, x).tovalue()` of one term, as a value. */
  function PieceOf(out: Option<nat>, t: Term): (r: Plain)
    requires t.d.Ok() && t.d.ChainOk(out, t.x)
    ensures PlainDense(r).rows == Dim(out) && PlainDense(r).cols == t.d.Cols()
    ensures r.Number? <==> ChainScalar(out, t)
  {
    var c := t.d.ChainDense(out, t.x);
    if ChainScalar(out, t) then Number(c.e[0][0]) else Sparse(c)
  }

  /** The value is the chained matrix. */
  lemma PieceDense(out: Option<nat>, t: Term)
    requires t.d.Ok() && t.d.ChainOk(out, t.x)
    ensures PlainDense(PieceOf(out, t)) == t.d.ChainDense(out, t.x)
  {
    var c := t.d.ChainDense(out, t.x);
    if ChainScalar(out, t) {
      Ext(Mx(1, 1, [[c.e[0][0]]]), c);
    }
  }

  /** Values of one shape, `n` x `m` as matrices. */
  predicate Fits(ps: seq<Plain>, n: nat, m: nat) {
    forall q :: 0 <= q < |ps| ==> PlainDense(ps[q]).rows == n && PlainDense(ps[q]).cols == m
  }

  /** The matrices the values stand for. */
  function PlainDenses(ps: seq<Plain>, n: nat, m: nat): (r: seq<Matrix>)
    requires Fits(ps, n, m)
    ensures |r| == |ps| && AllShape(r, n, m)
    ensures forall q :: 0 <= q < |ps| ==> r[q] == PlainDense(ps[q])
  {
    seq(|ps|, q requires 0 <= q < |ps| => PlainDense(ps[q]))
  }

  /** `v = ps[0]`, then `v = v + ps[q]` for `q` up to `k - 1`, as scipy
      adds them: the first refusal is the outcome. */
  function Running(ps: seq<Plain>, k: nat, n: nat, m: nat): (r: Result<Plain>)
    requires Fits(ps, n, m) && 0 < k <= |ps|
    ensures r.Ok? ==> PlainDense(r.value).rows == n && PlainDense(r.value).cols == m
    ensures r.Err? ==> r.error == NotImplementedError(NonzeroScalar)
    decreases k
  {
    if k == 1 then Result.Ok(ps[0])
    else
      var acc := Running(ps, k - 1, n, m);
      if acc.Err? then acc else SpAdd(acc.value, ps[k - 1])
  }

  /** A running sum scipy accepts is a number exactly when every value so
      far is one. */
  lemma {:induction false} RunningNumber(ps: seq<Plain>, k: nat, n: nat, m: nat)
    requires Fits(ps, n, m) && 0 < k <= |ps| && Running(ps, k, n, m).Ok?
    ensures Running(ps, k, n, m).value.Number? <==> forall q :: 0 <= q < k ==> ps[q].Number?
    decreases k
  {
    if k > 1 {
      RunningNumber(ps, k - 1, n, m);
      if !Running(ps, k, n, m).value.Number? && !Running(ps, k - 1, n, m).value.Number? {
        var j :| 0 <= j < k - 1 && !ps[j].Number?;
      }
    }
  }

  /** A running sum scipy accepts is the sum of the matrices so far. */
  lemma {:induction false} RunningSums(ps: seq<Plain>, k: nat, n: nat, m: nat)
    requires Fits(ps, n, m) && 0 < k <= |ps| && Running(ps, k, n, m).Ok?
    ensures PlainDense(Running(ps, k, n, m).value) == SumAll(PlainDenses(ps, n, m)[..k], n, m)
    decreases k
  {
    var ms := PlainDenses(ps, n, m);
    SumAllPrefix(ms, k - 1, n, m);
    if k > 1 {
      RunningSums(ps, k - 1, n, m);
      SpAddSums(Running(ps, k - 1, n, m).value, ps[k - 1]);
    }
  }

  /** Values that are all numbers, or all matrices, are never refused. */
  lemma {:induction false} NoMixNeverRefused(ps: seq<Plain>, k: nat, n: nat, m: nat)
    requires Fits(ps, n, m) && 0 < k <= |ps|
    requires (forall q :: 0 <= q < k ==> ps[q].Number?) || (forall q :: 0 <= q < k ==> !ps[q].Number?)
    ensures Running(ps, k, n, m).Ok?
    decreases k
  {
    if k > 1 {
      NoMixNeverRefused(ps, k - 1, n, m);
      RunningNumber(ps, k - 1, n, m);
    }
  }

  /** Values whose numbers are all 0 are never refused. */
  lemma {:induction false} ZeroNumbersNeverRefused(ps: seq<Plain>, k: nat, n: nat, m: nat)
    requires Fits(ps, n, m) && 0 < k <= |ps|
    requires forall q :: 0 <= q < k ==> ps[q].Number? ==> ps[q].p == 0.0
    ensures Running(ps, k, n, m).Ok?
    ensures Running(ps, k, n, m).value.Number? ==> Running(ps, k, n, m).value.p == 0.0
    decreases k
  {
    if k > 1 {
      ZeroNumbersNeverRefused(ps, k - 1, n, m);
    }
  }

  /** Once the running sum is refused it stays refused. */
  lemma {:induction false} RefusalSticks(ps: seq<Plain>, j: nat, k: nat, n: nat, m: nat)
    requires Fits(ps, n, m) && 0 < j <= k <= |ps|
    requires Running(ps, j, n, m).Err?
    ensures Running(ps, k, n, m).Err?
    decreases k
  {
    if j < k {
      RefusalSticks(ps, j, k - 1, n, m);
    }
  }

  /** A nonzero number after a matrix is refused. */
  lemma NonzeroAfterMatrixRefused(ps: seq<Plain>, j: nat, k: nat, n: nat, m: nat)
    requires Fits(ps, n, m) && j < k < |ps|
    requires !ps[j].Number? && ps[k].Number? && ps[k].p != 0.0
    ensures Running(ps, |ps|, n, m).Err?
  {
    var acc := Running(ps, k, n, m);
    if acc.Ok? {
      RunningNumber(ps, k, n, m);
    }
    assert Running(ps, k + 1, n, m).Err?;
    RefusalSticks(ps, k + 1, |ps|, n, m);
  }

  /** `d.chain(output, x).tovalue()` of every term, as values. */
  function Pieces(sparsity: bool, out: Option<nat>, terms: seq<Term>): (r: seq<Plain>)
    requires TermsOk(sparsity, out, terms)
    ensures |r| == |terms| && Fits(r, Dim(out), Cols(terms))
    ensures forall q :: 0 <= q < |terms| ==> r[q] == PieceOf(out, terms[q])
  {
    seq(|terms|, q requires 0 <= q < |terms| => PieceOf(out, terms[q]))
  }

  /** The pieces stand for the chained terms. */
  lemma PiecesChain(sparsity: bool, out: Option<nat>, terms: seq<Term>)
    requires TermsOk(sparsity, out, terms)
    ensures PlainDenses(Pieces(sparsity, out, terms), Dim(out), Cols(terms)) == Chains(sparsity, out, terms)
  {
    forall q | 0 <= q < |terms| {
      PieceDense(out, terms[q]);
    }
  }

  /** The slow path of `fma` on values: the first chained term, then
      `v = v + d.chain(output, x).tovalue()` for every further one. */
  function SlowPath(sparsity: bool, out: Option<nat>, terms: seq<Term>): (r: Result<Plain>)
    requires TermsOk(sparsity, out, terms)
    ensures r.Ok? ==> PlainDense(r.value).rows == Dim(out) && PlainDense(r.value).cols == Cols(terms)
    ensures r.Err? ==> r.error == NotImplementedError(NonzeroScalar)
  {
    Running(Pieces(sparsity, out, terms), |terms|, Dim(out), Cols(terms))
  }

  /** A sum the slow path accepts is the Jacobian `fma` stands for. */
  lemma SlowPathSums(sparsity: bool, out: Option<nat>, terms: seq<Term>)
    requires TermsOk(sparsity, out, terms) && SlowPath(sparsity, out, terms).Ok?
    ensures PlainDense(SlowPath(sparsity, out, terms).value) == FmaDense(sparsity, out, terms)
  {
    var ps := Pieces(sparsity, out, terms);
    RunningSums(ps, |terms|, Dim(out), Cols(terms));
    PiecesChain(sparsity, out, terms);
    assert PlainDenses(ps, Dim(out), Cols(terms))[..|terms|] == Chains(sparsity, out, terms);
  }

  /** The slow path gives a number only when every `M` is `None`. */
  lemma NumberMeansShared(sparsity: bool, out: Option<nat>, terms: seq<Term>)
    requires TermsOk(sparsity, out, terms)
    requires SlowPath(sparsity, out, terms).Ok? && SlowPath(sparsity, out, terms).value.Number?
    ensures Shared(terms)
  {
    var ps := Pieces(sparsity, out, terms);
    RunningNumber(ps, |terms|, Dim(out), Cols(terms));
    assert forall q :: 0 <= q < |terms| ==> ps[q].Number?;
  }

  /** `fma` refuses the terms: they do not share `M`, and the slow path
      meets a nonzero number next to a matrix. */
  predicate FmaRefuses(sparsity: bool, out: Option<nat>, terms: seq<Term>)
    requires TermsOk(sparsity, out, terms)
  {
    !Shared(terms) && SlowPath(sparsity, out, terms).Err?
  }

  /** With two terms, as in `fma2`, the sum is refused exactly when one
      chained term is a nonzero number and the other a matrix. */
  lemma TwoTermsRefusal(sparsity: bool, out: Option<nat>, t0: Term, t1: Term)
    requires TermsOk(sparsity, out, [t0, t1])
    requires t0.d.Ok() && t0.d.ChainOk(out, t0.x) && t1.d.Ok() && t1.d.ChainOk(out, t1.x)
    ensures SlowPath(sparsity, out, [t0, t1]).Err? <==> Refused(PieceOf(out, t0), PieceOf(out, t1))
    ensures FmaRefuses(sparsity, out, [t0, t1]) <==> t0.d.M != t1.d.M && Refused(PieceOf(out, t0), PieceOf(out, t1))
  {
    var ps := Pieces(sparsity, out, [t0, t1]);
    assert ps[0] == PieceOf(out, t0) && ps[1] == PieceOf(out, t1);
    assert Running(ps, 1, Dim(out), Cols([t0, t1])) == Result.Ok(ps[0]);
  }

  /** `d.chain(output, x).tovalue()` for one term. */
  method ChainedValue(sparsity: bool, out: Option<nat>, t: Term) returns (v: Evaluated)
    requires t.d.Valid() && t.d.ChainOk(out, t.x)
    modifies t.d
    ensures t.d.Valid()
    ensures PlainOf(v) == PieceOf(out, t)
    ensures v.ScalarValue? ==> t.d.M == null
  {
    var c := t.d.Chain(out, t.x);
    v := c.ToValue();
    assert v.ScalarValue? <==> ChainScalar(out, t);
    PieceDense(out, t);
  }

  /** After `k` terms the slow path holds the running sum of their pieces,
      or has met the refusal that ends it. */
  predicate Progress(sparsity: bool, out: Option<nat>, terms: seq<Term>, k: nat, r: Result<Evaluated>) {
    TermsOk(sparsity, out, terms) && 0 < k <= |terms| &&
    var ps := Pieces(sparsity, out, terms);
    (r.Ok? ==> Running(ps, k, Dim(out), Cols(terms)) == Result.Ok(PlainOf(r.value))) &&
    (r.Err? ==> Running(ps, |terms|, Dim(out), Cols(terms)).Err? && r.error == NotImplementedError(NonzeroScalar))
  }

  /** `v + d.chain(output, x).tovalue()` for term `k`, `v` the running sum
      of the terms before it. */
  method AddChained(sparsity: bool, out: Option<nat>, terms: seq<Term>, k: nat, v: Evaluated) returns (s: Result<Evaluated>)
    requires Progress(sparsity, out, terms, k, Result.Ok(v)) && k < |terms|
    requires forall q :: 0 <= q < |terms| ==> terms[q].d.Valid()
    modifies terms[k].d
    ensures forall q :: 0 <= q < |terms| ==> terms[q].d.Valid()
    ensures Progress(sparsity, out, terms, k + 1, s)
  {
    var w := ChainedValue(sparsity, out, terms[k]);
    s := AddEvaluated(v, w);
    if s.Err? {
      RefusalSticks(Pieces(sparsity, out, terms), k + 1, |terms|, Dim(out), Cols(terms));
    }
  }

  /** The slow path of `fma`: `v = d.chain(output, x).tovalue()` for the
      first term, then `v = v + ...` for every further one, stopping at the
      first sum scipy refuses. */
  method SumChained(sparsity: bool, out: Option<nat>, terms: seq<Term>) returns (r: Result<Evaluated>)
    requires TermsOk(sparsity, out, terms)
    requires forall k :: 0 <= k < |terms| ==> terms[k].d.Valid()
    modifies set k | 0 <= k < |terms| :: terms[k].d
    ensures forall k :: 0 <= k < |terms| ==> terms[k].d.Valid()
    ensures r.Err? <==> SlowPath(sparsity, out, terms).Err?
    ensures r.Err? ==> r.error == NotImplementedError(NonzeroScalar)
    ensures r.Ok? ==> PlainOf(r.value) == SlowPath(sparsity, out, terms).value
    ensures r.Ok? && !Shared(terms) ==> r.value.MatrixValue?
  {
    var v := ChainedValue(sparsity, out, terms[0]);
    r := Result.Ok(v);
    var k := 1;
    while k < |terms| && r.Ok?
      invariant 1 <= k <= |terms|
      invariant forall q :: 0 <= q < |terms| ==> terms[q].d.Valid()
      invariant Progress(sparsity, out, terms, k, r)
    {
      var s := AddChained(sparsity, out, terms, k, r.value);
      assert Progress(sparsity, out, terms, k + 1, s);
      r, k := s, k + 1;
    }
    if r.Ok? && r.value.ScalarValue? {
      NumberMeansShared(sparsity, out, terms);
    }
  }

  /** The slow path of `fma` as a new `sdcsr`: when the terms hold
      different `M` objects, at least one of them is a matrix, so a sum
      scipy accepts is a matrix too. */
  method FmaUnshared(sparsity: bool, out: Option<nat>, terms: seq<Term>) returns (r: Result<Sdcsr>)
    requires TermsOk(sparsity, out, terms) && !Shared(terms)
    requires forall k :: 0 <= k < |terms| ==> terms[k].d.Valid()
    modifies set k | 0 <= k < |terms| :: terms[k].d
    ensures forall k :: 0 <= k < |terms| ==> terms[k].d.Valid()
    ensures r.Err? <==> SlowPath(sparsity, out, terms).Err?
    ensures r.Err? ==> r.error == NotImplementedError(NonzeroScalar)
    ensures r.Ok? ==> fresh(r.value) && r.value.Valid() && r.value.sparsity == sparsity
    ensures r.Ok? ==> r.value.mshape == MShape(out, terms[0].d.mshape.cols)
    ensures r.Ok? ==> r.value.Dense() == if sparsity then Pattern(FmaDense(sparsity, out, terms)) else FmaDense(sparsity, out, terms)
  {
    var v := SumChained(sparsity, out, terms);
    if v.Err? {
      return Err(v.error);
    }
    SlowPathSums(sparsity, out, terms);
    var d := FromMatrix(sparsity, MShape(out, terms[0].d.mshape.cols), v.value.m);
    r := Result.Ok(d);
  }

  /** `fma(output, *terms)`: the fast path when every term holds the same
      `M` object, otherwise the evaluated chained terms added up. */
  method Fma(sparsity: bool, out: Option<nat>, terms: seq<Term>) returns (r: Result<Sdcsr>)
    requires TermsOk(sparsity, out, terms)
    requires forall k :: 0 <= k < |terms| ==> terms[k].d.Valid()
    modifies set k | 0 <= k < |terms| :: terms[k].d
    ensures forall k :: 0 <= k < |terms| ==> terms[k].d.Valid()
    ensures r.Err? <==> FmaRefuses(sparsity, out, terms)
    ensures r.Err? ==> r.error == NotImplementedError(NonzeroScalar)
    ensures r.Ok? ==> fresh(r.value) && r.value.Valid() && r.value.sparsity == sparsity
    ensures r.Ok? ==> r.value.mshape == MShape(out, terms[0].d.mshape.cols)
    ensures r.Ok? ==> r.value.Dense() == if sparsity then Pattern(FmaDense(sparsity, out, terms)) else FmaDense(sparsity, out, terms)
    ensures Shared(terms) && out == terms[0].d.mshape.rows ==> r.Ok? && r.value.M == terms[0].d.M
    ensures Shared(terms) && out != terms[0].d.mshape.rows ==> r.Ok? && r.value.M != null
    ensures Shared(terms) && !sparsity ==> r.Ok? && r.value.Factor() == NumSum(Factors(out, terms), Dim(out))
  {
    var first := terms[0].d;
    if forall k | 1 <= k < |terms| :: terms[k].d.M == first.M {
      assert Shared(terms);
      var d := FmaShared(sparsity, out, terms);
      r := Result.Ok(d);
    } else {
      r := FmaUnshared(sparsity, out, terms);
    }
  }
}

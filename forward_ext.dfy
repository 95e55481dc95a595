/** The extended functions of `forward_value` (`dot_`, `sum`, `hstack`,
    `broadcast_to`, `sparsesum` with its `wrap` hook) and the seeds. */
module ForwardExtended {
  import opened Common
  import opened Matrices
  import opened ScaledMatrix
  import opened Forward
  import opened SparseVecs
  import Csr

  // ----- dot -----

  /** The left operand of `dot_`: a constant matrix or an expression. */
  datatype DotLeft = MatrixOperand(m: Matrix) | ExprOperand(e: ForwardValue)

  /** `dot_(A, x)`: only a constant matrix times a `forward_value` is
      supported; the Jacobian is `A` times the operand's. */
  method Dot(A: DotLeft, x: Arg) returns (r: Result<ForwardValue>)
    requires x.Var? ==> x.fv.Valid()
    requires A.MatrixOperand? && x.Var? ==> x.fv.value.Vec? && A.m.cols == |x.fv.value.vs|
    modifies if x.Var? then {x.fv.deriv} else {}
    ensures r.Err? <==> A.ExprOperand? || x.Const?
    ensures r.Err? ==> r.error.NotImplementedError?
    ensures r.Ok? ==> r.value.Valid() && r.value.deriv.sparsity == x.fv.deriv.sparsity
    ensures r.Ok? ==> r.value.value == Vec(MatVec(A.m, x.fv.value.vs))
    ensures r.Ok? ==>
      r.value.J() == (if x.fv.deriv.sparsity then Pattern(MatMul(Pattern(A.m), x.fv.J())) else MatMul(A.m, x.fv.J()))
  {
    if A.ExprOperand? || x.Const? {
      return Err(NotImplementedError("only supported dot(const,value)"));
    }
    var y := MatVec(A.m, x.fv.value.vs);
    var dy := x.fv.deriv.RDot(A.m);
    r := Ok(ForwardValue(Vec(y), dy));
  }

  /** At a seed the Jacobian of `A . x` is `A` itself, and its sparsity
      variant is the pattern of `A`. */
  lemma DotOfSeed(A: Matrix)
    ensures MatMul(A, Identity(A.cols)) == A
    ensures Pattern(MatMul(Pattern(A), Identity(A.cols))) == Pattern(A)
  {
    MatMulIdentity(A);
    MatMulIdentity(Pattern(A));
    PatternIsPattern(A);
    PatternOfPattern(Pattern(A));
  }

  // ----- sum -----

  /** `sum()`: the value is the sum of the elements, the Jacobian the row of
      column sums. */
  method Sum(a: ForwardValue) returns (r: ForwardValue)
    requires a.Valid()
    modifies a.deriv
    ensures r.Valid() && r.deriv.sparsity == a.deriv.sparsity && r.deriv.mshape.cols == a.deriv.mshape.cols
    ensures r.value == Scalar(Common.Sum(Elements(a.value)))
    ensures r.J() == if a.deriv.sparsity then Pattern(ColSums(a.J())) else ColSums(a.J())
  {
    var y := Common.Sum(Elements(a.value));
    var dy := a.deriv.ColumnSum();
    r := ForwardValue(Scalar(y), dy);
  }

  /** The gradient of `sum(x)` at a seed of length `n` is a row of ones
      (`ones(3)` gives `[[1, 1, 1]]`), in both variants. */
  lemma SumOfSeed(n: nat)
    ensures ColSums(Identity(n)) == Ones(1, n)
    ensures Pattern(ColSums(Identity(n))) == Ones(1, n)
  {
    forall j | 0 <= j < n
      ensures Common.Sum(Column(Identity(n), j)) == 1.0
    {
      SumSingle(Column(Identity(n), j), j);
    }
    Ext(ColSums(Identity(n)), Ones(1, n));
    PatternOfPattern(Ones(1, n));
  }

  // ----- hstack -----

  /** `np.hstack(nvalue(a) for a in arrays)`: the elements of all parts in order. */
  function StackedValue(arrays: seq<Arg>): seq<real> {
    if |arrays| == 0 then [] else Elements(NValue(arrays[0])) + StackedValue(arrays[1..])
  }

  /** The Jacobian `hstack` gives a part: its own, or a zero block of its
      length for a constant. */
  function PartJacobian(self: ForwardValue, a: Arg): (r: Matrix)
    requires self.deriv.Ok() && (a.Var? ==> a.fv.deriv.Ok())
  {
    match a
    case Var(fv) => fv.J()
    case Const(c) => ZeroJacobian(self.deriv.sparsity, ShapeOf(c), self.deriv.mshape.cols)
  }

  /** `zero(output)` as a matrix; the sparsity variant's 0-d zero is `[[1]]`. */
  function ZeroJacobian(sparsity: bool, out: Option<nat>, cols: Option<nat>): Matrix {
    if sparsity && out.None? && cols.None? then Identity(1) else Zeros(Dim(out), Dim(cols))
  }

  function PartJacobians(self: ForwardValue, arrays: seq<Arg>): (r: seq<Matrix>)
    requires self.deriv.Ok() && forall k :: 0 <= k < |arrays| ==> arrays[k].Var? ==> arrays[k].fv.deriv.Ok()
    ensures |r| == |arrays| && forall k :: 0 <= k < |arrays| ==> r[k] == PartJacobian(self, arrays[k])
  {
    seq(|arrays|, k requires 0 <= k < |arrays| => PartJacobian(self, arrays[k]))
  }

  /** Every part's Jacobian has the columns of `self`. */
  lemma PartJacobiansCols(self: ForwardValue, arrays: seq<Arg>)
    requires self.deriv.Ok()
    requires forall k :: 0 <= k < |arrays| ==> arrays[k].Var? ==>
      arrays[k].fv.deriv.Ok() && arrays[k].fv.deriv.mshape.cols == self.deriv.mshape.cols
    ensures AllCols(PartJacobians(self, arrays), self.deriv.Cols())
  {
  }

  /** The parts `hstack` can stack under `self`: valid, of one kind of
      Jacobian, with respect to the same variable. */
  predicate StackFits(self: ForwardValue, arrays: seq<Arg>)
    reads self.deriv, ArgDerivs(arrays)
  {
    self.Valid() &&
    forall k :: 0 <= k < |arrays| ==> arrays[k].Var? ==>
      arrays[k].fv.Valid() && arrays[k].fv.deriv.sparsity == self.deriv.sparsity &&
      arrays[k].fv.deriv.mshape.cols == self.deriv.mshape.cols
  }

  /** `self.hstack(arrays)`: the parts' values and Jacobian rows, in order;
      `np.hstack` of no parts is a `ValueError`. */
  method HStack(self: ForwardValue, arrays: seq<Arg>) returns (r: Result<ForwardValue>)
    requires StackFits(self, arrays)
    modifies ArgDerivs(arrays)
    ensures r.Err? <==> |arrays| == 0
    ensures r.Err? ==> r.error.ValueError?
    ensures r.Ok? ==> r.value.Valid() && fresh(r.value.deriv) && r.value.deriv.sparsity == self.deriv.sparsity
    ensures r.Ok? ==> r.value.deriv.mshape.cols == self.deriv.mshape.cols
    ensures r.Ok? ==> r.value.value == Vec(StackedValue(arrays))
    ensures r.Ok? ==> r.value.J() == Matrices.VStack(PartJacobians(self, arrays), self.deriv.Cols())
  {
    if |arrays| == 0 {
      return Err(ValueError("need at least one array to concatenate"));
    }
    var parts := StackParts(self, arrays);
    var ys := StackedValue(arrays);
    PartsDense(self, arrays, parts);
    StackedRows(self, arrays, parts);
    var dy := self.deriv.VStack(Some(|ys|), parts);
    r := Ok(ForwardValue(Vec(ys), dy));
  }

  /** `p` is what `hstack` stacks for the part `a`. */
  predicate PartOk(self: ForwardValue, a: Arg, p: Sdcsr)
    reads p
  {
    self.deriv.Ok() && (a.Var? ==> a.fv.deriv.Ok()) &&
    p.Valid() && p.sparsity == self.deriv.sparsity && p.Cols() == self.deriv.Cols() &&
    p.Rows() == Dim(ShapeOf(NValue(a))) && p.Dense() == PartJacobian(self, a)
  }

  /** The generator `deriv(a) for a in arrays` of `hstack`. */
  method StackParts(self: ForwardValue, arrays: seq<Arg>) returns (parts: seq<Sdcsr>)
    requires StackFits(self, arrays)
    ensures |parts| == |arrays| && forall k :: 0 <= k < |parts| ==> PartOk(self, arrays[k], parts[k])
    ensures forall k :: 0 <= k < |parts| ==> parts[k] in ArgDerivs(arrays) || fresh(parts[k])
  {
    parts := [];
    var k := 0;
    while k < |arrays|
      invariant 0 <= k <= |arrays| && |parts| == k
      invariant forall t :: 0 <= t < k ==> PartOk(self, arrays[t], parts[t])
      invariant forall t :: 0 <= t < k ==> parts[t] in ArgDerivs(arrays) || fresh(parts[t])
    {
      var p := PartFor(self, arrays[k]);
      assert arrays[k].Var? ==> arrays[k].fv.deriv in ArgDerivs(arrays);
      parts := parts + [p];
      k := k + 1;
    }
  }

  /** `deriv(a)`: the part's own Jacobian, or `self.deriv.zero(nvalue(a))`. */
  method PartFor(self: ForwardValue, a: Arg) returns (p: Sdcsr)
    requires self.Valid()
    requires a.Var? ==> a.fv.Valid() && a.fv.deriv.sparsity == self.deriv.sparsity
    requires a.Var? ==> a.fv.deriv.mshape.cols == self.deriv.mshape.cols
    ensures PartOk(self, a, p)
    ensures a.Var? ==> p == a.fv.deriv
    ensures a.Const? ==> fresh(p)
  {
    match a {
      case Var(fv) =>
        p := fv.deriv;
      case Const(c) =>
        p := self.deriv.Zero(ShapeOf(c));
    }
  }

  /** The Jacobians of the parts, or `hstack`'s zero blocks. */
  lemma PartsDense(self: ForwardValue, arrays: seq<Arg>, parts: seq<Sdcsr>)
    requires self.deriv.Ok() && forall k :: 0 <= k < |arrays| ==> arrays[k].Var? ==> arrays[k].fv.deriv.Ok()
    requires |parts| == |arrays| && forall k :: 0 <= k < |parts| ==> PartOk(self, arrays[k], parts[k])
    ensures AllOk(parts) && Denses(parts) == PartJacobians(self, arrays)
  {
  }

  /** The stacked parts have as many rows as the stacked value has elements. */
  lemma {:induction false} StackedRows(self: ForwardValue, arrays: seq<Arg>, parts: seq<Sdcsr>)
    requires |parts| == |arrays| && AllOk(parts)
    requires forall k :: 0 <= k < |arrays| ==> parts[k].Rows() == Dim(ShapeOf(NValue(arrays[k])))
    ensures TotalRows(Denses(parts)) == |StackedValue(arrays)|
  {
    if |arrays| > 0 {
      StackedRows(self, arrays[1..], parts[1..]);
      assert Denses(parts)[1..] == Denses(parts[1..]);
    }
  }

  /** `stack(f(x), 0)` has the Jacobian `[[df], [0]]`. */
  lemma StackWithZero(self: ForwardValue, f: ForwardValue, z: real)
    requires self.deriv.Ok() && f.deriv.Ok() && f.deriv.Cols() == self.deriv.Cols()
    requires !self.deriv.sparsity || self.deriv.mshape.cols.Some?
    ensures Matrices.VStack(PartJacobians(self, [Var(f), Const(Scalar(z))]), self.deriv.Cols()).e
      == f.J().e + Zeros(1, self.deriv.Cols()).e
  {
    var ps := PartJacobians(self, [Var(f), Const(Scalar(z))]);
    assert ps == [f.J(), Zeros(1, self.deriv.Cols())];
    VStackTwo(f.J(), Zeros(1, self.deriv.Cols()));
  }

  // ----- broadcast_to -----

  /** `broadcast_to(self, shape)`: `self` when the shape already matches,
      otherwise `np.ones(shape) * self`, so the value and the Jacobian
      rows are repeated to the broadcast shape. */
  method BroadcastTo(a: ForwardValue, shape: Option<nat>) returns (r: ForwardValue)
    requires a.Valid() && Broadcastable(a.value, OnesOf(shape))
    requires a.deriv.ChainOk(ShapeOf(Times(a.value, OnesOf(shape))), OnesOf(shape))
    ensures r.Valid() && r.deriv.sparsity == a.deriv.sparsity && r.deriv.mshape.cols == a.deriv.mshape.cols
    ensures ShapeOf(r.value) == BroadcastShape(a.value, OnesOf(shape))
    ensures a.value.Scalar? || ShapeOf(a.value) == shape || (|a.value.vs| == 1 && shape.Some?) ==>
      ShapeOf(r.value) == shape
    ensures forall i :: 0 <= i < Dim(ShapeOf(r.value)) ==>
      (a.value.Vec? ==> i < |a.value.vs| || |a.value.vs| == 1) && At(r.value, i) == At(a.value, i)
    ensures ShapeOf(a.value) == shape ==> r == a
    ensures r.J() == BroadcastRows(a.J(), Dim(ShapeOf(r.value)))
  {
    if ShapeOf(a.value) == shape {
      return a;
    }
    var ones := OnesOf(shape);
    r := MulConst(a, ones);
    forall i | 0 <= i < Dim(ShapeOf(r.value))
      ensures (a.value.Vec? ==> i < |a.value.vs| || |a.value.vs| == 1) && At(r.value, i) == At(a.value, i)
    {
      AtTimes(a.value, ones, i);
    }
    OnesChain(a.deriv.sparsity, a.J(), shape, Dim(ShapeOf(r.value)));
  }

  /** Chaining with a vector of ones only repeats rows. */
  lemma OnesChain(sparsity: bool, jac: Matrix, shape: Option<nat>, n: nat)
    requires CanBroadcastRows(jac, n) && (shape.Some? ==> Dim(shape) == n || Dim(shape) == 1)
    ensures ChainRule(sparsity, jac, OnesOf(shape), n) == BroadcastRows(jac, n)
  {
    if !sparsity {
      ScaleRowsOnes(BroadcastRows(jac, n));
      assert RowFactors(OnesOf(shape), n) == seq(n, _ => 1.0);
    }
  }

  // ----- seeds -----

  /** `seed(x)` (`sparsity` false) and `seed_sparsity(x)` (`sparsity`
      true): a vector gets the Jacobian `I_n` with `mshape (n, n)`, a 0-d
      value `mshape (None, None)` and the Jacobian `[[1]]`. */
  method Seed(x: Num, sparsity: bool) returns (r: ForwardValue)
    ensures r.Valid() && fresh(r.deriv) && r.value == x && r.deriv.sparsity == sparsity
    ensures r.deriv.mshape == MShape(ShapeOf(x), ShapeOf(x))
    ensures r.deriv.s == 1.0 && r.deriv.diag == Scalar(1.0) && r.deriv.M == null
    ensures r.J() == Identity(Dim(ShapeOf(x)))
  {
    var d := Make(sparsity, MShape(ShapeOf(x), ShapeOf(x)), 1.0, Scalar(1.0), null);
    if sparsity {
      PatternOfPattern(Identity(Dim(ShapeOf(x))));
    } else {
      UnitScaled(Identity(Dim(ShapeOf(x))));
    }
    r := ForwardValue(x, d);
  }

  // ----- sparsesum -----

  /** The Jacobian of `y` after `wrap`: the payload's Jacobian with each
      entry of row `r` moved to row `idx[r]`, columns unchanged; the
      result is an instance of the given class. */
  method Remap(sparsity: bool, idx: seq<int>, v: ForwardValue, y: seq<real>) returns (r: ForwardValue)
    requires v.Valid() && |idx| == v.deriv.Rows()
    modifies v.deriv
    ensures r.Valid() && fresh(r.deriv) && r.value == Vec(y) && r.deriv.sparsity == sparsity
    ensures r.deriv.mshape == MShape(Some(|y|), Some(v.deriv.Cols()))
    ensures r.J() == if sparsity then Pattern(RemapRows(v.J(), idx, |y|)) else RemapRows(v.J(), idx, |y|)
  {
    var e := v.deriv.ToValue();
    var m := new Mat(RemapRows(EvalDense(e), idx, |y|));
    var d := FromMatrix(sparsity, MShape(Some(|y|), Some(v.deriv.Cols())), m);
    r := ForwardValue(Vec(y), d);
  }

  /** The numeric view of forward terms: `nvalue` of every payload. */
  function NumericTerms(terms: seq<SparseVec<Arg>>): (r: seq<SparseVec<seq<real>>>)
    ensures |r| == |terms|
    ensures forall t :: 0 <= t < |terms| ==> r[t] == SparseVec(terms[t].n, terms[t].idx, Elements(NValue(terms[t].v)))
  {
    seq(|terms|, t requires 0 <= t < |terms| => SparseVec(terms[t].n, terms[t].idx, Elements(NValue(terms[t].v))))
  }

  function TermPayloads(terms: seq<SparseVec<Arg>>): (r: seq<Arg>)
    ensures |r| == |terms| && forall t :: 0 <= t < |terms| ==> r[t] == terms[t].v
  {
    seq(|terms|, t requires 0 <= t < |terms| => terms[t].v)
  }

  lemma {:induction false} StackedPayloads(terms: seq<SparseVec<Arg>>)
    ensures StackedValue(TermPayloads(terms)) == Payloads(NumericTerms(terms))
  {
    if |terms| > 0 {
      StackedPayloads(terms[1..]);
      assert TermPayloads(terms)[1..] == TermPayloads(terms[1..]);
      assert NumericTerms(terms)[1..] == NumericTerms(terms[1..]);
    }
  }

  lemma {:induction false} NumericIndices(terms: seq<SparseVec<Arg>>)
    ensures Indices(NumericTerms(terms)) == Indices(terms)
  {
    if |terms| > 0 {
      NumericIndices(terms[1..]);
      assert NumericTerms(terms)[1..] == NumericTerms(terms[1..]);
    }
  }

  /** Taking `nvalue` of the payloads changes neither the lengths nor the indices. */
  lemma PrepareNumeric(terms: seq<SparseVec<Arg>>, checkUnique: bool)
    ensures Indices(NumericTerms(terms)) == Indices(terms)
    ensures Prepare(NumericTerms(terms), checkUnique) == Prepare(terms, checkUnique)
  {
    NumericIndices(terms);
    if |terms| > 0 {
      assert SameLength(NumericTerms(terms)) == SameLength(terms);
    }
  }

  /** The stacked Jacobian of the payloads, as `self.hstack` builds it. */
  function StackedJacobian(self: ForwardValue, terms: seq<SparseVec<Arg>>): Matrix
    requires self.deriv.Ok()
    requires forall t :: 0 <= t < |terms| ==> terms[t].v.Var? ==>
      terms[t].v.fv.deriv.Ok() && terms[t].v.fv.deriv.mshape.cols == self.deriv.mshape.cols
  {
    Matrices.VStack(PartJacobians(self, TermPayloads(terms)), self.deriv.Cols())
  }

  /** A merged value whose Jacobian is `stacked` with row `r` moved to row
      `pos[r]`, in the class of `self`. */
  predicate RemappedFrom(fv: ForwardValue, self: ForwardValue, stacked: Matrix, pos: seq<int>)
    requires fv.deriv.Ok()
  {
    |pos| == stacked.rows &&
    fv.J() == (var m := RemapRows(stacked, pos, |Elements(fv.value)|); if self.deriv.sparsity then Pattern(m) else m)
  }

  /** `self.sparsesum(terms, ...)`: the merge of `sparsevec`s with
      `hstack = self.hstack`, `nvalue` and the row-remapping `wrap`. The
      value is the numeric merge of the payloads' values; the Jacobian is
      the stacked payload Jacobian with its rows remapped. */
  method SparseSum(self: ForwardValue, terms: seq<SparseVec<Arg>>, checkUnique: bool, returnSparse: bool)
    returns (r: Result<Merged<ForwardValue>>)
    requires StackFits(self, TermPayloads(terms)) && PayloadsFit(NumericTerms(terms))
    modifies ArgDerivs(TermPayloads(terms))
    ensures r.Err? <==> Prepare(terms, checkUnique).Err?
    ensures r.Err? ==> r.error == Prepare(terms, checkUnique).error
    ensures r.Ok? && !returnSparse ==>
      r.value.DenseMerge? && r.value.y.Valid() && r.value.y.deriv.sparsity == self.deriv.sparsity &&
      SparseVecs.SparseSum(NumericTerms(terms), KeepDense, checkUnique, false) == Ok(DenseMerge(Elements(r.value.y.value))) &&
      RemappedFrom(r.value.y, self, StackedJacobian(self, terms), Indices(terms))
    ensures r.Ok? && returnSparse ==>
      r.value.SparseMerge? && r.value.sv.v.Valid() && r.value.sv.v.deriv.sparsity == self.deriv.sparsity &&
      SparseVecs.SparseSum(NumericTerms(terms), KeepDense, checkUnique, true)
        == Ok(SparseMerge(SparseVec(r.value.sv.n, r.value.sv.idx, Elements(r.value.sv.v.value)))) &&
      RemappedFrom(r.value.sv.v, self, StackedJacobian(self, terms),
        Compress(Unique(Indices(terms)), Indices(terms)))
  {
    var p := Prepare(terms, checkUnique);
    if p.Err? {
      return Err(p.error);
    }
    if returnSparse {
      var sv := SparseSumCompressed(self, terms, checkUnique);
      r := Ok(SparseMerge(sv));
    } else {
      var y := SparseSumDense(self, terms, checkUnique);
      r := Ok(DenseMerge(y));
    }
  }

  /** The dense branch of `self.sparsesum`: `wrap` on the whole `n` rows. */
  method SparseSumDense(self: ForwardValue, terms: seq<SparseVec<Arg>>, checkUnique: bool) returns (y: ForwardValue)
    requires StackFits(self, TermPayloads(terms)) && PayloadsFit(NumericTerms(terms))
    requires Prepare(terms, checkUnique).Ok?
    modifies ArgDerivs(TermPayloads(terms))
    ensures y.Valid() && y.deriv.sparsity == self.deriv.sparsity
    ensures SparseVecs.SparseSum(NumericTerms(terms), KeepDense, checkUnique, false) == Ok(DenseMerge(Elements(y.value)))
    ensures RemappedFrom(y, self, StackedJacobian(self, terms), Indices(terms))
  {
    var n := Prepare(terms, checkUnique).value;
    PrepareNumeric(terms, checkUnique);
    MergeValues(NumericTerms(terms), checkUnique);
    StackedPayloads(terms);
    var hv := HStack(self, TermPayloads(terms));
    y := Remap(self.deriv.sparsity, Indices(terms), hv.value, Scatter(n, Indices(terms), StackedValue(TermPayloads(terms))));
  }

  /** The compressed branch of `self.sparsesum`: `wrap` on the unique indices. */
  method SparseSumCompressed(self: ForwardValue, terms: seq<SparseVec<Arg>>, checkUnique: bool)
    returns (sv: SparseVec<ForwardValue>)
    requires StackFits(self, TermPayloads(terms)) && PayloadsFit(NumericTerms(terms))
    requires Prepare(terms, checkUnique).Ok?
    modifies ArgDerivs(TermPayloads(terms))
    ensures sv.v.Valid() && sv.v.deriv.sparsity == self.deriv.sparsity
    ensures SparseVecs.SparseSum(NumericTerms(terms), KeepDense, checkUnique, true)
      == Ok(SparseMerge(SparseVec(sv.n, sv.idx, Elements(sv.v.value))))
    ensures RemappedFrom(sv.v, self, StackedJacobian(self, terms), Compress(Unique(Indices(terms)), Indices(terms)))
  {
    var n := Prepare(terms, checkUnique).value;
    PrepareNumeric(terms, checkUnique);
    MergeValues(NumericTerms(terms), checkUnique);
    StackedPayloads(terms);
    var hv := HStack(self, TermPayloads(terms));
    sv := MergeCompressed(self, Indices(terms), hv.value, n);
  }

  /** `process_compressed` with the forward `wrap`. */
  method MergeCompressed(self: ForwardValue, idx: seq<int>, v: ForwardValue, n: nat) returns (sv: SparseVec<ForwardValue>)
    requires v.Valid() && v.value.Vec? && |idx| == |v.value.vs| == v.deriv.Rows()
    modifies v.deriv
    ensures sv.n == n && sv.idx == Unique(idx) && sv.v.Valid() && sv.v.deriv.sparsity == self.deriv.sparsity
    ensures sv.v.value == Vec(Scatter(|Unique(idx)|, Compress(Unique(idx), idx), v.value.vs))
    ensures RemappedFrom(sv.v, self, v.J(), Compress(Unique(idx), idx))
  {
    var cidx := Unique(idx);
    var pos := Compress(cidx, idx);
    var w := Remap(self.deriv.sparsity, pos, v, Scatter(|cidx|, pos, v.value.vs));
    sv := SparseVec(n, cidx, w);
  }

  /** Entries landing on the same row add up: remapping two stacked blocks
      is the sum of remapping each. */
  lemma RemapStacked(a: Matrix, b: Matrix, ia: seq<int>, ib: seq<int>, n: nat)
    requires a.cols == b.cols && |ia| == a.rows && |ib| == b.rows
    ensures VStack([a, b], a.cols).rows == |ia + ib|
    ensures RemapRows(VStack([a, b], a.cols), ia + ib, n) == Add(RemapRows(a, ia, n), RemapRows(b, ib, n))
  {
    var s := VStack([a, b], a.cols);
    VStackTwo(a, b);
    var l, r := RemapRows(s, ia + ib, n), Add(RemapRows(a, ia, n), RemapRows(b, ib, n));
    forall i, j | 0 <= i < n && 0 <= j < a.cols
      ensures l.e[i][j] == r.e[i][j]
    {
      assert Column(s, j) == Column(a, j) + Column(b, j);
      ScatterAtAppend(ia, Column(a, j), ib, Column(b, j), i);
    }
    Ext(l, r);
  }

  /** Merging a seed of length `m` with itself gives the diagonal 2. */
  lemma SeedMergedWithItself(m: nat)
    ensures VStack([Identity(m), Identity(m)], m).rows == 2 * m
    ensures RemapRows(VStack([Identity(m), Identity(m)], m), Csr.Range(m) + Csr.Range(m), m) == Scale(2.0, Identity(m))
  {
    RemapStacked(Identity(m), Identity(m), Csr.Range(m), Csr.Range(m), m);
    var one := RemapRows(Identity(m), Csr.Range(m), m);
    forall i, j | 0 <= i < m && 0 <= j < m
      ensures one.e[i][j] == Identity(m).e[i][j]
    {
      ScatterDistinct(Csr.Range(m), Column(Identity(m), j), i);
    }
    Ext(one, Identity(m));
    Ext(Add(one, one), Scale(2.0, Identity(m)));
  }
}

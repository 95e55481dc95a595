/** The earlier `sparsesum` of `sparsegrad/sparsevec.py`: the same
    scatter-add merge with the Jacobian row remap built in, no uniqueness
    check, and a `compress` flag in place of `return_sparse`. */
module LegacySparseVec {
  import opened Common
  import opened Matrices
  import opened Forward
  import opened ForwardExtended
  import opened SparseVecs
  import opened SparseVecBare

  /** `sparsesum(terms, compress)` for numeric payloads: `terms[0]` of no
      terms is an `IndexError`, terms of differing length a `ValueError`. */
  function SparseSum(terms: seq<SparseVec<seq<real>>>, compress: bool): (r: Result<Merged<seq<real>>>)
    requires PayloadsFit(terms)
    ensures |terms| == 0 ==> r == Err(IndexError)
    ensures |terms| > 0 ==> (r.Err? <==> !SameLength(terms))
    ensures |terms| > 0 && r.Err? ==> r.error == ValueError("different shapes of terms")
  {
    if |terms| == 0 then Err(IndexError)
    else
      var n := terms[0].n;
      if !SameLength(terms) then Err(ValueError("different shapes of terms"))
      else
        IndicesFit(terms, n);
        var idx, v := Indices(terms), Payloads(terms);
        if compress then
          var cidx := Unique(idx);
          Ok(SparseMerge(SparseVec(n, cidx, Scatter(|cidx|, Compress(cidx, idx), v))))
        else
          Ok(DenseMerge(Scatter(n, idx, v)))
  }

  /** The earlier merge is the current one with `check_unique=False`. */
  lemma MatchesCurrent(terms: seq<SparseVec<seq<real>>>, compress: bool)
    requires PayloadsFit(terms)
    ensures SparseSum(terms, compress) == SparseVecs.SparseSum(terms, KeepDense, false, compress)
  {
    if |terms| > 0 && SameLength(terms) {
      MergeValues(terms, false);
    }
  }

  /** With `compress`, each index is replaced by its position in
      `cidx = unique(idx)`, so every remapped index is below `len(cidx)`;
      the result keeps the shape `(n,)`. */
  lemma CompressedPositions(terms: seq<SparseVec<seq<real>>>)
    requires PayloadsFit(terms) && SparseSum(terms, true).Ok?
    ensures var sv := SparseSum(terms, true).value.sv;
      sv.n == terms[0].n && sv.idx == Unique(Indices(terms)) && |sv.v| == |sv.idx| &&
      StrictlySorted(sv.idx) && Elems(sv.idx) == Elems(Indices(terms))
    ensures forall t :: 0 <= t < |Indices(terms)| ==>
      0 <= Compress(Unique(Indices(terms)), Indices(terms))[t] < |Unique(Indices(terms))|
  {
  }

  /** `sparsesum_bare(n, terms, unique, compress)`: `zeros(n)` for no terms,
      `(idx, v)` of the compressed merge, or the dense merge. Pairs wrapped
      with one length never fail the shape check. */
  function SparseSumBare(n: nat, pairs: seq<(seq<int>, seq<real>)>, unique: bool, compress: bool): (r: Result<Bare>)
    requires PairsFit(n, pairs)
    ensures r.Ok?
    ensures |pairs| == 0 ==> r.value == DenseVector(ZeroVector(n))
    ensures r.value.IdxValues? <==> |pairs| > 0 && compress
  {
    if |pairs| == 0 then Ok(DenseVector(ZeroVector(n)))
    else
      WrappedFit(n, pairs);
      match SparseSum(Wrapped(n, pairs), compress)
      case Err(e) => Err(e)
      case Ok(DenseMerge(y)) => Ok(DenseVector(y))
      case Ok(SparseMerge(sv)) => Ok(IdxValues(sv.idx, sv.v))
  }

  /** The `unique` argument is ignored: the earlier wrapper agrees with the
      current one without its uniqueness check. */
  lemma BareIgnoresUnique(n: nat, pairs: seq<(seq<int>, seq<real>)>, unique: bool, compress: bool)
    requires PairsFit(n, pairs)
    ensures SparseSumBare(n, pairs, unique, compress) == SparseVecBare.SparseSumBare(n, pairs, compress, false)
  {
    if |pairs| > 0 {
      WrappedFit(n, pairs);
      MatchesCurrent(Wrapped(n, pairs), compress);
    }
  }

  // ----- differentiable payloads -----

  /** A merged value whose Jacobian is `stacked` with payload row `r` moved
      to row `pos[r]` and the columns unchanged, as a standard `sdcsr`. */
  predicate RowsMoved(fv: ForwardValue, stacked: Matrix, pos: seq<int>)
    requires fv.deriv.Ok()
  {
    !fv.deriv.sparsity && |pos| == stacked.rows &&
    fv.J() == RemapRows(stacked, pos, |Elements(fv.value)|)
  }

  /** `sparsesum(terms, compress)` whose stacked payload is a
      `forward_value`: `hstack` is that of `self`, the payload that routing
      picks, and `process_dense` rebuilds the Jacobian with its rows moved. */
  method SparseSumForward(self: ForwardValue, terms: seq<SparseVec<Arg>>, compress: bool)
    returns (r: Result<Merged<ForwardValue>>)
    requires StackFits(self, TermPayloads(terms)) && PayloadsFit(NumericTerms(terms))
    modifies ArgDerivs(TermPayloads(terms))
    ensures r.Err? <==> SparseSum(NumericTerms(terms), compress).Err?
    ensures r.Err? ==> r.error == SparseSum(NumericTerms(terms), compress).error
    ensures r.Ok? && !compress ==>
      r.value.DenseMerge? && r.value.y.Valid() &&
      SparseSum(NumericTerms(terms), false) == Ok(DenseMerge(Elements(r.value.y.value))) &&
      RowsMoved(r.value.y, StackedJacobian(self, terms), Indices(terms))
    ensures r.Ok? && compress ==>
      r.value.SparseMerge? && r.value.sv.v.Valid() &&
      SparseSum(NumericTerms(terms), true) == Ok(SparseMerge(SparseVec(r.value.sv.n, r.value.sv.idx, Elements(r.value.sv.v.value)))) &&
      RowsMoved(r.value.sv.v, StackedJacobian(self, terms), Compress(Unique(Indices(terms)), Indices(terms)))
  {
    if |terms| == 0 {
      return Err(IndexError);
    }
    PrepareNumeric(terms, false);
    if !SameLength(terms) {
      assert !SameLength(NumericTerms(terms));
      return Err(ValueError("different shapes of terms"));
    }
    assert SameLength(NumericTerms(terms));
    if compress {
      var sv := ForwardCompressed(self, terms);
      r := Ok(SparseMerge(sv));
    } else {
      var y := ForwardDense(self, terms);
      r := Ok(DenseMerge(y));
    }
  }

  /** `process_dense(n, idx, v)` on the stacked `forward_value`. */
  method ForwardDense(self: ForwardValue, terms: seq<SparseVec<Arg>>) returns (y: ForwardValue)
    requires StackFits(self, TermPayloads(terms)) && PayloadsFit(NumericTerms(terms))
    requires |terms| > 0 && SameLength(NumericTerms(terms))
    modifies ArgDerivs(TermPayloads(terms))
    ensures y.Valid()
    ensures SparseSum(NumericTerms(terms), false) == Ok(DenseMerge(Elements(y.value)))
    ensures RowsMoved(y, StackedJacobian(self, terms), Indices(terms))
  {
    var n := terms[0].n;
    PrepareNumeric(terms, false);
    IndicesFit(NumericTerms(terms), n);
    StackedPayloads(terms);
    var hv := HStack(self, TermPayloads(terms));
    y := Remap(false, Indices(terms), hv.value, Scatter(n, Indices(terms), StackedValue(TermPayloads(terms))));
  }

  /** `process_compressed(n, idx, v)` on the stacked `forward_value`. */
  method ForwardCompressed(self: ForwardValue, terms: seq<SparseVec<Arg>>) returns (sv: SparseVec<ForwardValue>)
    requires StackFits(self, TermPayloads(terms)) && PayloadsFit(NumericTerms(terms))
    requires |terms| > 0 && SameLength(NumericTerms(terms))
    modifies ArgDerivs(TermPayloads(terms))
    ensures sv.v.Valid()
    ensures SparseSum(NumericTerms(terms), true) == Ok(SparseMerge(SparseVec(sv.n, sv.idx, Elements(sv.v.value))))
    ensures RowsMoved(sv.v, StackedJacobian(self, terms), Compress(Unique(Indices(terms)), Indices(terms)))
  {
    var n := terms[0].n;
    PrepareNumeric(terms, false);
    IndicesFit(NumericTerms(terms), n);
    StackedPayloads(terms);
    var hv := HStack(self, TermPayloads(terms));
    var cidx := Unique(Indices(terms));
    var pos := Compress(cidx, Indices(terms));
    var w := Remap(false, pos, hv.value, Scatter(|cidx|, pos, StackedValue(TermPayloads(terms))));
    sv := SparseVec(n, cidx, w);
  }
}

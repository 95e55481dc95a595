/** `sparsesum_bare`: the merge of plain `(idx, v)` pairs of numbers into a
    vector of length `n`, each pair wrapped as a `sparsevec` first. A pair
    whose index or value is a Python scalar is the one-element pair here. */
module SparseVecBare {
  import opened Common
  import opened SparseVecs

  /** What `sparsesum_bare` returns: a dense vector, or the pair
      `(result.idx, result.v)` of the compressed merge. */
  datatype Bare = DenseVector(y: seq<real>) | IdxValues(idx: seq<int>, v: seq<real>)

  /** `sparsevec(n, idx, v) for idx, v in terms`, in order. */
  function Wrapped(n: nat, pairs: seq<(seq<int>, seq<real>)>): (r: seq<SparseVec<seq<real>>>)
    ensures |r| == |pairs|
    ensures forall t :: 0 <= t < |pairs| ==> r[t] == SparseVec(n, pairs[t].0, pairs[t].1)
  {
    seq(|pairs|, t requires 0 <= t < |pairs| => SparseVec(n, pairs[t].0, pairs[t].1))
  }

  /** `np.zeros(n)`. */
  function ZeroVector(n: nat): (z: seq<real>)
    ensures |z| == n && forall j :: 0 <= j < n ==> z[j] == 0.0
  {
    seq(n, _ => 0.0)
  }

  /** Every pair has as many values as indices, and indices below `n`. */
  predicate PairsFit(n: nat, pairs: seq<(seq<int>, seq<real>)>) {
    forall t :: 0 <= t < |pairs| ==> |pairs[t].0| == |pairs[t].1| && InBounds(pairs[t].0, n)
  }

  lemma WrappedFit(n: nat, pairs: seq<(seq<int>, seq<real>)>)
    requires PairsFit(n, pairs)
    ensures PayloadsFit(Wrapped(n, pairs))
    ensures |pairs| > 0 ==> SameLength(Wrapped(n, pairs)) && Wrapped(n, pairs)[0].n == n
  {
  }

  /** `sparsesum_bare(n, terms, return_sparse, check_unique=...)`: no terms
      give `zeros(n)` without merging; otherwise the merge of the wrapped
      pairs, whose only possible error is the uniqueness check passed on to it. */
  function SparseSumBare(n: nat, pairs: seq<(seq<int>, seq<real>)>, returnSparse: bool, checkUnique: bool)
    : (r: Result<Bare>)
    requires PairsFit(n, pairs)
    ensures |pairs| == 0 ==> r == Ok(DenseVector(ZeroVector(n)))
    ensures r.Err? <==> |pairs| > 0 && checkUnique && !Distinct(Indices(Wrapped(n, pairs)))
    ensures r.Err? ==> r.error == ValueError("indices not unique")
    ensures r.Ok? ==> (r.value.IdxValues? <==> |pairs| > 0 && returnSparse)
  {
    if |pairs| == 0 then Ok(DenseVector(ZeroVector(n)))
    else
      WrappedFit(n, pairs);
      match SparseSum(Wrapped(n, pairs), KeepDense, checkUnique, returnSparse)
      case Err(e) => Err(e)
      case Ok(DenseMerge(y)) => Ok(DenseVector(y))
      case Ok(SparseMerge(sv)) => Ok(IdxValues(sv.idx, sv.v))
  }

  /** The dense result holds, at every `j < n`, the sum of the values whose
      index is `j`; this covers the empty term list, whose sum is zero. */
  lemma BareDense(n: nat, pairs: seq<(seq<int>, seq<real>)>, checkUnique: bool)
    requires PairsFit(n, pairs) && SparseSumBare(n, pairs, false, checkUnique).Ok?
    ensures |Payloads(Wrapped(n, pairs))| == |Indices(Wrapped(n, pairs))|
    ensures var r := SparseSumBare(n, pairs, false, checkUnique).value;
      r.DenseVector? && |r.y| == n &&
      forall j :: 0 <= j < n ==> r.y[j] == ScatterAt(Indices(Wrapped(n, pairs)), Payloads(Wrapped(n, pairs)), j)
  {
    WrappedFit(n, pairs);
    IndicesFit(Wrapped(n, pairs), n);
    if |pairs| > 0 {
      MergeValues(Wrapped(n, pairs), checkUnique);
    }
  }

  /** The compressed result: the sorted occurring indices, each with the sum
      of the values sent to it. */
  lemma BareCompressed(n: nat, pairs: seq<(seq<int>, seq<real>)>, checkUnique: bool)
    requires PairsFit(n, pairs) && |pairs| > 0 && SparseSumBare(n, pairs, true, checkUnique).Ok?
    ensures |Payloads(Wrapped(n, pairs))| == |Indices(Wrapped(n, pairs))|
    ensures var r := SparseSumBare(n, pairs, true, checkUnique).value;
      r.IdxValues? && r.idx == Unique(Indices(Wrapped(n, pairs))) &&
      StrictlySorted(r.idx) && Elems(r.idx) == Elems(Indices(Wrapped(n, pairs))) && |r.v| == |r.idx| &&
      forall i :: 0 <= i < |r.idx| ==> r.v[i] == ScatterAt(Indices(Wrapped(n, pairs)), Payloads(Wrapped(n, pairs)), r.idx[i])
  {
    WrappedFit(n, pairs);
    CompressedMergeSums(Wrapped(n, pairs), checkUnique);
  }

  /** `sparsesum(10, [(0, 1), (0, 1), (3, -1)], return_sparse=True)` is
      `([0, 3], [2, -1])`. */
  lemma CompressedExample(pairs: seq<(seq<int>, seq<real>)>)
    requires pairs == [([0], [1.0]), ([0], [1.0]), ([3], [-1.0])]
    ensures SparseSumBare(10, pairs, true, false) == Ok(IdxValues([0, 3], [2.0, -1.0]))
  {
    assert PairsFit(10, pairs) by {
      assert pairs[0].0 == [0] && pairs[1].0 == [0] && pairs[2].0 == [3];
    }
    var r := SparseSumBare(10, pairs, true, false);
    assert r.Ok? && r.value.IdxValues? && r.value.idx == [0, 3] && |r.value.v| == 2 &&
      r.value.v[0] == 2.0 && r.value.v[1] == -1.0 by {
      ExamplePieces(pairs);
      ExampleSums();
      BareCompressed(10, pairs, false);
    }
    PairOfElements(r.value.v, 2.0, -1.0);
  }

  lemma PairOfElements(s: seq<real>, a: real, b: real)
    requires |s| == 2 && s[0] == a && s[1] == b
    ensures s == [a, b]
  {
  }

  lemma ExamplePieces(pairs: seq<(seq<int>, seq<real>)>)
    requires pairs == [([0], [1.0]), ([0], [1.0]), ([3], [-1.0])]
    ensures Indices(Wrapped(10, pairs)) == [0, 0, 3] && Payloads(Wrapped(10, pairs)) == [1.0, 1.0, -1.0]
    ensures Unique([0, 0, 3]) == [0, 3]
  {
    var w := Wrapped(10, pairs);
    assert w[1..][1..] == w[2..] && w[2..][1..] == [];
    assert Indices(w[2..]) == [3] && Payloads(w[2..]) == [-1.0];
    ExampleUnique();
  }

  lemma ExampleUnique()
    ensures Unique([0, 0, 3]) == [0, 3]
  {
    var idx := [0, 0, 3];
    assert idx[..2] == [0, 0] && idx[..2][..1] == [0] && [0][..0] == [];
    assert Unique([0]) == [0];
    assert Unique([0, 0]) == [0];
  }

  lemma ExampleSums()
    ensures ScatterAt([0, 0, 3], [1.0, 1.0, -1.0], 0) == 2.0
    ensures ScatterAt([0, 0, 3], [1.0, 1.0, -1.0], 3) == -1.0
  {
    assert [0, 0, 3][1..] == [0, 3] && [0, 3][1..] == [3] && [3][1..] == [];
    assert [1.0, 1.0, -1.0][1..] == [1.0, -1.0] && [1.0, -1.0][1..] == [-1.0] && [-1.0][1..] == [];
  }

  /** `sparsesum(1, [(zeros(2), ones(2)), (zeros(1), ones(1))])` is `3`:
      duplicates add up in the dense merge. */
  lemma DenseExample()
    ensures SparseSumBare(1, [([0, 0], [1.0, 1.0]), ([0], [1.0])], false, false) == Ok(DenseVector([3.0]))
  {
    var pairs := [([0, 0], [1.0, 1.0]), ([0], [1.0])];
    var w := Wrapped(1, pairs);
    assert Indices(w) == [0, 0, 0] by {
      assert Indices(w[1..]) == [0] by { assert w[1..][1..] == []; }
    }
    assert Payloads(w) == [1.0, 1.0, 1.0] by {
      assert Payloads(w[1..]) == [1.0] by { assert w[1..][1..] == []; }
    }
    var idx, v := [0, 0, 0], [1.0, 1.0, 1.0];
    assert Scatter(1, idx, v) == [3.0] by {
      assert idx[1..] == [0, 0] && idx[1..][1..] == [0] && idx[1..][1..][1..] == [];
      assert v[1..] == [1.0, 1.0] && v[1..][1..] == [1.0] && v[1..][1..][1..] == [];
      assert ScatterAt(idx, v, 0) == 3.0;
    }
  }
}

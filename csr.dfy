/** Compressed sparse row storage: the three arrays `data`, `indices` and
    `indptr` of a scipy CSR matrix, and the row extraction built on them. */
module Csr {
  import opened Common
  import opened Matrices

  datatype Csr = Csr(data: seq<real>, indices: seq<int>, indptr: seq<int>, nrows: nat, ncols: nat)

  /** A well-formed CSR triple: `indptr` starts at 0, never decreases and ends
      at the number of stored entries; every column index is in range. */
  predicate Valid(c: Csr) {
    |c.indptr| == c.nrows + 1 && c.indptr[0] == 0 &&
    (forall i, j :: 0 <= i <= j <= c.nrows ==> c.indptr[i] <= c.indptr[j]) &&
    c.indptr[c.nrows] == |c.data| && |c.indices| == |c.data| &&
    forall k :: 0 <= k < |c.indices| ==> 0 <= c.indices[k] < c.ncols
  }

  /** The number of entries stored for row `i`. */
  function RowLen(c: Csr, i: nat): nat
    requires Valid(c) && i < c.nrows
  {
    c.indptr[i + 1] - c.indptr[i]
  }

  function RowIndices(c: Csr, i: nat): seq<int>
    requires Valid(c) && i < c.nrows
  {
    c.indices[c.indptr[i]..c.indptr[i + 1]]
  }

  function RowData(c: Csr, i: nat): seq<real>
    requires Valid(c) && i < c.nrows
  {
    c.data[c.indptr[i]..c.indptr[i + 1]]
  }

  /** The matrix a CSR triple stands for; repeated column indices in a row add up. */
  function ToDense(c: Csr): (r: Matrix)
    requires Valid(c)
    ensures r.rows == c.nrows && r.cols == c.ncols
    ensures forall i, j :: 0 <= i < c.nrows && 0 <= j < c.ncols ==>
      r.e[i][j] == ScatterAt(RowIndices(c, i), RowData(c, i), j)
  {
    Mx(c.nrows, c.ncols, seq(c.nrows, i requires 0 <= i < c.nrows =>
      seq(c.ncols, j requires 0 <= j < c.ncols => ScatterAt(RowIndices(c, i), RowData(c, i), j))))
  }

  function Range(n: nat): (r: seq<int>)
    ensures |r| == n && forall i :: 0 <= i < n ==> r[i] == i
  {
    seq(n, i => i)
  }

  /** Lengths of the rows `rows` of `c`, summed up in a buffer of
      `len(rows) + 1` entries starting with 0 (`np.cumsum(count, out=indptr[1:])`). */
  method CumulativeCounts(c: Csr, rows: seq<int>) returns (indptr: seq<int>)
    requires Valid(c)
    requires forall k :: 0 <= k < |rows| ==> 0 <= rows[k] < c.nrows
    ensures |indptr| == |rows| + 1 && indptr[0] == 0
    ensures forall i :: 0 <= i < |rows| ==> indptr[i + 1] - indptr[i] == RowLen(c, rows[i])
    ensures forall i, j :: 0 <= i <= j <= |rows| ==> indptr[i] <= indptr[j]
  {
    var buf := new int[|rows| + 1];
    buf[0] := 0;
    var i := 0;
    while i < |rows|
      invariant 0 <= i <= |rows|
      invariant buf[0] == 0
      invariant forall q :: 0 <= q < i ==> buf[q + 1] - buf[q] == RowLen(c, rows[q])
      invariant forall p, q :: 0 <= p <= q <= i ==> buf[p] <= buf[q]
    {
      buf[i + 1] := buf[i] + RowLen(c, rows[i]);
      i := i + 1;
    }
    indptr := buf[..];
  }

  /** The run structure `sample_csr_rows` promises: `indptr` accumulates the
      row lengths and `ix` lists, row after row, their storage positions. */
  predicate Sampled(c: Csr, rows: seq<int>, indptr: seq<int>, ix: seq<int>)
    requires Valid(c) && forall k :: 0 <= k < |rows| ==> 0 <= rows[k] < c.nrows
  {
    |indptr| == |rows| + 1 && indptr[0] == 0 &&
    (forall i :: 0 <= i < |rows| ==> indptr[i + 1] - indptr[i] == RowLen(c, rows[i])) &&
    (forall i, j :: 0 <= i <= j <= |rows| ==> indptr[i] <= indptr[j]) &&
    |ix| == indptr[|rows|] &&
    forall i, p :: 0 <= i < |rows| && indptr[i] <= p < indptr[i + 1] ==>
      ix[p] == c.indptr[rows[i]] + (p - indptr[i])
  }

  /** `(indptr, ix)` such that `c[rows]` is the triple `(c.data[ix], c.indices[ix], indptr)`:
      `indptr` is the running total of the selected rows' lengths and `ix`
      lists, row after row, the storage positions of the selected rows. */
  method SampleCsrRows(c: Csr, rows: seq<int>) returns (indptr: seq<int>, ix: seq<int>)
    requires Valid(c)
    requires forall k :: 0 <= k < |rows| ==> 0 <= rows[k] < c.nrows
    ensures |indptr| == |rows| + 1 && indptr[0] == 0
    ensures forall i :: 0 <= i < |rows| ==> indptr[i + 1] - indptr[i] == RowLen(c, rows[i])
    ensures forall i, j :: 0 <= i <= j <= |rows| ==> indptr[i] <= indptr[j]
    ensures |ix| == indptr[|rows|]
    ensures forall i, p :: 0 <= i < |rows| && indptr[i] <= p < indptr[i + 1] ==>
      ix[p] == c.indptr[rows[i]] + (p - indptr[i])
  {
    indptr := CumulativeCounts(c, rows);
    ix := [];
    var i := 0;
    while i < |rows|
      invariant 0 <= i <= |rows|
      invariant |ix| == indptr[i]
      invariant forall q, p :: 0 <= q < i && indptr[q] <= p < indptr[q + 1] ==>
        ix[p] == c.indptr[rows[q]] + (p - indptr[q])
    {
      var start := c.indptr[rows[i]];
      var run := seq(RowLen(c, rows[i]), k => start + k);
      ix := ix + run;
      i := i + 1;
    }
  }

  /** Every position `ix` lists is a storage position of `c`. */
  lemma SampledInRange(c: Csr, rows: seq<int>, indptr: seq<int>, ix: seq<int>)
    requires Valid(c) && forall k :: 0 <= k < |rows| ==> 0 <= rows[k] < c.nrows
    requires Sampled(c, rows, indptr, ix)
    ensures forall p :: 0 <= p < |ix| ==> 0 <= ix[p] < |c.data|
  {
    forall p | 0 <= p < |ix|
      ensures 0 <= ix[p] < |c.data|
    {
      var i := RowOf(indptr, p);
      assert indptr[i] <= p < indptr[i + 1];
      assert ix[p] == c.indptr[rows[i]] + (p - indptr[i]);
      assert c.indptr[rows[i] + 1] <= c.indptr[c.nrows];
    }
  }

  /** The gathered triple is a well-formed CSR matrix. */
  lemma GatheredValid(c: Csr, rows: seq<int>, r: Csr, ix: seq<int>)
    requires Valid(c) && forall k :: 0 <= k < |rows| ==> 0 <= rows[k] < c.nrows
    requires Sampled(c, rows, r.indptr, ix)
    requires forall p :: 0 <= p < |ix| ==> 0 <= ix[p] < |c.data|
    requires r.nrows == |rows| && r.ncols == c.ncols
    requires |r.data| == |ix| && |r.indices| == |ix|
    requires forall p :: 0 <= p < |ix| ==> r.indices[p] == c.indices[ix[p]]
    ensures Valid(r)
  {
  }

  /** Gathering `data` and `indices` at `ix` copies selected row `i`. */
  lemma GatheredRow(c: Csr, rows: seq<int>, r: Csr, ix: seq<int>, i: nat)
    requires Valid(c) && forall k :: 0 <= k < |rows| ==> 0 <= rows[k] < c.nrows
    requires Valid(r) && Sampled(c, rows, r.indptr, ix)
    requires forall p :: 0 <= p < |ix| ==> 0 <= ix[p] < |c.data|
    requires r.nrows == |rows| && i < |rows|
    requires |r.data| == |ix| && forall p :: 0 <= p < |ix| ==> r.data[p] == c.data[ix[p]]
    requires |r.indices| == |ix| && forall p :: 0 <= p < |ix| ==> r.indices[p] == c.indices[ix[p]]
    ensures RowIndices(r, i) == RowIndices(c, rows[i]) && RowData(r, i) == RowData(c, rows[i])
  {
    var n := RowLen(c, rows[i]);
    forall k | 0 <= k < n
      ensures RowIndices(r, i)[k] == RowIndices(c, rows[i])[k]
      ensures RowData(r, i)[k] == RowData(c, rows[i])[k]
    {
      assert ix[r.indptr[i] + k] == c.indptr[rows[i]] + k by {
        assert r.indptr[i] <= r.indptr[i] + k < r.indptr[i + 1];
      }
    }
  }

  /** Gathering `data` and `indices` at `ix` copies every selected row. */
  lemma GatheredRows(c: Csr, rows: seq<int>, r: Csr, ix: seq<int>)
    requires Valid(c) && forall k :: 0 <= k < |rows| ==> 0 <= rows[k] < c.nrows
    requires Sampled(c, rows, r.indptr, ix)
    requires forall p :: 0 <= p < |ix| ==> 0 <= ix[p] < |c.data|
    requires r.nrows == |rows| && r.ncols == c.ncols
    requires |r.data| == |ix| && forall p :: 0 <= p < |ix| ==> r.data[p] == c.data[ix[p]]
    requires |r.indices| == |ix| && forall p :: 0 <= p < |ix| ==> r.indices[p] == c.indices[ix[p]]
    ensures Valid(r)
    ensures forall i :: 0 <= i < |rows| ==>
      RowIndices(r, i) == RowIndices(c, rows[i]) && RowData(r, i) == RowData(c, rows[i])
  {
    GatheredValid(c, rows, r, ix);
    forall i | 0 <= i < |rows|
      ensures RowIndices(r, i) == RowIndices(c, rows[i]) && RowData(r, i) == RowData(c, rows[i])
    {
      GatheredRow(c, rows, r, ix, i);
    }
  }

  /** The rows of `c` listed in `rows`, in that order (`csr[rows]`), as a new CSR triple. */
  method GetRows(c: Csr, rows: seq<int>) returns (r: Csr)
    requires Valid(c)
    requires forall k :: 0 <= k < |rows| ==> 0 <= rows[k] < c.nrows
    ensures Valid(r) && r.nrows == |rows| && r.ncols == c.ncols
    ensures forall i :: 0 <= i < |rows| ==>
      RowIndices(r, i) == RowIndices(c, rows[i]) && RowData(r, i) == RowData(c, rows[i])
    ensures ToDense(r) == SelectRows(ToDense(c), rows)
  {
    var indptr, ix := SampleCsrRows(c, rows);
    SampledInRange(c, rows, indptr, ix);
    var data := seq(|ix|, p requires 0 <= p < |ix| => c.data[ix[p]]);
    var indices := seq(|ix|, p requires 0 <= p < |ix| => c.indices[ix[p]]);
    r := Csr(data, indices, indptr, |rows|, c.ncols);
    GatheredRows(c, rows, r, ix);
    DenseOfRows(c, rows, r);
  }

  /** Equal rows give equal dense matrices. */
  lemma DenseOfRows(c: Csr, rows: seq<int>, r: Csr)
    requires Valid(c) && Valid(r) && forall k :: 0 <= k < |rows| ==> 0 <= rows[k] < c.nrows
    requires r.nrows == |rows| && r.ncols == c.ncols
    requires forall i :: 0 <= i < |rows| ==>
      RowIndices(r, i) == RowIndices(c, rows[i]) && RowData(r, i) == RowData(c, rows[i])
    ensures ToDense(r) == SelectRows(ToDense(c), rows)
  {
    var l, s := ToDense(r), SelectRows(ToDense(c), rows);
    forall i, j | 0 <= i < l.rows && 0 <= j < l.cols
      ensures l.e[i][j] == s.e[i][j]
    {
    }
    Ext(l, s);
  }

  /** The row of a monotone `indptr` whose run contains storage position `p`. */
  lemma RowOf(indptr: seq<int>, p: int) returns (i: nat)
    requires |indptr| >= 1 && indptr[0] <= p < indptr[|indptr| - 1]
    requires forall a, b :: 0 <= a <= b < |indptr| ==> indptr[a] <= indptr[b]
    ensures i < |indptr| - 1 && indptr[i] <= p < indptr[i + 1]
  {
    i := 0;
    while indptr[i + 1] <= p
      invariant i < |indptr| - 1 && indptr[i] <= p
      decreases |indptr| - i
    {
      i := i + 1;
    }
  }

  lemma {:induction false} ScatterAtOne(idx: seq<int>, vals: seq<real>, j: int)
    requires |idx| == 1 && |vals| == 1
    ensures ScatterAt(idx, vals, j) == if idx[0] == j then vals[0] else 0.0
  {
    assert ScatterAt(idx[1..], vals[1..], j) == 0.0;
  }

  /** `diagonal(x, n)`: the CSR triple with `x[i]` stored at `(i, i)`. */
  function Diagonal(x: seq<real>, n: nat): (r: Csr)
    requires |x| == n
    ensures Valid(r) && r.nrows == n && r.ncols == n
    ensures ToDense(r) == Diag(x)
  {
    var r := Csr(x, Range(n), Range(n + 1), n, n);
    var l := ToDense(r);
    assert forall i, j :: 0 <= i < n && 0 <= j < n ==> l.e[i][j] == Diag(x).e[i][j] by {
      forall i, j | 0 <= i < n && 0 <= j < n
        ensures l.e[i][j] == Diag(x).e[i][j]
      {
        assert RowIndices(r, i) == [i] && RowData(r, i) == [x[i]];
        ScatterAtOne([i], [x[i]], j);
      }
    }
    Ext(l, Diag(x));
    r
  }

  /** `fromarrays(ones(n), idx, arange(n + 1), (n, m))`: row `i` holds a
      single 1 in column `idx[i]`, i.e. rows `idx` of the identity. */
  function UnitRows(idx: seq<int>, m: nat): (r: Csr)
    requires forall t :: 0 <= t < |idx| ==> 0 <= idx[t] < m
    ensures Valid(r) && r.nrows == |idx| && r.ncols == m
    ensures ToDense(r) == SelectRows(Identity(m), idx)
  {
    var n := |idx|;
    var r := Csr(seq(n, _ => 1.0), idx, Range(n + 1), n, m);
    var l := ToDense(r);
    assert forall i, j :: 0 <= i < n && 0 <= j < m ==> l.e[i][j] == SelectRows(Identity(m), idx).e[i][j] by {
      forall i, j | 0 <= i < n && 0 <= j < m
        ensures l.e[i][j] == SelectRows(Identity(m), idx).e[i][j]
      {
        assert RowIndices(r, i) == [idx[i]] && RowData(r, i) == [1.0];
        ScatterAtOne([idx[i]], [1.0], j);
        assert SelectRows(Identity(m), idx).e[i][j] == Identity(m).e[idx[i]][j];
      }
    }
    Ext(l, SelectRows(Identity(m), idx));
    r
  }
}

/** Dense view of the sparse matrices the library handles: a matrix is its
    shape and its entries; storage (CSR arrays) appears only in module Csr. */
module Matrices {
  import opened Common

  datatype Mx = Mx(rows: nat, cols: nat, e: seq<seq<real>>)

  predicate WellFormed(a: Mx) {
    |a.e| == a.rows && forall i :: 0 <= i < |a.e| ==> |a.e[i]| == a.cols
  }

  type Matrix = a: Mx | WellFormed(a) witness Mx(0, 0, [])

  predicate SameShape(a: Matrix, b: Matrix) {
    a.rows == b.rows && a.cols == b.cols
  }

  /** Matrices with the same shape and the same entries are equal. */
  lemma Ext(a: Matrix, b: Matrix)
    requires SameShape(a, b)
    requires forall i, j :: 0 <= i < a.rows && 0 <= j < a.cols ==> a.e[i][j] == b.e[i][j]
    ensures a == b
  {
    forall i | 0 <= i < a.rows
      ensures a.e[i] == b.e[i]
    {
      assert |a.e[i]| == |b.e[i]|;
    }
  }

  function Zeros(n: nat, m: nat): (r: Matrix)
    ensures r.rows == n && r.cols == m
    ensures forall i, j :: 0 <= i < n && 0 <= j < m ==> r.e[i][j] == 0.0
  {
    Mx(n, m, seq(n, _ => seq(m, _ => 0.0)))
  }

  function Ones(n: nat, m: nat): (r: Matrix)
    ensures r.rows == n && r.cols == m
    ensures forall i, j :: 0 <= i < n && 0 <= j < m ==> r.e[i][j] == 1.0
  {
    Mx(n, m, seq(n, _ => seq(m, _ => 1.0)))
  }

  /** The n x n matrix with `x[i]` at `(i, i)`. */
  function Diag(x: seq<real>): (r: Matrix)
    ensures r.rows == |x| && r.cols == |x|
    ensures forall i, j :: 0 <= i < |x| && 0 <= j < |x| ==> r.e[i][j] == if i == j then x[i] else 0.0
  {
    Mx(|x|, |x|, seq(|x|, i requires 0 <= i < |x| => seq(|x|, j => if i == j then x[i] else 0.0)))
  }

  function Identity(n: nat): (r: Matrix)
    ensures r.rows == n && r.cols == n
    ensures forall i, j :: 0 <= i < n && 0 <= j < n ==> r.e[i][j] == if i == j then 1.0 else 0.0
  {
    Diag(seq(n, _ => 1.0))
  }

  /** `diag(p) . a`: row `i` of `a` scaled by `p[i]`. */
  function ScaleRows(p: seq<real>, a: Matrix): (r: Matrix)
    requires |p| == a.rows
    ensures SameShape(r, a)
    ensures forall i, j :: 0 <= i < a.rows && 0 <= j < a.cols ==> r.e[i][j] == p[i] * a.e[i][j]
  {
    Mx(a.rows, a.cols, seq(a.rows, i requires 0 <= i < a.rows =>
      seq(a.cols, j requires 0 <= j < a.cols => p[i] * a.e[i][j])))
  }

  function Scale(c: real, a: Matrix): (r: Matrix)
    ensures SameShape(r, a)
    ensures forall i, j :: 0 <= i < a.rows && 0 <= j < a.cols ==> r.e[i][j] == c * a.e[i][j]
  {
    Mx(a.rows, a.cols, seq(a.rows, i requires 0 <= i < a.rows =>
      seq(a.cols, j requires 0 <= j < a.cols => c * a.e[i][j])))
  }

  function Add(a: Matrix, b: Matrix): (r: Matrix)
    requires SameShape(a, b)
    ensures SameShape(r, a)
    ensures forall i, j :: 0 <= i < a.rows && 0 <= j < a.cols ==> r.e[i][j] == a.e[i][j] + b.e[i][j]
  {
    Mx(a.rows, a.cols, seq(a.rows, i requires 0 <= i < a.rows =>
      seq(a.cols, j requires 0 <= j < a.cols => a.e[i][j] + b.e[i][j])))
  }

  /** The inner products of row `i` of `a` with column `j` of `b`, term by term. */
  function DotTerms(a: Matrix, b: Matrix, i: nat, j: nat): (t: seq<real>)
    requires a.cols == b.rows && i < a.rows && j < b.cols
    ensures |t| == a.cols
    ensures forall k :: 0 <= k < a.cols ==> t[k] == a.e[i][k] * b.e[k][j]
  {
    seq(a.cols, k requires 0 <= k < a.cols => a.e[i][k] * b.e[k][j])
  }

  /** The matrix product `a . b`. */
  function MatMul(a: Matrix, b: Matrix): (r: Matrix)
    requires a.cols == b.rows
    ensures r.rows == a.rows && r.cols == b.cols
    ensures forall i, j :: 0 <= i < a.rows && 0 <= j < b.cols ==> r.e[i][j] == Sum(DotTerms(a, b, i, j))
  {
    Mx(a.rows, b.cols, seq(a.rows, i requires 0 <= i < a.rows =>
      seq(b.cols, j requires 0 <= j < b.cols => Sum(DotTerms(a, b, i, j)))))
  }

  function Column(a: Matrix, j: nat): (c: seq<real>)
    requires j < a.cols
    ensures |c| == a.rows
    ensures forall i :: 0 <= i < a.rows ==> c[i] == a.e[i][j]
  {
    seq(a.rows, i requires 0 <= i < a.rows => a.e[i][j])
  }

  /** `a . x` for a vector `x` of length `a.cols`. */
  function MatVec(a: Matrix, xs: seq<real>): (r: seq<real>)
    requires |xs| == a.cols
    ensures |r| == a.rows
  {
    seq(a.rows, i requires 0 <= i < a.rows => Sum(seq(a.cols, k requires 0 <= k < a.cols => a.e[i][k] * xs[k])))
  }

  /** The 1 x cols matrix of column sums (`a.sum(axis=0)`). */
  function ColSums(a: Matrix): (r: Matrix)
    ensures r.rows == 1 && r.cols == a.cols
    ensures forall j :: 0 <= j < a.cols ==> r.e[0][j] == Sum(Column(a, j))
  {
    Mx(1, a.cols, [seq(a.cols, j requires 0 <= j < a.cols => Sum(Column(a, j)))])
  }

  /** Rows `idx[0], idx[1], ...` of `a`, in that order (`a[idx]`). */
  function SelectRows(a: Matrix, idx: seq<int>): (r: Matrix)
    requires forall k :: 0 <= k < |idx| ==> 0 <= idx[k] < a.rows
    ensures r.rows == |idx| && r.cols == a.cols
    ensures forall i :: 0 <= i < |idx| ==> r.e[i] == a.e[idx[i]]
  {
    Mx(|idx|, a.cols, seq(|idx|, i requires 0 <= i < |idx| => a.e[idx[i]]))
  }

  predicate CanBroadcastRows(a: Matrix, n: nat) {
    a.rows == n || a.rows == 1
  }

  /** `a` with its single row repeated `n` times, or `a` itself if it already has `n` rows. */
  function BroadcastRows(a: Matrix, n: nat): (r: Matrix)
    requires CanBroadcastRows(a, n)
    ensures r.rows == n && r.cols == a.cols
    ensures forall i :: 0 <= i < n ==> r.e[i] == a.e[if a.rows == n then i else 0]
  {
    if a.rows == n then a else Mx(n, a.cols, seq(n, _ => a.e[0]))
  }

  function TotalRows(ps: seq<Matrix>): nat {
    if |ps| == 0 then 0 else ps[0].rows + TotalRows(ps[1..])
  }

  predicate AllCols(ps: seq<Matrix>, m: nat) {
    forall k :: 0 <= k < |ps| ==> ps[k].cols == m
  }

  function ConcatRows(ps: seq<Matrix>): seq<seq<real>> {
    if |ps| == 0 then [] else ps[0].e + ConcatRows(ps[1..])
  }

  lemma {:induction false} ConcatRowsShape(ps: seq<Matrix>, m: nat)
    requires AllCols(ps, m)
    ensures |ConcatRows(ps)| == TotalRows(ps)
    ensures forall i :: 0 <= i < |ConcatRows(ps)| ==> |ConcatRows(ps)[i]| == m
  {
    if |ps| > 0 {
      ConcatRowsShape(ps[1..], m);
    }
  }

  /** The parts stacked on top of each other, rows in order (`scipy.sparse.vstack`). */
  function VStack(ps: seq<Matrix>, m: nat): (r: Matrix)
    requires AllCols(ps, m)
    ensures r.rows == TotalRows(ps) && r.cols == m
    ensures r.e == ConcatRows(ps)
  {
    ConcatRowsShape(ps, m);
    Mx(TotalRows(ps), m, ConcatRows(ps))
  }

  /** Row `i` of part `k` is row `TotalRows(ps[..k]) + i` of the stack. */
  lemma {:induction false} VStackRow(ps: seq<Matrix>, m: nat, k: nat, i: nat)
    requires AllCols(ps, m) && k < |ps| && i < ps[k].rows
    ensures TotalRows(ps[..k]) + i < TotalRows(ps)
    ensures VStack(ps, m).e[TotalRows(ps[..k]) + i] == ps[k].e[i]
  {
    ConcatRowsShape(ps, m);
    if k == 0 {
      assert ps[..0] == [];
      assert ConcatRows(ps) == ps[0].e + ConcatRows(ps[1..]);
    } else {
      assert ps[1..][..k - 1] == ps[..k][1..];
      assert TotalRows(ps[..k]) == ps[0].rows + TotalRows(ps[1..][..k - 1]);
      VStackRow(ps[1..], m, k - 1, i);
      assert ConcatRows(ps) == ps[0].e + ConcatRows(ps[1..]);
    }
  }

  predicate BinaryRows(rows: seq<seq<real>>) {
    forall i, j :: 0 <= i < |rows| && 0 <= j < |rows[i]| ==> rows[i][j] == 0.0 || rows[i][j] == 1.0
  }

  /** Stacking sparsity patterns gives a sparsity pattern. */
  lemma {:induction false} VStackPattern(ps: seq<Matrix>, m: nat)
    requires AllCols(ps, m) && forall k :: 0 <= k < |ps| ==> IsPattern(ps[k])
    ensures IsPattern(VStack(ps, m))
  {
    ConcatRowsBinary(ps);
  }

  lemma {:induction false} ConcatRowsBinary(ps: seq<Matrix>)
    requires forall k :: 0 <= k < |ps| ==> IsPattern(ps[k])
    ensures BinaryRows(ConcatRows(ps))
  {
    if |ps| > 0 {
      ConcatRowsBinary(ps[1..]);
      var a, rest := ps[0].e, ConcatRows(ps[1..]);
      assert IsPattern(ps[0]);
      forall i, j | 0 <= i < |a + rest| && 0 <= j < |(a + rest)[i]|
        ensures (a + rest)[i][j] == 0.0 || (a + rest)[i][j] == 1.0
      {
        if i < |a| {
          assert (a + rest)[i] == a[i];
        } else {
          assert (a + rest)[i] == rest[i - |a|];
        }
      }
    }
  }

  /** The two-part stack of the `stack(a, b)` tests. */
  lemma VStackTwo(a: Matrix, b: Matrix)
    requires a.cols == b.cols
    ensures VStack([a, b], a.cols).e == a.e + b.e
  {
    assert [a, b][1..] == [b];
    assert [b][1..] == [];
    assert ConcatRows([b]) == b.e + ConcatRows([]);
    assert ConcatRows([a, b]) == a.e + ConcatRows([b]);
  }

  /** Entry `(r, c)` collects every entry of row `q` of `a` with `idx[q] == r` (the CSR row remap). */
  function RemapRows(a: Matrix, idx: seq<int>, n: nat): (r: Matrix)
    requires |idx| == a.rows
    ensures r.rows == n && r.cols == a.cols
    ensures forall i, j :: 0 <= i < n && 0 <= j < a.cols ==> r.e[i][j] == ScatterAt(idx, Column(a, j), i)
  {
    Mx(n, a.cols, seq(n, i requires 0 <= i < n =>
      seq(a.cols, j requires 0 <= j < a.cols => ScatterAt(idx, Column(a, j), i))))
  }

  /** The binary sparsity pattern of `a`: 1 where `a` is nonzero. */
  function Pattern(a: Matrix): (r: Matrix)
    ensures SameShape(r, a)
    ensures forall i, j :: 0 <= i < a.rows && 0 <= j < a.cols ==>
      r.e[i][j] == if a.e[i][j] != 0.0 then 1.0 else 0.0
  {
    Mx(a.rows, a.cols, seq(a.rows, i requires 0 <= i < a.rows =>
      seq(a.cols, j requires 0 <= j < a.cols => if a.e[i][j] != 0.0 then 1.0 else 0.0)))
  }

  predicate IsPattern(a: Matrix) {
    forall i, j :: 0 <= i < a.rows && 0 <= j < a.cols ==> a.e[i][j] == 0.0 || a.e[i][j] == 1.0
  }

  lemma SelectRowsPattern(a: Matrix, idx: seq<int>)
    requires IsPattern(a) && forall k :: 0 <= k < |idx| ==> 0 <= idx[k] < a.rows
    ensures IsPattern(SelectRows(a, idx))
  {
    var r := SelectRows(a, idx);
    forall i, j | 0 <= i < r.rows && 0 <= j < r.cols
      ensures r.e[i][j] == 0.0 || r.e[i][j] == 1.0
    {
      assert r.e[i][j] == a.e[idx[i]][j];
    }
  }

  predicate NonNegative(a: Matrix) {
    forall i, j :: 0 <= i < a.rows && 0 <= j < a.cols ==> a.e[i][j] >= 0.0
  }

  /** `sp` is nonzero wherever `a` is: `sp` over-approximates the sparsity of `a`. */
  predicate Covers(sp: Matrix, a: Matrix) {
    SameShape(sp, a) &&
    forall i, j :: 0 <= i < a.rows && 0 <= j < a.cols && a.e[i][j] != 0.0 ==> sp.e[i][j] != 0.0
  }

  // ----- identities between the operations -----

  lemma PatternIsPattern(a: Matrix)
    ensures IsPattern(Pattern(a)) && NonNegative(Pattern(a))
    ensures Covers(Pattern(a), a) && Covers(a, Pattern(a))
  {
  }

  lemma PatternOfPattern(a: Matrix)
    requires IsPattern(a)
    ensures Pattern(a) == a
  {
    Ext(Pattern(a), a);
  }

  /** `diag(x) . a` as a matrix product equals row scaling. */
  lemma {:induction false} DiagMatMul(x: seq<real>, a: Matrix)
    requires |x| == a.rows
    ensures MatMul(Diag(x), a) == ScaleRows(x, a)
  {
    var l, r := MatMul(Diag(x), a), ScaleRows(x, a);
    forall i, j | 0 <= i < l.rows && 0 <= j < l.cols
      ensures l.e[i][j] == r.e[i][j]
    {
      SumSingle(DotTerms(Diag(x), a, i, j), i);
    }
    Ext(l, r);
  }

  /** `B . a` with `B` the n x 1 column of ones repeats the single row of `a`. */
  lemma {:induction false} OnesColumnMatMul(n: nat, a: Matrix)
    requires a.rows == 1
    ensures MatMul(Ones(n, 1), a) == BroadcastRows(a, n)
  {
    var l, r := MatMul(Ones(n, 1), a), BroadcastRows(a, n);
    forall i, j | 0 <= i < n && 0 <= j < a.cols
      ensures l.e[i][j] == r.e[i][j]
    {
      SumSingle(DotTerms(Ones(n, 1), a, i, j), 0);
    }
    Ext(l, r);
  }

  lemma {:induction false} IdentityMatMul(a: Matrix)
    ensures MatMul(Identity(a.rows), a) == a
  {
    var l := MatMul(Identity(a.rows), a);
    forall i, j | 0 <= i < a.rows && 0 <= j < a.cols
      ensures l.e[i][j] == a.e[i][j]
    {
      SumSingle(DotTerms(Identity(a.rows), a, i, j), i);
    }
    Ext(l, a);
  }

  lemma {:induction false} MatMulIdentity(a: Matrix)
    ensures MatMul(a, Identity(a.cols)) == a
  {
    var l := MatMul(a, Identity(a.cols));
    forall i, j | 0 <= i < a.rows && 0 <= j < a.cols
      ensures l.e[i][j] == a.e[i][j]
    {
      SumSingle(DotTerms(a, Identity(a.cols), i, j), j);
    }
    Ext(l, a);
  }

  lemma {:induction false} MatMulZeroLeft(n: nat, b: Matrix)
    ensures MatMul(Zeros(n, b.rows), b) == Zeros(n, b.cols)
  {
    var l := MatMul(Zeros(n, b.rows), b);
    forall i, j | 0 <= i < n && 0 <= j < b.cols
      ensures l.e[i][j] == 0.0
    {
      SumOfZeros(DotTerms(Zeros(n, b.rows), b, i, j));
    }
    Ext(l, Zeros(n, b.cols));
  }

  lemma {:induction false} MatMulZeroRight(a: Matrix, m: nat)
    ensures MatMul(a, Zeros(a.cols, m)) == Zeros(a.rows, m)
  {
    var l := MatMul(a, Zeros(a.cols, m));
    forall i, j | 0 <= i < a.rows && 0 <= j < m
      ensures l.e[i][j] == 0.0
    {
      SumOfZeros(DotTerms(a, Zeros(a.cols, m), i, j));
    }
    Ext(l, Zeros(a.rows, m));
  }

  lemma ScaleRowsIdentity(p: seq<real>)
    ensures ScaleRows(p, Identity(|p|)) == Diag(p)
  {
    Ext(ScaleRows(p, Identity(|p|)), Diag(p));
  }

  lemma ScaleRowsOnes(a: Matrix)
    ensures ScaleRows(seq(a.rows, _ => 1.0), a) == a
  {
    Ext(ScaleRows(seq(a.rows, _ => 1.0), a), a);
  }

  /** Row factors repeated along with the rows they scale. */
  function BroadcastFactors(q: seq<real>, n: nat): (r: seq<real>)
    requires |q| == n || |q| == 1
    ensures |r| == n && forall i :: 0 <= i < n ==> r[i] == q[if |q| == n then i else 0]
  {
    seq(n, i requires 0 <= i < n => q[if |q| == n then i else 0])
  }

  /** Row scaling commutes with repeating rows: `B . diag(q) . a == diag(B q) . B . a`. */
  lemma BroadcastOfScaled(q: seq<real>, a: Matrix, n: nat)
    requires |q| == a.rows && CanBroadcastRows(a, n)
    ensures BroadcastRows(ScaleRows(q, a), n) == ScaleRows(BroadcastFactors(q, n), BroadcastRows(a, n))
  {
    Ext(BroadcastRows(ScaleRows(q, a), n), ScaleRows(BroadcastFactors(q, n), BroadcastRows(a, n)));
  }

  /** The factors `p` and `q` multiplied row by row. */
  function RowProducts(p: seq<real>, q: seq<real>): (r: seq<real>)
    requires |p| == |q|
    ensures |r| == |p| && forall i :: 0 <= i < |p| ==> r[i] == p[i] * q[i]
  {
    seq(|p|, i requires 0 <= i < |p| => p[i] * q[i])
  }

  /** Two row scalings are one: `diag(p) . diag(q) . a == diag(p q) . a`. */
  lemma ScaleRowsTwice(p: seq<real>, q: seq<real>, a: Matrix)
    requires |p| == a.rows && |q| == a.rows
    ensures ScaleRows(p, ScaleRows(q, a)) == ScaleRows(RowProducts(p, q), a)
  {
    var l, r := ScaleRows(p, ScaleRows(q, a)), ScaleRows(RowProducts(p, q), a);
    forall i, j | 0 <= i < a.rows && 0 <= j < a.cols
      ensures l.e[i][j] == r.e[i][j]
    {
      assert l.e[i][j] == p[i] * (q[i] * a.e[i][j]);
    }
    Ext(l, r);
  }

  /** If `sp` over-approximates `a`, every product with a binarised left
      factor over-approximates the product: no cancellation can hide an entry. */
  lemma {:induction false} MatMulCovers(l: Matrix, sp: Matrix, a: Matrix)
    requires l.cols == a.rows
    requires Covers(sp, a) && NonNegative(sp)
    ensures Covers(MatMul(Pattern(l), sp), MatMul(l, a))
  {
    var num, pat := MatMul(l, a), MatMul(Pattern(l), sp);
    PatternIsPattern(l);
    forall i, j | 0 <= i < num.rows && 0 <= j < num.cols && num.e[i][j] != 0.0
      ensures pat.e[i][j] != 0.0
    {
      var k := SumNonZeroHasWitness(DotTerms(l, a, i, j));
      assert l.e[i][k] != 0.0 && a.e[k][j] != 0.0;
      assert Pattern(l).e[i][k] == 1.0 && sp.e[k][j] > 0.0;
      SumPositive(DotTerms(Pattern(l), sp, i, j), k);
    }
  }

  /** Summation does not create entries that no summand has. */
  lemma AddCovers(sa: Matrix, sb: Matrix, a: Matrix, b: Matrix)
    requires Covers(sa, a) && Covers(sb, b) && SameShape(a, b)
    requires NonNegative(sa) && NonNegative(sb)
    ensures Covers(Add(sa, sb), Add(a, b)) && NonNegative(Add(sa, sb))
  {
  }

  lemma ScaleRowsCovered(p: seq<real>, sp: Matrix, a: Matrix)
    requires |p| == a.rows && Covers(sp, a)
    ensures Covers(sp, ScaleRows(p, a))
  {
  }

  lemma BroadcastCovers(sp: Matrix, a: Matrix, n: nat)
    requires Covers(sp, a) && CanBroadcastRows(a, n)
    ensures Covers(BroadcastRows(sp, n), BroadcastRows(a, n))
  {
  }

  lemma PatternCovers(sp: Matrix, a: Matrix)
    requires Covers(sp, a)
    ensures Covers(Pattern(sp), a)
  {
  }

  /** The binarised product of `rdot` in the sparsity variant covers the true product. */
  lemma RDotCovers(l: Matrix, sp: Matrix, a: Matrix)
    requires l.cols == a.rows && Covers(sp, a) && NonNegative(sp)
    ensures Covers(Pattern(MatMul(Pattern(l), sp)), MatMul(l, a))
  {
    MatMulCovers(l, sp, a);
    PatternCovers(MatMul(Pattern(l), sp), MatMul(l, a));
  }
  // ----- sums of several matrices -----

  predicate AllShape(ms: seq<Matrix>, n: nat, m: nat) {
    forall k :: 0 <= k < |ms| ==> ms[k].rows == n && ms[k].cols == m
  }

  /** Entry `(i, j)` of every matrix in `ms`, in order. */
  function Entries(ms: seq<Matrix>, n: nat, m: nat, i: nat, j: nat): (r: seq<real>)
    requires AllShape(ms, n, m) && i < n && j < m
    ensures |r| == |ms| && forall k :: 0 <= k < |ms| ==> r[k] == ms[k].e[i][j]
  {
    seq(|ms|, k requires 0 <= k < |ms| => ms[k].e[i][j])
  }

  /** The sum of a sequence of equally shaped matrices (zero for none). */
  function SumAll(ms: seq<Matrix>, n: nat, m: nat): (r: Matrix)
    requires AllShape(ms, n, m)
    ensures r.rows == n && r.cols == m
    ensures forall i, j :: 0 <= i < n && 0 <= j < m ==> r.e[i][j] == Sum(Entries(ms, n, m, i, j))
  {
    Mx(n, m, seq(n, i requires 0 <= i < n =>
      seq(m, j requires 0 <= j < m => Sum(Entries(ms, n, m, i, j)))))
  }

  /** Adding one more matrix to a running sum (`v = v + ...`). */
  lemma SumAllSnoc(ms: seq<Matrix>, a: Matrix, n: nat, m: nat)
    requires AllShape(ms, n, m) && a.rows == n && a.cols == m
    ensures SumAll(ms + [a], n, m) == Add(SumAll(ms, n, m), a)
  {
    forall i, j | 0 <= i < n && 0 <= j < m
      ensures SumAll(ms + [a], n, m).e[i][j] == Add(SumAll(ms, n, m), a).e[i][j]
    {
      assert Entries(ms + [a], n, m, i, j) == Entries(ms, n, m, i, j) + [a.e[i][j]];
      SumSnoc(Entries(ms, n, m, i, j), a.e[i][j]);
    }
    Ext(SumAll(ms + [a], n, m), Add(SumAll(ms, n, m), a));
  }

  /** The running sum over one more element of `ms`. */
  lemma SumAllPrefix(ms: seq<Matrix>, k: nat, n: nat, m: nat)
    requires AllShape(ms, n, m) && k < |ms|
    ensures SumAll(ms[..k + 1], n, m) == Add(SumAll(ms[..k], n, m), ms[k])
    ensures k == 0 ==> SumAll(ms[..1], n, m) == ms[0]
  {
    assert ms[..k + 1] == ms[..k] + [ms[k]];
    SumAllSnoc(ms[..k], ms[k], n, m);
    if k == 0 {
      assert ms[..1] == [ms[0]];
      SumAllOne(ms[0]);
    }
  }

  lemma SumAllOne(a: Matrix)
    ensures SumAll([a], a.rows, a.cols) == a
  {
    forall i, j | 0 <= i < a.rows && 0 <= j < a.cols
      ensures SumAll([a], a.rows, a.cols).e[i][j] == a.e[i][j]
    {
      assert Entries([a], a.rows, a.cols, i, j) == [a.e[i][j]];
      assert Sum([a.e[i][j]]) == a.e[i][j] + Sum([]);
    }
    Ext(SumAll([a], a.rows, a.cols), a);
  }

  /** Summing a pattern with itself any positive number of times keeps its sparsity. */
  lemma PatternOfRepeatedSum(ms: seq<Matrix>, a: Matrix)
    requires |ms| > 0 && forall k :: 0 <= k < |ms| ==> ms[k] == a
    requires IsPattern(a)
    ensures Pattern(SumAll(ms, a.rows, a.cols)) == a
  {
    var t := SumAll(ms, a.rows, a.cols);
    forall i, j | 0 <= i < a.rows && 0 <= j < a.cols
      ensures Pattern(t).e[i][j] == a.e[i][j]
    {
      SumConst(Entries(ms, a.rows, a.cols, i, j), a.e[i][j]);
    }
    Ext(Pattern(t), a);
  }

  lemma PatternOfAddSelf(a: Matrix)
    requires IsPattern(a)
    ensures Pattern(Add(a, a)) == a
  {
    Ext(Pattern(Add(a, a)), a);
  }
}

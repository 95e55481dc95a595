/** The scatter-add merge behind `sparsesum`: terms `(idx, v)` of one
    length `n` are concatenated and every payload entry is added into the
    destination position its index names, either into a dense vector of
    length `n` or (`return_sparse`) into the compressed vector over the
    indices that occur. */
module SparseVecs {
  import opened Common

  /** `sparsevec(n, idx, v)`: payload `v` destined for positions `idx` of a
      length-`n` vector. */
  datatype SparseVec<V> = SparseVec(n: nat, idx: seq<int>, v: V)

  /** The merge result: the dense vector, or the `sparsevec` holding the
      compressed one. */
  datatype Merged<R> = DenseMerge(y: R) | SparseMerge(sv: SparseVec<R>)

  /** Every term has the shape `(n,)` of the first. */
  predicate SameLength<V>(terms: seq<SparseVec<V>>)
    requires |terms| > 0
  {
    forall t :: 0 <= t < |terms| ==> terms[t].n == terms[0].n
  }

  /** `np.hstack(idx)`: the indices of all terms in term order. */
  function Indices<V>(terms: seq<SparseVec<V>>): seq<int> {
    if |terms| == 0 then [] else terms[0].idx + Indices(terms[1..])
  }

  /** `hstack(v)` for numeric payloads: the payloads in term order. */
  function Payloads(terms: seq<SparseVec<seq<real>>>): seq<real> {
    if |terms| == 0 then [] else terms[0].v + Payloads(terms[1..])
  }

  predicate InBounds(idx: seq<int>, n: nat) {
    forall t :: 0 <= t < |idx| ==> 0 <= idx[t] < n
  }

  predicate Distinct(xs: seq<int>) {
    forall a, b :: 0 <= a < b < |xs| ==> xs[a] != xs[b]
  }

  predicate StrictlySorted(xs: seq<int>) {
    forall a, b :: 0 <= a < b < |xs| ==> xs[a] < xs[b]
  }

  function Elems(xs: seq<int>): set<int> {
    set x | x in xs
  }

  // ----- unique and searchsorted -----

  /** `x` added to a sorted duplicate-free sequence. */
  function Insert(x: int, s: seq<int>): (r: seq<int>)
    requires StrictlySorted(s)
    ensures StrictlySorted(r) && Elems(r) == Elems(s) + {x}
  {
    if |s| == 0 then
      ElemsCons(x, s);
      [x]
    else
      HeadBelowTail(s);
      if x < s[0] then
        ConsSorted(x, s);
        [x] + s
      else if x == s[0] then
        assert s[0] in Elems(s);
        s
      else
        var rest := Insert(x, s[1..]);
        ElemsCons(s[0], s[1..]);
        assert [s[0]] + s[1..] == s;
        ConsSorted(s[0], rest);
        [s[0]] + rest
  }

  /** The head of a sorted sequence is below everything after it. */
  lemma HeadBelowTail(s: seq<int>)
    requires StrictlySorted(s) && |s| > 0
    ensures StrictlySorted(s[1..]) && forall y :: y in Elems(s[1..]) ==> s[0] < y
    ensures forall y :: y in Elems(s) ==> s[0] <= y
  {
    forall y | y in Elems(s)
      ensures s[0] <= y
    {
      var k :| 0 <= k < |s| && s[k] == y;
    }
    forall y | y in Elems(s[1..])
      ensures s[0] < y
    {
      var k :| 0 <= k < |s[1..]| && s[1..][k] == y;
      assert s[k + 1] == y;
    }
  }

  lemma ElemsCons(a: int, t: seq<int>)
    ensures Elems([a] + t) == {a} + Elems(t)
  {
    assert forall y :: y in [a] + t <==> y == a || y in t;
  }

  /** A value below every element of a sorted sequence can go in front. */
  lemma ConsSorted(a: int, t: seq<int>)
    requires StrictlySorted(t) && forall y :: y in Elems(t) ==> a < y
    ensures StrictlySorted([a] + t) && Elems([a] + t) == {a} + Elems(t)
  {
    ElemsCons(a, t);
    forall k | 0 <= k < |t|
      ensures a < t[k]
    {
      assert t[k] in Elems(t);
    }
  }

  /** `np.unique(xs)`: the values that occur, sorted, each once. */
  function Unique(xs: seq<int>): (r: seq<int>)
    ensures StrictlySorted(r) && Elems(r) == Elems(xs)
  {
    if |xs| == 0 then []
    else
      var r := Insert(xs[|xs| - 1], Unique(xs[..|xs| - 1]));
      assert Elems(xs) == Elems(xs[..|xs| - 1]) + {xs[|xs| - 1]} by {
        assert xs == xs[..|xs| - 1] + [xs[|xs| - 1]];
      }
      r
  }

  /** `np.searchsorted(c, x)`: the leftmost position at which `x` could be
      inserted into the sorted `c`. */
  function SearchSorted(c: seq<int>, x: int): (p: nat)
    ensures p <= |c|
  {
    if |c| == 0 || c[0] >= x then 0 else 1 + SearchSorted(c[1..], x)
  }

  /** In a sorted sequence a present value is found at its own position. */
  lemma {:induction false} SearchSortedFinds(c: seq<int>, x: int)
    requires StrictlySorted(c) && x in c
    ensures SearchSorted(c, x) < |c| && c[SearchSorted(c, x)] == x
  {
    if c[0] < x {
      assert x in c[1..] by {
        var k :| 0 <= k < |c| && c[k] == x;
        assert k != 0;
        assert c[1..][k - 1] == x;
      }
      SearchSortedFinds(c[1..], x);
    }
  }

  /** `np.searchsorted(cidx, idx)` for every index. */
  function Compress(cidx: seq<int>, idx: seq<int>): (r: seq<int>)
    requires StrictlySorted(cidx) && Elems(idx) <= Elems(cidx)
    ensures |r| == |idx|
    ensures forall t :: 0 <= t < |idx| ==> 0 <= r[t] < |cidx| && cidx[r[t]] == idx[t]
  {
    forall t | 0 <= t < |idx|
      ensures SearchSorted(cidx, idx[t]) < |cidx| && cidx[SearchSorted(cidx, idx[t])] == idx[t]
    {
      assert idx[t] in Elems(idx);
      SearchSortedFinds(cidx, idx[t]);
    }
    seq(|idx|, t requires 0 <= t < |idx| => SearchSorted(cidx, idx[t]))
  }

  // ----- the scatter-add -----

  /** The dense length-`n` vector holding, at `j`, the sum of the `v[t]`
      with `idx[t] == j` (`csr_matrix((v, idx, [0, len(idx)]), (1, n)).todense()`). */
  function Scatter(n: nat, idx: seq<int>, v: seq<real>): (y: seq<real>)
    requires |idx| == |v|
    ensures |y| == n && forall j :: 0 <= j < n ==> y[j] == ScatterAt(idx, v, j)
  {
    seq(n, j => ScatterAt(idx, v, j))
  }

  /** The default `wrap`: the dense vector itself. */
  function KeepDense(idx: seq<int>, v: seq<real>, y: seq<real>): seq<real> {
    y
  }

  /** Every term's payload has one entry per index, inside the destination. */
  predicate PayloadsFit(terms: seq<SparseVec<seq<real>>>) {
    forall t :: 0 <= t < |terms| ==> |terms[t].v| == |terms[t].idx| && InBounds(terms[t].idx, terms[t].n)
  }

  lemma {:induction false} IndicesFit(terms: seq<SparseVec<seq<real>>>, n: nat)
    requires PayloadsFit(terms) && forall t :: 0 <= t < |terms| ==> terms[t].n == n
    ensures |Payloads(terms)| == |Indices(terms)| && InBounds(Indices(terms), n)
  {
    if |terms| > 0 {
      IndicesFit(terms[1..], n);
    }
  }

  /** The checks `sparsesum` makes before merging: the common length `n`,
      or the exception. `terms[0]` of an empty list is an `IndexError`. */
  function Prepare<V>(terms: seq<SparseVec<V>>, checkUnique: bool): (r: Result<nat>)
    ensures |terms| == 0 ==> r == Err(IndexError)
    ensures |terms| > 0 && !SameLength(terms) ==> r == Err(ValueError("different shapes of terms"))
    ensures |terms| > 0 && SameLength(terms) ==>
      r == if checkUnique && !Distinct(Indices(terms)) then Err(ValueError("indices not unique")) else Ok(terms[0].n)
  {
    if |terms| == 0 then Err(IndexError)
    else if !SameLength(terms) then Err(ValueError("different shapes of terms"))
    else if checkUnique && |Unique(Indices(terms))| < |Indices(terms)| then
      UniqueCount(Indices(terms));
      Err(ValueError("indices not unique"))
    else
      UniqueCount(Indices(terms));
      Ok(terms[0].n)
  }

  /** `sparsesum(terms, wrap=wrap, check_unique=..., return_sparse=...)` for
      numeric payloads (`hstack` concatenates, `nvalue` is the identity). */
  function SparseSum<R>(terms: seq<SparseVec<seq<real>>>, wrap: (seq<int>, seq<real>, seq<real>) -> R,
                        checkUnique: bool, returnSparse: bool): (r: Result<Merged<R>>)
    requires PayloadsFit(terms)
    ensures r.Err? <==> Prepare(terms, checkUnique).Err?
    ensures r.Err? ==> r.error == Prepare(terms, checkUnique).error
    ensures r.Ok? && !returnSparse ==> r.value.DenseMerge?
    ensures r.Ok? && returnSparse ==>
      r.value.SparseMerge? && r.value.sv.n == terms[0].n && r.value.sv.idx == Unique(Indices(terms))
  {
    match Prepare(terms, checkUnique)
    case Err(e) => Err(e)
    case Ok(n) =>
      var idx, v := Indices(terms), Payloads(terms);
      IndicesFit(terms, n);
      if returnSparse then
        var cidx := Unique(idx);
        var pos := Compress(cidx, idx);
        Ok(SparseMerge(SparseVec(n, cidx, wrap(pos, v, Scatter(|cidx|, pos, v)))))
      else
        Ok(DenseMerge(wrap(idx, v, Scatter(n, idx, v))))
  }

  // ----- what the merge computes -----

  /** The two merges spelled out with the default `wrap`. */
  lemma MergeValues(terms: seq<SparseVec<seq<real>>>, checkUnique: bool)
    requires PayloadsFit(terms) && Prepare(terms, checkUnique).Ok?
    ensures |Payloads(terms)| == |Indices(terms)| && InBounds(Indices(terms), terms[0].n)
    ensures SparseSum(terms, KeepDense, checkUnique, false)
      == Ok(DenseMerge(Scatter(terms[0].n, Indices(terms), Payloads(terms))))
    ensures SparseSum(terms, KeepDense, checkUnique, true)
      == Ok(SparseMerge(SparseVec(terms[0].n, Unique(Indices(terms)),
           Scatter(|Unique(Indices(terms))|, Compress(Unique(Indices(terms)), Indices(terms)), Payloads(terms)))))
  {
    IndicesFit(terms, terms[0].n);
  }

  /** The dense merge is the scatter-add of the concatenated payloads, and
      `wrap` receives exactly the indices, the payloads and that vector. */
  lemma DenseMergeSums<R>(terms: seq<SparseVec<seq<real>>>, wrap: (seq<int>, seq<real>, seq<real>) -> R, checkUnique: bool)
    requires PayloadsFit(terms) && SparseSum(terms, wrap, checkUnique, false).Ok?
    ensures |Payloads(terms)| == |Indices(terms)|
    ensures exists y: seq<real> ::
      |y| == terms[0].n && (forall j :: 0 <= j < |y| ==> y[j] == ScatterAt(Indices(terms), Payloads(terms), j)) &&
      SparseSum(terms, wrap, checkUnique, false).value.y == wrap(Indices(terms), Payloads(terms), y)
  {
    IndicesFit(terms, terms[0].n);
    var y := Scatter(terms[0].n, Indices(terms), Payloads(terms));
    assert SparseSum(terms, wrap, checkUnique, false).value.y == wrap(Indices(terms), Payloads(terms), y);
  }

  /** With the default `wrap`, entry `i` of the compressed merge is the sum
      of the payload entries destined for `cidx[i]`. */
  lemma CompressedMergeSums(terms: seq<SparseVec<seq<real>>>, checkUnique: bool)
    requires PayloadsFit(terms) && SparseSum(terms, KeepDense, checkUnique, true).Ok?
    ensures |Payloads(terms)| == |Indices(terms)|
    ensures var sv := SparseSum(terms, KeepDense, checkUnique, true).value.sv;
      |sv.v| == |sv.idx| && Elems(sv.idx) == Elems(Indices(terms)) && StrictlySorted(sv.idx) &&
      forall i :: 0 <= i < |sv.v| ==> sv.v[i] == ScatterAt(Indices(terms), Payloads(terms), sv.idx[i])
  {
    IndicesFit(terms, terms[0].n);
    var idx, v := Indices(terms), Payloads(terms);
    var cidx := Unique(idx);
    var pos := Compress(cidx, idx);
    forall i | 0 <= i < |cidx|
      ensures ScatterAt(pos, v, i) == ScatterAt(idx, v, cidx[i])
    {
      ScatterThroughCompress(cidx, idx, pos, v, i);
    }
  }

  /** Summing by compressed position is summing by the index it stands for. */
  lemma {:induction false} ScatterThroughCompress(cidx: seq<int>, idx: seq<int>, pos: seq<int>, v: seq<real>, i: nat)
    requires StrictlySorted(cidx) && i < |cidx|
    requires |idx| == |pos| == |v|
    requires forall t :: 0 <= t < |idx| ==> 0 <= pos[t] < |cidx| && cidx[pos[t]] == idx[t]
    ensures ScatterAt(pos, v, i) == ScatterAt(idx, v, cidx[i])
  {
    if |idx| > 0 {
      assert pos[0] == i <==> idx[0] == cidx[i];
      ScatterThroughCompress(cidx, idx[1..], pos[1..], v[1..], i);
    }
  }

  /** The compressed merge loses nothing: the dense merge vanishes at every
      position that no index names. */
  lemma DenseZeroOutside(n: nat, idx: seq<int>, v: seq<real>, j: nat)
    requires |idx| == |v| && j < n && j !in Elems(idx)
    ensures Scatter(n, idx, v)[j] == 0.0
  {
    ScatterAtNoMatch(idx, v, j);
  }

  /** Distinct indices place each payload entry unchanged. */
  lemma {:induction false} ScatterDistinct(idx: seq<int>, v: seq<real>, t: nat)
    requires |idx| == |v| && Distinct(idx) && t < |idx|
    ensures ScatterAt(idx, v, idx[t]) == v[t]
  {
    if t == 0 {
      ScatterAtNoMatch(idx[1..], v[1..], idx[0]);
    } else {
      assert idx[0] != idx[t];
      ScatterDistinct(idx[1..], v[1..], t - 1);
    }
  }

  /** The scatter-add keeps the total: the dense merge sums to the sum of all payloads. */
  lemma {:induction false} ScatterTotal(n: nat, idx: seq<int>, v: seq<real>)
    requires |idx| == |v| && InBounds(idx, n)
    ensures Sum(Scatter(n, idx, v)) == Sum(v)
  {
    if |idx| == 0 {
      SumOfZeros(Scatter(n, idx, v));
    } else {
      var head := seq(n, j => if idx[0] == j then v[0] else 0.0);
      var rest := Scatter(n, idx[1..], v[1..]);
      ScatterTotal(n, idx[1..], v[1..]);
      SumSingle(head, idx[0]);
      SumPlus(head, rest, Scatter(n, idx, v));
    }
  }

  lemma {:induction false} SumPlus(a: seq<real>, b: seq<real>, c: seq<real>)
    requires |a| == |b| == |c| && forall j :: 0 <= j < |c| ==> c[j] == a[j] + b[j]
    ensures Sum(c) == Sum(a) + Sum(b)
  {
    if |c| > 0 {
      SumPlus(a[1..], b[1..], c[1..]);
    }
  }

  /** `len(np.unique(idx)) < len(idx)` holds exactly when some index repeats. */
  lemma {:induction false} UniqueCount(xs: seq<int>)
    ensures |Unique(xs)| <= |xs|
    ensures |Unique(xs)| < |xs| <==> !Distinct(xs)
  {
    SortedCard(Unique(xs));
    DistinctCard(xs);
  }

  lemma {:induction false} SortedCard(s: seq<int>)
    requires StrictlySorted(s)
    ensures |Elems(s)| == |s|
  {
    if |s| > 0 {
      assert Elems(s) == {s[0]} + Elems(s[1..]);
      assert s[0] !in Elems(s[1..]);
      SortedCard(s[1..]);
    }
  }

  lemma {:induction false} DistinctCard(xs: seq<int>)
    ensures |Elems(xs)| <= |xs|
    ensures |Elems(xs)| == |xs| <==> Distinct(xs)
  {
    if |xs| > 0 {
      var rest := xs[1..];
      DistinctCard(rest);
      assert Elems(xs) == {xs[0]} + Elems(rest);
      if xs[0] in rest {
        var k :| 0 <= k < |rest| && rest[k] == xs[0];
        assert xs[0] == xs[k + 1];
        assert Elems(xs) == Elems(rest);
      } else {
        assert Distinct(xs) <==> Distinct(rest);
      }
    }
  }
}

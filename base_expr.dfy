/** `sparsegrad/base/expr.py`: the generic entry points that pick an
    implementation among their arguments (`_find_arr`) and hand the work to
    it, with `forward_value` as the implementation of expressions and
    `numpy`/`sparsegrad.impl.sparsevec` as the defaults for numbers, and
    `branch`, the elementwise choice between two callbacks. */
module BaseExpr {
  import opened Common
  import opened Matrices
  import opened Forward
  import ForwardExtended
  import opened SparseVecs
  import opened PriorityRouting

  // ----- _find_arr -----

  /** `_find_arr(arrays, attr, default, default_priority)`: among the
      elements that have `attr`, the priority loop's choice. */
  method FindArr(arrays: seq<PyObj>, attr: string, default: Option<PyObj>, defaultPriority: real)
    returns (highest: Option<PyObj>)
    ensures highest == Chosen(arrays, Winner(arrays, Some(attr), default, defaultPriority), default)
  {
    highest := default;
    var current := defaultPriority;
    var k := 0;
    while k < |arrays|
      invariant 0 <= k <= |arrays|
      invariant var w := Winner(arrays[..k], Some(attr), default, defaultPriority);
        highest == Chosen(arrays, w, default) && current == Current(arrays, w, defaultPriority)
    {
      assert arrays[..k + 1][..k] == arrays[..k];
      var a := arrays[k];
      if attr in a.attrs {
        var priority := ArrayPriority(a);
        if highest.None? || priority > current {
          highest, current := Some(a), priority;
        }
      }
      k := k + 1;
    }
    assert arrays[..k] == arrays;
  }

  /** The routed attributes a `forward_value` has; its class sets
      `__array_priority__ = 100`. */
  const ForwardAttrs: set<string> := {"apply", "dot_", "where", "hstack", "sum", "sparsesum", "broadcast_to", "branch_join"}

  /** The `numpy` module, the default of `hstack`. */
  const Numpy: PyObj := PyObj(ModuleNamed("numpy"), {"hstack", "where", "broadcast_to", "sum"}, None)

  /** The `sparsegrad.impl.sparsevec` module, the default of `sparsesum`. */
  const SparseVecModule: PyObj := PyObj(ModuleNamed("sparsegrad.impl.sparsevec"), {"sparsesum"}, None)

  /** What routing sees of the `k`-th argument: an expression with the
      forward attributes and priority 100, or a number with none of them. */
  function Views(arrays: seq<Arg>): (r: seq<PyObj>)
    ensures |r| == |arrays|
    ensures forall k :: 0 <= k < |arrays| ==> r[k].id == Item(k)
    ensures forall k :: 0 <= k < |arrays| && arrays[k].Var? ==> r[k].attrs == ForwardAttrs && r[k].priority == Some(100.0)
    ensures forall k :: 0 <= k < |arrays| && arrays[k].Const? ==> r[k].attrs == {} && r[k].priority.None?
  {
    seq(|arrays|, k requires 0 <= k < |arrays| =>
      if arrays[k].Var? then PyObj(Item(k), ForwardAttrs, Some(100.0)) else PyObj(Item(k), {}, None))
  }

  /** The first expression among the arguments. */
  function FirstVar(arrays: seq<Arg>): (r: Option<nat>)
    ensures r.Some? ==> r.value < |arrays| && arrays[r.value].Var?
    ensures r.Some? ==> forall j :: 0 <= j < r.value ==> arrays[j].Const?
    ensures r.None? ==> forall j :: 0 <= j < |arrays| ==> arrays[j].Const?
  {
    if |arrays| == 0 then None
    else if arrays[0].Var? then Some(0)
    else
      match FirstVar(arrays[1..])
      case None => None
      case Some(i) => Some(i + 1)
  }

  /** All expressions share priority 100, above the default 0, so a routed
      operation goes to the first expression among its arguments, and to
      the default when there is none. */
  lemma RoutesToFirstVar(arrays: seq<Arg>, attr: string, default: PyObj)
    requires attr in ForwardAttrs
    ensures Winner(Views(arrays), Some(attr), Some(default), 0.0) == FirstVar(arrays)
  {
    var xs := Views(arrays);
    var w := Winner(xs, Some(attr), Some(default), 0.0);
    WinnerIsFirstHighest(xs, Some(attr), Some(default), 0.0);
    var f := FirstVar(arrays);
    if f.Some? {
      var i := f.value;
      assert Eligible(xs[i], Some(attr)) && ArrayPriority(xs[i]) == 100.0;
      assert w.Some?;
      var v := w.value;
      assert arrays[v].Var? by {
        assert Eligible(xs[v], Some(attr));
      }
      assert ArrayPriority(xs[v]) == 100.0;
      assert !(v < i);
      assert !(i < v);
    }
  }

  // ----- hstack, stack and sum -----

  /** `hstack(arrays)` (and `stack(*arrays)`, which is `hstack(arrays)`):
      with an expression among the arguments, the first one's `hstack`;
      otherwise `np.hstack`, which refuses an empty list. Either way the
      value is the concatenation of the arguments' values. */
  method HStack(arrays: seq<Arg>) returns (r: Result<Arg>)
    requires forall k :: 0 <= k < |arrays| && arrays[k].Var? ==> ForwardExtended.StackFits(arrays[k].fv, arrays)
    modifies ArgDerivs(arrays)
    ensures forall k :: 0 <= k < |arrays| && arrays[k].Var? ==> arrays[k].fv.deriv.Ok()
    ensures FirstVar(arrays).Some? ==>
      (var f := arrays[FirstVar(arrays).value].fv;
       AllCols(ForwardExtended.PartJacobians(f, arrays), f.deriv.Cols()))
    ensures r.Err? <==> |arrays| == 0
    ensures r.Err? ==> r.error == ValueError("need at least one array to concatenate")
    ensures r.Ok? ==> NValue(r.value) == Vec(ForwardExtended.StackedValue(arrays))
    ensures r.Ok? ==> (r.value.Var? <==> FirstVar(arrays).Some?)
    ensures FirstVar(arrays).Some? ==>
      r.Ok? && r.value.Var? && r.value.fv.Valid() && fresh(r.value.fv.deriv) &&
      (var f := arrays[FirstVar(arrays).value].fv;
       r.value.fv.J() == VStack(ForwardExtended.PartJacobians(f, arrays), f.deriv.Cols()))
  {
    var impl := FindArr(Views(arrays), "hstack", Some(Numpy), 0.0);
    RoutesToFirstVar(arrays, "hstack", Numpy);
    if FirstVar(arrays).Some? {
      var f := arrays[FirstVar(arrays).value].fv;
      ForwardExtended.PartJacobiansCols(f, arrays);
    }
    match impl.value.id
    case Item(k) =>
      var h := ForwardExtended.HStack(arrays[k].fv, arrays);
      r := Ok(Var(h.value));
    case ModuleNamed(_) =>
      if |arrays| == 0 {
        r := Err(ValueError("need at least one array to concatenate"));
      } else {
        r := Ok(Const(Vec(ForwardExtended.StackedValue(arrays))));
      }
  }

  /** `sum(a)`: an expression's own `sum()`, `np.sum` of a number; the value
      is the sum of the elements either way. */
  method Sum(a: Arg) returns (r: Arg)
    requires a.Var? ==> a.fv.Valid()
    modifies DerivOf(a)
    ensures r.Var? <==> a.Var?
    ensures NValue(r) == Scalar(Common.Sum(Elements(NValue(a))))
    ensures r.Var? ==>
      r.fv.Valid() && r.fv.J() == (if a.fv.deriv.sparsity then Pattern(ColSums(a.fv.J())) else ColSums(a.fv.J()))
  {
    match a
    case Var(fv) =>
      var s := ForwardExtended.Sum(fv);
      r := Var(s);
    case Const(c) =>
      r := Const(Scalar(Common.Sum(Elements(c))));
  }

  // ----- sparsesum -----

  /** The numbers a merge result holds. */
  function MergedNumeric(m: Merged<Arg>): (r: Merged<seq<real>>)
    ensures m.DenseMerge? <==> r.DenseMerge?
    ensures m.DenseMerge? ==> r.y == Elements(NValue(m.y))
    ensures m.SparseMerge? ==> r.sv == SparseVec(m.sv.n, m.sv.idx, Elements(NValue(m.sv.v)))
  {
    match m
    case DenseMerge(y) => DenseMerge(Elements(NValue(y)))
    case SparseMerge(sv) => SparseMerge(SparseVec(sv.n, sv.idx, Elements(NValue(sv.v))))
  }

  /** The payload of a merge result. */
  function MergedPayload(m: Merged<Arg>): Arg {
    if m.DenseMerge? then m.y else m.sv.v
  }

  /** A merge of expressions as a merge of arguments. */
  function AsVar(m: Merged<ForwardValue>): (r: Merged<Arg>)
    ensures MergedPayload(r).Var?
    ensures MergedNumeric(r) == match m
      case DenseMerge(y) => DenseMerge(Elements(y.value))
      case SparseMerge(sv) => SparseMerge(SparseVec(sv.n, sv.idx, Elements(sv.v.value)))
  {
    match m
    case DenseMerge(y) => DenseMerge(Var(y))
    case SparseMerge(sv) => SparseMerge(SparseVec(sv.n, sv.idx, Var(sv.v)))
  }

  /** A numeric merge as a merge of constant arguments. */
  function AsConst(m: Merged<seq<real>>): (r: Merged<Arg>)
    ensures MergedPayload(r).Const?
    ensures MergedNumeric(r) == m
  {
    match m
    case DenseMerge(y) => DenseMerge(Const(Vec(y)))
    case SparseMerge(sv) => SparseMerge(SparseVec(sv.n, sv.idx, Const(Vec(sv.v))))
  }

  /** `sparsesum(terms, check_unique=..., return_sparse=...)`: routed on the
      payloads, so the first expression payload's `sparsesum` merges when
      there is one and `sparsegrad.impl.sparsevec.sparsesum` otherwise. The
      numbers are the merge of the payloads' numbers either way, and the
      errors are those of the merge's checks. */
  method SparseSum(terms: seq<SparseVec<Arg>>, checkUnique: bool, returnSparse: bool)
    returns (r: Result<Merged<Arg>>)
    requires PayloadsFit(ForwardExtended.NumericTerms(terms))
    requires forall t :: 0 <= t < |terms| && terms[t].v.Var? ==>
      ForwardExtended.StackFits(terms[t].v.fv, ForwardExtended.TermPayloads(terms))
    modifies ArgDerivs(ForwardExtended.TermPayloads(terms))
    ensures r.Err? <==> Prepare(terms, checkUnique).Err?
    ensures r.Err? ==> r.error == Prepare(terms, checkUnique).error
    ensures r.Ok? ==>
      SparseVecs.SparseSum(ForwardExtended.NumericTerms(terms), KeepDense, checkUnique, returnSparse) == Ok(MergedNumeric(r.value))
    ensures r.Ok? ==> (MergedPayload(r.value).Var? <==> FirstVar(ForwardExtended.TermPayloads(terms)).Some?)
  {
    var payloads := ForwardExtended.TermPayloads(terms);
    var impl := FindArr(Views(payloads), "sparsesum", Some(SparseVecModule), 0.0);
    RoutesToFirstVar(payloads, "sparsesum", SparseVecModule);
    ForwardExtended.PrepareNumeric(terms, checkUnique);
    match impl.value.id
    case Item(k) =>
      var m := ForwardExtended.SparseSum(payloads[k].fv, terms, checkUnique, returnSparse);
      if m.Err? {
        return Err(m.error);
      }
      r := Ok(AsVar(m.value));
    case ModuleNamed(_) =>
      var m := SparseVecs.SparseSum(ForwardExtended.NumericTerms(terms), KeepDense, checkUnique, returnSparse);
      if m.Err? {
        return Err(m.error);
      }
      r := Ok(AsConst(m.value));
  }

  // ----- branch -----

  /** `np.logical_not(cond)`. */
  function Complement(bs: seq<bool>): (r: seq<bool>)
    ensures |r| == |bs| && forall j :: 0 <= j < |bs| ==> r[j] == !bs[j]
  {
    seq(|bs|, j requires 0 <= j < |bs| => !bs[j])
  }

  /** `np.broadcast_to(x, (m,))`: a scalar or a one-element vector is
      repeated, a vector of length `m` is kept, any other length is refused. */
  function BroadcastToLen(x: Num, m: nat): (r: Result<seq<real>>)
    ensures r.Err? <==> x.Vec? && |x.vs| != m && |x.vs| != 1
    ensures r.Err? ==> r.error.ValueError?
    ensures r.Ok? ==> |r.value| == m
    ensures r.Ok? && x.Vec? && |x.vs| == m ==> r.value == x.vs
    ensures r.Ok? && x.Scalar? ==> forall k :: 0 <= k < m ==> r.value[k] == x.v
  {
    match x
    case Scalar(v) => Ok(seq(m, _ => v))
    case Vec(vs) =>
      if |vs| == m then Ok(vs)
      else if |vs| == 1 then Ok(seq(m, _ => vs[0]))
      else Err(ValueError("operands could not be broadcast together"))
  }

  /** The two terms `_branch` merges, once both payloads are broadcast. */
  function BranchTerms(bs: seq<bool>, vt: seq<real>, vf: seq<real>): seq<SparseVec<seq<real>>> {
    [SparseVec(|bs|, TruePositions(bs), vt), SparseVec(|bs|, TruePositions(Complement(bs)), vf)]
  }

  lemma BranchTermsFit(bs: seq<bool>, vt: seq<real>, vf: seq<real>)
    requires |vt| == |TruePositions(bs)| && |vf| == |TruePositions(Complement(bs))|
    ensures PayloadsFit(BranchTerms(bs, vt, vf)) && Prepare(BranchTerms(bs, vt, vf), false).Ok?
    ensures Indices(BranchTerms(bs, vt, vf)) == TruePositions(bs) + TruePositions(Complement(bs))
    ensures Payloads(BranchTerms(bs, vt, vf)) == vt + vf
  {
    var terms := BranchTerms(bs, vt, vf);
    assert terms[1..][1..] == [];
    assert Indices(terms[1..]) == TruePositions(Complement(bs)) + [];
    assert Payloads(terms[1..]) == vf + [];
    assert SameLength(terms);
  }

  /** `branch(cond, iftrue, iffalse)` with numeric results: a scalar
      condition calls one callback with `None`; a vector condition calls
      `iftrue` with the positions where it holds and `iffalse` with the
      others, broadcasts each result to its positions and merges the two
      `sparsevec`s densely. */
  function Branch(c: Cond, iftrue: Option<seq<int>> -> Num, iffalse: Option<seq<int>> -> Num): (r: Result<Num>)
    ensures c.CondScalar? ==> r == Ok(if c.b then iftrue(None) else iffalse(None))
    ensures c.CondVec? ==>
      (r.Err? <==>
        BroadcastToLen(iftrue(Some(TruePositions(c.bs))), |TruePositions(c.bs)|).Err? ||
        BroadcastToLen(iffalse(Some(TruePositions(Complement(c.bs)))), |TruePositions(Complement(c.bs))|).Err?)
    ensures c.CondVec? && r.Ok? ==> r.value.Vec? && |r.value.vs| == |c.bs|
  {
    match c
    case CondScalar(b) => Ok(if b then iftrue(None) else iffalse(None))
    case CondVec(bs) =>
      var ixt, ixf := TruePositions(bs), TruePositions(Complement(bs));
      var vt := BroadcastToLen(iftrue(Some(ixt)), |ixt|);
      var vf := BroadcastToLen(iffalse(Some(ixf)), |ixf|);
      if vt.Err? then Err(vt.error)
      else if vf.Err? then Err(vf.error)
      else
        BranchTermsFit(bs, vt.value, vf.value);
        MergeValues(BranchTerms(bs, vt.value, vf.value), false);
        var m := SparseVecs.SparseSum(BranchTerms(bs, vt.value, vf.value), KeepDense, false, false);
        Ok(Vec(m.value.y))
  }

  /** The positions `_branch` hands to the callbacks split `0..n-1`: each
      list is increasing, the first holds exactly the positions where the
      condition holds, the second exactly the others, and no position is in
      both. */
  lemma BranchPartition(bs: seq<bool>)
    ensures var ixt, ixf := TruePositions(bs), TruePositions(Complement(bs));
      InBounds(ixt, |bs|) && InBounds(ixf, |bs|) && StrictlySorted(ixt) && StrictlySorted(ixf) &&
      (forall j :: 0 <= j < |bs| ==> (j in ixt <==> bs[j]) && (j in ixf <==> !bs[j])) &&
      Distinct(ixt + ixf)
  {
    var ixt, ixf := TruePositions(bs), TruePositions(Complement(bs));
    forall a, b | 0 <= a < b < |ixt + ixf|
      ensures (ixt + ixf)[a] != (ixt + ixf)[b]
    {
      if b >= |ixt| && a < |ixt| {
        assert bs[ixt[a]] && !bs[ixf[b - |ixt|]];
      }
    }
  }

  /** `x[idx]` for a list of positions. */
  function Take(xs: seq<real>, idx: seq<int>): (r: seq<real>)
    requires InBounds(idx, |xs|)
    ensures |r| == |idx| && forall k :: 0 <= k < |idx| ==> r[k] == xs[idx[k]]
  {
    seq(|idx|, k requires 0 <= k < |idx| => xs[idx[k]])
  }

  /** The elementwise choice between `t` and `f`. */
  function Select(bs: seq<bool>, t: seq<real>, f: seq<real>): (r: seq<real>)
    requires |t| == |bs| && |f| == |bs|
    ensures |r| == |bs| && forall j :: 0 <= j < |bs| ==> r[j] == if bs[j] then t[j] else f[j]
  {
    seq(|bs|, j requires 0 <= j < |bs| => if bs[j] then t[j] else f[j])
  }

  /** The dense merge of the two gathered payloads puts `t[j]` where the
      condition holds and `f[j]` elsewhere. */
  lemma MergeOfPartition(bs: seq<bool>, t: seq<real>, f: seq<real>)
    requires |t| == |bs| && |f| == |bs|
    ensures var ixt, ixf := TruePositions(bs), TruePositions(Complement(bs));
      |ixt + ixf| == |Take(t, ixt) + Take(f, ixf)| &&
      Scatter(|bs|, ixt + ixf, Take(t, ixt) + Take(f, ixf)) == Select(bs, t, f)
  {
    var ixt, ixf := TruePositions(bs), TruePositions(Complement(bs));
    var idx, v := ixt + ixf, Take(t, ixt) + Take(f, ixf);
    BranchPartition(bs);
    var y := Scatter(|bs|, idx, v);
    forall j | 0 <= j < |bs|
      ensures y[j] == Select(bs, t, f)[j]
    {
      MergeAt(bs, t, f, j);
    }
  }

  lemma MergeAt(bs: seq<bool>, t: seq<real>, f: seq<real>, j: nat)
    requires |t| == |bs| && |f| == |bs| && j < |bs|
    ensures var ixt, ixf := TruePositions(bs), TruePositions(Complement(bs));
      |ixt + ixf| == |Take(t, ixt) + Take(f, ixf)| &&
      ScatterAt(ixt + ixf, Take(t, ixt) + Take(f, ixf), j) == if bs[j] then t[j] else f[j]
  {
    var ixt, ixf := TruePositions(bs), TruePositions(Complement(bs));
    var idx, v := ixt + ixf, Take(t, ixt) + Take(f, ixf);
    BranchPartition(bs);
    if bs[j] {
      var k :| 0 <= k < |ixt| && ixt[k] == j;
      ScatterDistinct(idx, v, k);
      assert idx[k] == j && v[k] == t[j];
    } else {
      var k :| 0 <= k < |ixf| && ixf[k] == j;
      ScatterDistinct(idx, v, |ixt| + k);
      assert idx[|ixt| + k] == j && v[|ixt| + k] == f[j];
    }
  }

  /** When the callbacks give, after broadcasting, the entries of `t` and of
      `f` at the positions they are handed, `branch` is the elementwise
      choice between `t` and `f`. */
  lemma BranchSelects(bs: seq<bool>, t: seq<real>, f: seq<real>,
                      iftrue: Option<seq<int>> -> Num, iffalse: Option<seq<int>> -> Num)
    requires |t| == |bs| && |f| == |bs|
    requires BroadcastToLen(iftrue(Some(TruePositions(bs))), |TruePositions(bs)|) == Ok(Take(t, TruePositions(bs)))
    requires BroadcastToLen(iffalse(Some(TruePositions(Complement(bs)))), |TruePositions(Complement(bs))|)
      == Ok(Take(f, TruePositions(Complement(bs))))
    ensures Branch(CondVec(bs), iftrue, iffalse) == Ok(Vec(Select(bs, t, f)))
  {
    var ixt, ixf := TruePositions(bs), TruePositions(Complement(bs));
    var vt, vf := Take(t, ixt), Take(f, ixf);
    BranchTermsFit(bs, vt, vf);
    MergeValues(BranchTerms(bs, vt, vf), false);
    MergeOfPartition(bs, t, f);
  }

  /** `branch(cond, lambda idx: x[idx], lambda idx: y[idx])` is the
      elementwise choice between `x` and `y`. */
  lemma BranchOfGathers(bs: seq<bool>, t: seq<real>, f: seq<real>,
                        iftrue: Option<seq<int>> -> Num, iffalse: Option<seq<int>> -> Num)
    requires |t| == |bs| && |f| == |bs|
    requires forall idx :: InBounds(idx, |t|) ==> iftrue(Some(idx)) == Vec(Take(t, idx))
    requires forall idx :: InBounds(idx, |f|) ==> iffalse(Some(idx)) == Vec(Take(f, idx))
    ensures Branch(CondVec(bs), iftrue, iffalse) == Ok(Vec(Select(bs, t, f)))
  {
    BranchSelects(bs, t, f, iftrue, iffalse);
  }

  /** Callbacks returning scalars `a` and `b` give `a` where the condition
      holds and `b` elsewhere. */
  lemma BranchOfScalars(bs: seq<bool>, a: real, b: real,
                        iftrue: Option<seq<int>> -> Num, iffalse: Option<seq<int>> -> Num)
    requires forall o :: iftrue(o) == Scalar(a)
    requires forall o :: iffalse(o) == Scalar(b)
    ensures Branch(CondVec(bs), iftrue, iffalse).Ok?
    ensures var y := Branch(CondVec(bs), iftrue, iffalse).value.vs;
      |y| == |bs| && forall j :: 0 <= j < |bs| ==> y[j] == if bs[j] then a else b
  {
    var t, f := seq(|bs|, _ => a), seq(|bs|, _ => b);
    var ixt, ixf := TruePositions(bs), TruePositions(Complement(bs));
    assert iftrue(Some(ixt)) == Scalar(a) && iffalse(Some(ixf)) == Scalar(b);
    BroadcastConstant(a, t, ixt);
    BroadcastConstant(b, f, ixf);
    BranchSelects(bs, t, f, iftrue, iffalse);
  }

  lemma BroadcastConstant(a: real, t: seq<real>, idx: seq<int>)
    requires InBounds(idx, |t|) && forall j :: 0 <= j < |t| ==> t[j] == a
    ensures BroadcastToLen(Scalar(a), |idx|) == Ok(Take(t, idx))
  {
    assert BroadcastToLen(Scalar(a), |idx|).value == Take(t, idx);
  }
}

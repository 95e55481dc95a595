/** The earlier forward mode: a `value` carries its number, its derivative
    and the factory that built the derivative; an `expr` applies an
    elementwise function to its arguments and accumulates the arguments'
    forwarded derivatives. The function's value and its local derivatives
    (`f.evaluate` and the `f.deriv` formulas) are inputs here. */
module LegacyForward {
  import opened Common
  import opened Matrices
  import opened LegacySparse

  /** `value(value, dvalue, M)`. */
  datatype Value = Value(value: Num, dvalue: Option<Deriv>, m: Option<Factory>)

  /** An argument of `expr`: a `value`, or anything else (a number or an array). */
  datatype Arg = Val(v: Value) | Plain(x: Num)

  /** `nvalue(x)`: `.value` of a `value`, the argument itself otherwise. */
  function NValue(a: Arg): (r: Num)
    ensures a.Val? ==> r == a.v.value
    ensures a.Plain? ==> r == a.x
  {
    match a
    case Val(v) => v.value
    case Plain(x) => x
  }

  // ----- the factory check -----

  /** `M` after the check loop has seen `args`: every `value` argument must
      carry the factory of the `value` before it, unless that one had none. */
  function FactoryAfter(args: seq<Arg>): Result<Option<Factory>> {
    if |args| == 0 then Ok(None)
    else
      var prev := FactoryAfter(args[..|args| - 1]);
      var a := args[|args| - 1];
      if prev.Err? || a.Plain? then prev
      else if prev.value.None? || prev.value == a.v.m then Ok(a.v.m)
      else Err(AssertionError("inconsistent matrix factories"))
  }

  /** Two `value` arguments, the earlier with a factory, the later with a
      different one (or none). */
  predicate Conflict(args: seq<Arg>) {
    exists i, j :: 0 <= i < j < |args| && args[i].Val? && args[j].Val? &&
      args[i].v.m.Some? && args[j].v.m != args[i].v.m
  }

  /** The factory of the last `value` argument, if any. */
  function LastFactory(args: seq<Arg>): Option<Factory> {
    if |args| == 0 then None
    else if args[|args| - 1].Val? then args[|args| - 1].v.m
    else LastFactory(args[..|args| - 1])
  }

  /** A `value` argument with a factory makes the last factory a factory. */
  lemma {:induction false} LastFactoryAfter(args: seq<Arg>, i: nat)
    requires i < |args| && args[i].Val? && args[i].v.m.Some? && !Conflict(args)
    ensures LastFactory(args) == args[i].v.m
    decreases |args|
  {
    var n := |args| - 1;
    if i < n {
      var p := args[..n];
      if args[n].Val? {
        assert args[n].v.m == args[i].v.m;
      } else {
        assert !Conflict(p);
        LastFactoryAfter(p, i);
      }
    }
  }

  /** The last factory is some `value` argument's factory. */
  lemma {:induction false} LastFactoryWitness(args: seq<Arg>)
    requires LastFactory(args).Some?
    ensures exists i :: 0 <= i < |args| && args[i].Val? && args[i].v.m == LastFactory(args)
    decreases |args|
  {
    var n := |args| - 1;
    if !args[n].Val? {
      LastFactoryWitness(args[..n]);
      var i :| 0 <= i < n && args[..n][i].Val? && args[..n][i].v.m == LastFactory(args[..n]);
      assert args[i] == args[..n][i];
    }
  }

  /** The check fails exactly on a conflict, and otherwise leaves `M` at the
      last factory seen. */
  lemma {:induction false} FactoryCheck(args: seq<Arg>)
    ensures FactoryAfter(args).Err? <==> Conflict(args)
    ensures FactoryAfter(args).Err? ==> FactoryAfter(args).error == AssertionError("inconsistent matrix factories")
    ensures FactoryAfter(args).Ok? ==> FactoryAfter(args).value == LastFactory(args)
    decreases |args|
  {
    if |args| > 0 {
      var n := |args| - 1;
      var p, a := args[..n], args[n];
      FactoryCheck(p);
      assert forall k :: 0 <= k < n ==> args[k] == p[k];
      if Conflict(p) {
        var i, j :| 0 <= i < j < |p| && p[i].Val? && p[j].Val? && p[i].v.m.Some? && p[j].v.m != p[i].v.m;
        assert args[i] == p[i] && args[j] == p[j];
      } else if a.Plain? {
        assert !Conflict(args);
      } else if LastFactory(p).Some? && LastFactory(p) != a.v.m {
        LastFactoryWitness(p);
      } else {
        assert !Conflict(args) by {
          if Conflict(args) {
            var i, j :| 0 <= i < j < |args| && args[i].Val? && args[j].Val? && args[i].v.m.Some? && args[j].v.m != args[i].v.m;
            assert j == n;
            LastFactoryAfter(p, i);
          }
        }
      }
    }
  }

  // ----- the arguments -----

  /** What the first loop of `expr.__init__` gathers: `argsv`, `dargsv`,
      `M` and `has_deriv`. */
  datatype Collected = Collected(argsv: seq<Num>, dargsv: seq<Option<Deriv>>, m: Option<Factory>, hasDeriv: bool)

  /** The derivative slot of an argument: `a.dvalue` of a `value`, `None` otherwise. */
  function DerivSlot(a: Arg): Option<Deriv> {
    if a.Val? then a.v.dvalue else None
  }

  predicate HasValue(args: seq<Arg>) {
    exists i :: 0 <= i < |args| && args[i].Val?
  }

  /** The first loop of `expr.__init__`: numbers pass through `nvalue`,
      non-`value` arguments get the derivative slot `None`, and the factory
      check fails on inconsistent factories. */
  method CollectArgs(args: seq<Arg>) returns (r: Result<Collected>)
    ensures r.Err? <==> Conflict(args)
    ensures r.Err? ==> r.error == AssertionError("inconsistent matrix factories")
    ensures r.Ok? ==> r.value.m == LastFactory(args) && (r.value.hasDeriv <==> HasValue(args))
    ensures r.Ok? ==> |r.value.argsv| == |args| && |r.value.dargsv| == |args|
    ensures r.Ok? ==> forall i :: 0 <= i < |args| ==>
      r.value.argsv[i] == NValue(args[i]) && r.value.dargsv[i] == DerivSlot(args[i])
  {
    var argsv: seq<Num> := [];
    var dargsv: seq<Option<Deriv>> := [];
    var m: Option<Factory> := None;
    var hasDeriv := false;
    var k := 0;
    while k < |args|
      invariant 0 <= k <= |args| && |argsv| == k && |dargsv| == k
      invariant FactoryAfter(args[..k]) == Ok(m)
      invariant hasDeriv <==> HasValue(args[..k])
      invariant forall i :: 0 <= i < k ==> argsv[i] == NValue(args[i]) && dargsv[i] == DerivSlot(args[i])
    {
      var a := args[k];
      assert args[..k + 1][..k] == args[..k];
      if a.Val? {
        if m.Some? && m != a.v.m {
          FactoryCheck(args[..k + 1]);
          ConflictExtends(args, k + 1);
          return Err(AssertionError("inconsistent matrix factories"));
        }
        m := a.v.m;
        hasDeriv := true;
      }
      argsv := argsv + [NValue(a)];
      dargsv := dargsv + [DerivSlot(a)];
      assert HasValue(args[..k + 1]) <==> HasValue(args[..k]) || a.Val? by {
        assert forall i :: 0 <= i < k ==> args[..k + 1][i] == args[..k][i];
      }
      k := k + 1;
    }
    assert args[..k] == args;
    FactoryCheck(args);
    r := Ok(Collected(argsv, dargsv, m, hasDeriv));
  }

  lemma ConflictExtends(args: seq<Arg>, k: nat)
    requires k <= |args| && Conflict(args[..k])
    ensures Conflict(args)
  {
    var i, j :| 0 <= i < j < k && args[..k][i].Val? && args[..k][j].Val? &&
      args[..k][i].v.m.Some? && args[..k][j].v.m != args[..k][i].v.m;
    assert args[i] == args[..k][i] && args[j] == args[..k][j];
  }

  // ----- forwarding the derivatives -----

  /** The local derivatives `f.deriv(args, value)` fit the result. */
  predicate DffsFit(y: Num, dffs: seq<Option<Num>>) {
    forall i :: 0 <= i < |dffs| && dffs[i].Some? ==> DffFits(y, dffs[i].value)
  }

  /** One triple `(a, da, dff)` of `zip(args, dargs, f.deriv(args, value))`
      after the sum `prev`: a missing derivative or local derivative is
      skipped, otherwise `s(M.eforward(value, a, da, dff))`. */
  function Advance(f: Factory, y: Num, prev: Result<Option<Deriv>>, a: Num, da: Option<Deriv>, dff: Option<Num>)
    : (r: Result<Option<Deriv>>)
    requires dff.Some? ==> DffFits(y, dff.value)
    ensures prev.Err? || da.None? || dff.None? ==> r == prev
    ensures prev.Ok? && da.Some? && dff.Some? && EForward(f, y, a, da.value, dff.value).Err? ==>
      r == Err(EForward(f, y, a, da.value, dff.value).error)
    ensures prev.Ok? && da.Some? && dff.Some? && EForward(f, y, a, da.value, dff.value).Ok? ==>
      r == Step(f, prev.value, EForward(f, y, a, da.value, dff.value).value)
  {
    if prev.Err? || da.None? || dff.None? then prev
    else
      var e := EForward(f, y, a, da.value, dff.value);
      if e.Err? then Err(e.error) else Step(f, prev.value, e.value)
  }

  /** The accumulator's content after the first `k` triples. */
  function Run(f: Factory, y: Num, argsv: seq<Num>, dargsv: seq<Option<Deriv>>, dffs: seq<Option<Num>>, k: nat)
    : Result<Option<Deriv>>
    requires |dargsv| == |argsv| && k <= |argsv| && k <= |dffs| && DffsFit(y, dffs)
  {
    if k == 0 then Ok(None)
    else Advance(f, y, Run(f, y, argsv, dargsv, dffs, k - 1), argsv[k - 1], dargsv[k - 1], dffs[k - 1])
  }

  /** The body of `f.forward`'s loop on one triple, feeding the accumulator. */
  method Feed(s: Accumulator, y: Num, a: Num, da: Option<Deriv>, dff: Option<Num>) returns (r: Result<()>)
    requires s.Valid() && (dff.Some? ==> DffFits(y, dff.value))
    modifies s
    ensures s.Valid()
    ensures r.Ok? <==> Advance(s.factory, y, Ok(old(s.s)), a, da, dff).Ok?
    ensures r.Ok? ==> Advance(s.factory, y, Ok(old(s.s)), a, da, dff) == Ok(s.s)
    ensures r.Err? ==> Advance(s.factory, y, Ok(old(s.s)), a, da, dff) == Err(r.error)
  {
    r := Ok(());
    if da.Some? && dff.Some? {
      var e := EForward(s.factory, y, a, da.value, dff.value);
      if e.Err? {
        return Err(e.error);
      }
      r := s.Call(e.value);
    }
  }

  /** `f.forward(argsv, y, dargsv, s)` followed by `s.value()`. */
  method ForwardTerms(f: Factory, y: Num, argsv: seq<Num>, dargsv: seq<Option<Deriv>>, dffs: seq<Option<Num>>)
    returns (r: Result<Option<Deriv>>)
    requires |dargsv| == |argsv| && DffsFit(y, dffs)
    ensures var s := Run(f, y, argsv, dargsv, dffs, Min(|argsv|, |dffs|));
      if s.Err? then r == Err(s.error) else r == Finish(f, s.value)
  {
    var n := Min(|argsv|, |dffs|);
    var s := new Accumulator(f);
    var i := 0;
    while i < n
      invariant 0 <= i <= n && s.Valid() && s.factory == f
      invariant Run(f, y, argsv, dargsv, dffs, i) == Ok(s.s)
    {
      var c := Feed(s, y, argsv[i], dargsv[i], dffs[i]);
      if c.Err? {
        RunStaysFailed(f, y, argsv, dargsv, dffs, i + 1, n);
        return Err(c.error);
      }
      i := i + 1;
    }
    r := s.Value();
  }

  function Min(a: nat, b: nat): nat {
    if a < b then a else b
  }

  /** The first error ends the run. */
  lemma {:induction false} RunStaysFailed(f: Factory, y: Num, argsv: seq<Num>, dargsv: seq<Option<Deriv>>,
                                          dffs: seq<Option<Num>>, k: nat, n: nat)
    requires |dargsv| == |argsv| && k <= n <= |argsv| && n <= |dffs| && DffsFit(y, dffs)
    requires Run(f, y, argsv, dargsv, dffs, k).Err?
    ensures Run(f, y, argsv, dargsv, dffs, n) == Run(f, y, argsv, dargsv, dffs, k)
    decreases n - k
  {
    if k < n {
      RunStaysFailed(f, y, argsv, dargsv, dffs, k, n - 1);
    }
  }

  /** `argsv` of the arguments. */
  function ArgValues(args: seq<Arg>): (r: seq<Num>)
    ensures |r| == |args| && forall i :: 0 <= i < |args| ==> r[i] == NValue(args[i])
  {
    seq(|args|, i requires 0 <= i < |args| => NValue(args[i]))
  }

  /** `dargsv` of the arguments. */
  function ArgSlots(args: seq<Arg>): (r: seq<Option<Deriv>>)
    ensures |r| == |args| && forall i :: 0 <= i < |args| ==> r[i] == DerivSlot(args[i])
  {
    seq(|args|, i requires 0 <= i < |args| => DerivSlot(args[i]))
  }

  /** The outcome of `expr(f, *args)` for the function value `y` and local
      derivatives `dffs`. */
  function ExprSpec(args: seq<Arg>, y: Num, dffs: seq<Option<Num>>): Result<Value>
    requires DffsFit(y, dffs)
  {
    var fa := FactoryAfter(args);
    if fa.Err? then Err(fa.error)
    else if !HasValue(args) then Ok(Value(y, None, fa.value))
    else if fa.value.None? then Err(AttributeError("'NoneType' object has no attribute 'accumulator'"))
    else
      var s := Run(fa.value.value, y, ArgValues(args), ArgSlots(args), dffs, Min(|args|, |dffs|));
      if s.Err? then Err(s.error)
      else
        var dy := Finish(fa.value.value, s.value);
        if dy.Err? then Err(dy.error) else Ok(Value(y, dy.value, fa.value))
  }

  /** `expr(f, *args)`: check and collect the arguments, then forward and
      accumulate their derivatives when any argument is a `value`. */
  method Expr(args: seq<Arg>, y: Num, dffs: seq<Option<Num>>) returns (r: Result<Value>)
    requires DffsFit(y, dffs)
    ensures r == ExprSpec(args, y, dffs)
  {
    FactoryCheck(args);
    var c := CollectArgs(args);
    if c.Err? {
      return Err(c.error);
    }
    var col := c.value;
    if !col.hasDeriv {
      return Ok(Value(y, None, col.m));
    }
    if col.m.None? {
      return Err(AttributeError("'NoneType' object has no attribute 'accumulator'"));
    }
    assert col.argsv == ArgValues(args) && col.dargsv == ArgSlots(args);
    var dy := ForwardTerms(col.m.value, y, col.argsv, col.dargsv, dffs);
    if dy.Err? {
      return Err(dy.error);
    }
    r := Ok(Value(y, dy.value, col.m));
  }

  /** Inconsistent factories fail the assertion, whatever the function. */
  lemma ExprConflict(args: seq<Arg>, y: Num, dffs: seq<Option<Num>>)
    requires DffsFit(y, dffs) && Conflict(args)
    ensures ExprSpec(args, y, dffs) == Err(AssertionError("inconsistent matrix factories"))
  {
    FactoryCheck(args);
  }

  /** With no `value` argument, `dvalue` and `M` stay `None`. */
  lemma ExprWithoutValues(args: seq<Arg>, y: Num, dffs: seq<Option<Num>>)
    requires DffsFit(y, dffs) && forall i :: 0 <= i < |args| ==> args[i].Plain?
    ensures ExprSpec(args, y, dffs) == Ok(Value(y, None, None))
  {
    FactoryCheck(args);
    LastFactoryNone(args);
  }

  lemma {:induction false} LastFactoryNone(args: seq<Arg>)
    requires forall i :: 0 <= i < |args| ==> args[i].Plain?
    ensures LastFactory(args).None?
    decreases |args|
  {
    if |args| > 0 {
      LastFactoryNone(args[..|args| - 1]);
    }
  }

  // ----- the accumulated contributions -----

  /** The derivatives that `f.forward` passes to the accumulator among the
      first `k` triples, or the first `eforward` error. */
  function Contribs(f: Factory, y: Num, argsv: seq<Num>, dargsv: seq<Option<Deriv>>, dffs: seq<Option<Num>>, k: nat)
    : Result<seq<Deriv>>
    requires |dargsv| == |argsv| && k <= |argsv| && k <= |dffs| && DffsFit(y, dffs)
  {
    if k == 0 then Ok([])
    else
      var prev := Contribs(f, y, argsv, dargsv, dffs, k - 1);
      var i := k - 1;
      if prev.Err? || dargsv[i].None? || dffs[i].None? then prev
      else
        var e := EForward(f, y, argsv[i], dargsv[i].value, dffs[i].value);
        if e.Err? then Err(e.error) else Ok(prev.value + [e.value])
  }

  /** The loop stops at the first error, so a completed run saw no
      `eforward` error, and its sum is the accumulator's total of the
      contributions. */
  lemma {:induction false} RunIsTotal(f: Factory, y: Num, argsv: seq<Num>, dargsv: seq<Option<Deriv>>,
                                      dffs: seq<Option<Num>>, k: nat)
    requires |dargsv| == |argsv| && k <= |argsv| && k <= |dffs| && DffsFit(y, dffs)
    requires Run(f, y, argsv, dargsv, dffs, k).Ok?
    ensures Contribs(f, y, argsv, dargsv, dffs, k).Ok?
    ensures Run(f, y, argsv, dargsv, dffs, k) == Total(f, Contribs(f, y, argsv, dargsv, dffs, k).value)
  {
    if k > 0 {
      RunIsTotal(f, y, argsv, dargsv, dffs, k - 1);
      var c := Contribs(f, y, argsv, dargsv, dffs, k - 1).value;
      var i := k - 1;
      if dargsv[i].Some? && dffs[i].Some? {
        var e := EForward(f, y, argsv[i], dargsv[i].value, dffs[i].value);
        assert (c + [e.value])[..|c|] == c;
      }
    }
  }

  /** Without `eforward` errors the run is the total of the contributions
      (a failing `+=` may still end it early). */
  lemma {:induction false} ContribsAreTotal(f: Factory, y: Num, argsv: seq<Num>, dargsv: seq<Option<Deriv>>,
                                            dffs: seq<Option<Num>>, k: nat)
    requires |dargsv| == |argsv| && k <= |argsv| && k <= |dffs| && DffsFit(y, dffs)
    requires Contribs(f, y, argsv, dargsv, dffs, k).Ok?
    ensures Run(f, y, argsv, dargsv, dffs, k) == Total(f, Contribs(f, y, argsv, dargsv, dffs, k).value)
  {
    if k > 0 {
      ContribsAreTotal(f, y, argsv, dargsv, dffs, k - 1);
      var c := Contribs(f, y, argsv, dargsv, dffs, k - 1).value;
      var i := k - 1;
      if dargsv[i].Some? && dffs[i].Some? {
        var e := EForward(f, y, argsv[i], dargsv[i].value, dffs[i].value);
        assert (c + [e.value])[..|c|] == c;
      }
    }
  }

  /** What `eforward` on a vector result needs of an argument's derivative
      to chain with it: one row for a broadcast scalar argument, one row
      per element otherwise. */
  predicate DerivFits(y: Num, a: Num, da: Deriv) {
    (a.Scalar? && y.Vec? && !da.DScalar? ==> Rows(da) == 1) &&
    (!(a.Scalar? && y.Vec?) && y.Vec? ==> !da.DScalar? && Rows(da) == |y.vs|)
  }

  /** The sparsity derivatives `sd` track the standard derivatives `d` of
      the same arguments, slot by slot. */
  predicate SlotsTrack(y: Num, argsv: seq<Num>, sd: seq<Option<Deriv>>, d: seq<Option<Deriv>>) {
    |sd| == |argsv| && |d| == |argsv| &&
    forall i :: 0 <= i < |argsv| ==>
      (sd[i].Some? <==> d[i].Some?) &&
      (d[i].Some? ==> Tracks(sd[i].value, d[i].value) && DerivFits(y, argsv[i], d[i].value))
  }

  /** The sparsity factory forwards a tracking derivative for every
      derivative the standard factory forwards; for a vector result these
      are matrices. */
  lemma {:induction false} ContribsTrack(y: Num, argsv: seq<Num>, sd: seq<Option<Deriv>>, d: seq<Option<Deriv>>,
                                         dffs: seq<Option<Num>>, k: nat)
    requires y.Vec? && SlotsTrack(y, argsv, sd, d) && k <= |argsv| && k <= |dffs| && DffsFit(y, dffs)
    ensures Contribs(Sparsity, y, argsv, sd, dffs, k).Ok? && Contribs(Standard, y, argsv, d, dffs, k).Ok?
    ensures var sus, us := Contribs(Sparsity, y, argsv, sd, dffs, k).value, Contribs(Standard, y, argsv, d, dffs, k).value;
      |sus| == |us| && forall t :: 0 <= t < |us| ==> Tracks(sus[t], us[t]) && !us[t].DScalar?
  {
    if k > 0 {
      ContribsTrack(y, argsv, sd, d, dffs, k - 1);
      var i := k - 1;
      if d[i].Some? && dffs[i].Some? {
        EForwardTracks(y, argsv[i], sd[i].value, d[i].value, dffs[i].value);
        EForwardVector(y, argsv[i], d[i].value, dffs[i].value);
      }
    }
  }

  /** For a vector result the standard `eforward` gives a matrix. */
  lemma EForwardVector(y: Num, a: Num, da: Deriv, dff: Num)
    requires y.Vec? && DffFits(y, dff) && EForward(Standard, y, a, da, dff).Ok?
    ensures EForward(Standard, y, a, da, dff).value.DMatrix?
  {
  }

  /** Every `value` argument carries the factory `f`. */
  predicate AllWith(args: seq<Arg>, f: Factory) {
    forall i :: 0 <= i < |args| && args[i].Val? ==> args[i].v.m == Some(f)
  }

  lemma {:induction false} AllWithLast(args: seq<Arg>, f: Factory)
    requires AllWith(args, f) && HasValue(args)
    ensures !Conflict(args) && LastFactory(args) == Some(f)
    decreases |args|
  {
    var n := |args| - 1;
    if args[n].Plain? {
      var i :| 0 <= i < |args| && args[i].Val?;
      assert args[..n][i] == args[i];
      AllWithLast(args[..n], f);
    }
  }

  /** `sargs` are the `seed_sparsity` counterparts of `args`: the same
      numbers, the sparsity factory in place of the standard one, and
      derivatives that track the standard ones. */
  predicate Counterparts(y: Num, sargs: seq<Arg>, args: seq<Arg>) {
    |sargs| == |args| && AllWith(sargs, Sparsity) && AllWith(args, Standard) &&
    forall i :: 0 <= i < |args| ==>
      sargs[i].Val? == args[i].Val? && NValue(sargs[i]) == NValue(args[i]) &&
      (DerivSlot(sargs[i]).Some? <==> DerivSlot(args[i]).Some?) &&
      (DerivSlot(args[i]).Some? ==>
         Tracks(DerivSlot(sargs[i]).value, DerivSlot(args[i]).value) &&
         DerivFits(y, NValue(args[i]), DerivSlot(args[i]).value))
  }

  /** The sparsity mode covers the derivative: when `expr` under the
      standard factory yields a Jacobian for a vector result, the same
      `expr` on the sparsity counterparts yields a `socsr` whose pattern
      has a one wherever that Jacobian is nonzero. */
  lemma ExprTracks(sargs: seq<Arg>, args: seq<Arg>, y: Num, dffs: seq<Option<Num>>)
    requires DffsFit(y, dffs) && y.Vec? && Counterparts(y, sargs, args)
    requires ExprSpec(args, y, dffs).Ok? && ExprSpec(args, y, dffs).value.dvalue.Some?
    ensures ExprSpec(sargs, y, dffs).Ok? && ExprSpec(sargs, y, dffs).value.dvalue.Some?
    ensures ExprSpec(sargs, y, dffs).value.m == Some(Sparsity)
    ensures Tracks(ExprSpec(sargs, y, dffs).value.dvalue.value, ExprSpec(args, y, dffs).value.dvalue.value)
  {
    FactoryCheck(args);
    FactoryCheck(sargs);
    assert HasValue(args);
    var i :| 0 <= i < |args| && args[i].Val?;
    assert sargs[i].Val?;
    AllWithLast(args, Standard);
    AllWithLast(sargs, Sparsity);
    var n := Min(|args|, |dffs|);
    var argsv, d, sd := ArgValues(args), ArgSlots(args), ArgSlots(sargs);
    assert ArgValues(sargs) == argsv;
    assert SlotsTrack(y, argsv, sd, d);
    RunTracks(y, argsv, sd, d, dffs, n);
  }

  /** The sparsity run tracks the standard run, and so do their `value()`s. */
  lemma RunTracks(y: Num, argsv: seq<Num>, sd: seq<Option<Deriv>>, d: seq<Option<Deriv>>, dffs: seq<Option<Num>>, n: nat)
    requires y.Vec? && SlotsTrack(y, argsv, sd, d) && n <= |argsv| && n <= |dffs| && DffsFit(y, dffs)
    requires Run(Standard, y, argsv, d, dffs, n).Ok? && Run(Standard, y, argsv, d, dffs, n).value.Some?
    ensures Run(Sparsity, y, argsv, sd, dffs, n).Ok?
    ensures var sp, st := Finish(Sparsity, Run(Sparsity, y, argsv, sd, dffs, n).value),
                          Finish(Standard, Run(Standard, y, argsv, d, dffs, n).value);
      sp.Ok? && st.Ok? && sp.value.Some? && st.value.Some? && Tracks(sp.value.value, st.value.value)
  {
    RunIsTotal(Standard, y, argsv, d, dffs, n);
    ContribsTrack(y, argsv, sd, d, dffs, n);
    ContribsAreTotal(Sparsity, y, argsv, sd, dffs, n);
    var us := Contribs(Standard, y, argsv, d, dffs, n).value;
    var sus := Contribs(Sparsity, y, argsv, sd, dffs, n).value;
    TotalTracks(sus, us);
    var sp := Total(Sparsity, sus).value.value;
    PatternCovers(sp.m, Total(Standard, us).value.value.m);
  }

  // ----- seeds -----

  /** `seed(x, M)`: derivative `1.` for a scalar, the identity for a vector. */
  function Seed(x: Num, f: Factory): (r: Value)
    ensures r.value == x && r.m == Some(f) && r.dvalue.Some?
    ensures x.Scalar? ==> r.dvalue == Some(DScalar(1.0))
    ensures x.Vec? ==> !r.dvalue.value.DScalar? && ToCsr(r.dvalue.value) == Identity(|x.vs|)
  {
    match x
    case Scalar(_) => Value(x, Some(DScalar(1.0)), Some(f))
    case Vec(vs) => Value(x, Some(IdentityMatrix(f, |vs|)), Some(f))
  }

  /** `seed_sparsity(x)`: the seed under the sparsity factory. */
  function SeedSparsity(x: Num): (r: Value)
    ensures r == Seed(x, Sparsity)
  {
    Seed(x, Sparsity)
  }

  /** `seed_sparse_gradient(x)`: the seed under the standard factory. */
  function SeedSparseGradient(x: Num): (r: Value)
    ensures r == Seed(x, Standard)
  {
    Seed(x, Standard)
  }

  /** The two seeds start the tracking: the sparsity seed's pattern is the
      standard seed's Jacobian. */
  lemma SeedTracks(x: Num)
    ensures Tracks(SeedSparsity(x).dvalue.value, SeedSparseGradient(x).dvalue.value)
  {
    if x.Vec? {
      assert ToCsr(SoIdentity(|x.vs|)) == Identity(|x.vs|);
    }
  }

  /** A seed and its sparsity seed are counterparts for any result of the
      seed's length, so one `expr` step from the seeds is tracked. */
  lemma SeedCounterparts(x: Num, y: Num)
    requires y.Vec? && (x.Vec? ==> |x.vs| == |y.vs|)
    ensures Counterparts(y, [Val(SeedSparsity(x))], [Val(SeedSparseGradient(x))])
  {
    SeedTracks(x);
  }
}

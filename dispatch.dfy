/** Multiple dispatch: a registry of functions keyed by type signatures,
    resolved to the most specific signatures that an argument signature
    supersedes, with a cache of resolutions that registration clears.
    Types are abstract; `sub(a, b)` stands for `issubclass(a, b)`. */
module MultipleDispatch {
  import opened Common

  /** `issubclass` is reflexive, transitive and antisymmetric. */
  ghost predicate PartialOrder<T(!new)>(sub: (T, T) -> bool) {
    (forall a :: sub(a, a)) &&
    (forall a, b, c :: sub(a, b) && sub(b, c) ==> sub(a, c)) &&
    (forall a, b :: sub(a, b) && sub(b, a) ==> a == b)
  }

  /** `supersedes(a, b)`: `a` is at least as specific as `b`, position by
      position; signatures of different lengths never supersede. */
  predicate Supersedes<T(!new)>(sub: (T, T) -> bool, a: seq<T>, b: seq<T>) {
    |a| == |b| && forall i :: 0 <= i < |a| ==> sub(a[i], b[i])
  }

  lemma SupersedesReflexive<T(!new)>(sub: (T, T) -> bool, a: seq<T>)
    requires PartialOrder(sub)
    ensures Supersedes(sub, a, a)
  {
  }

  lemma SupersedesTransitive<T(!new)>(sub: (T, T) -> bool, a: seq<T>, b: seq<T>, c: seq<T>)
    requires PartialOrder(sub) && Supersedes(sub, a, b) && Supersedes(sub, b, c)
    ensures Supersedes(sub, a, c)
  {
    forall i | 0 <= i < |a|
      ensures sub(a[i], c[i])
    {
      assert sub(a[i], b[i]) && sub(b[i], c[i]);
    }
  }

  lemma SupersedesAntisymmetric<T(!new)>(sub: (T, T) -> bool, a: seq<T>, b: seq<T>)
    requires PartialOrder(sub) && Supersedes(sub, a, b) && Supersedes(sub, b, a)
    ensures a == b
  {
    forall i | 0 <= i < |a|
      ensures a[i] == b[i]
    {
      assert sub(a[i], b[i]) && sub(b[i], a[i]);
    }
  }

  // ----- `_find` -----

  /** `[match for match in matches if not _supersedes(s, match)]`. */
  function Drop<T(!new)>(sub: (T, T) -> bool, matches: seq<seq<T>>, s: seq<T>): (r: seq<seq<T>>)
    ensures forall x :: x in r <==> x in matches && !Supersedes(sub, s, x)
    ensures Distinct(matches) ==> Distinct(r)
  {
    if |matches| == 0 then []
    else
      var rest := Drop(sub, matches[1..], s);
      assert forall x :: x in matches[1..] ==> x in matches;
      if Supersedes(sub, s, matches[0]) then rest else [matches[0]] + rest
  }

  ghost predicate Distinct<T(!new)>(s: seq<T>) {
    forall i, j :: 0 <= i < j < |s| ==> s[i] != s[j]
  }

  /** Whether some match is at least as specific as `s`. */
  predicate Covered<T(!new)>(sub: (T, T) -> bool, matches: seq<seq<T>>, s: seq<T>) {
    exists k :: 0 <= k < |matches| && Supersedes(sub, matches[k], s)
  }

  /** `_find(a)` over the registered signatures `sigs`, in registration
      order: an applicable signature that no current match supersedes
      replaces the matches it supersedes and is appended. */
  function Find<T(!new)>(sub: (T, T) -> bool, sigs: seq<seq<T>>, a: seq<T>): (r: seq<seq<T>>)
    ensures forall x :: x in r ==> x in sigs && Supersedes(sub, a, x)
  {
    if |sigs| == 0 then []
    else
      var m := Find(sub, sigs[..|sigs| - 1], a);
      var s := sigs[|sigs| - 1];
      if !Supersedes(sub, a, s) || Covered(sub, m, s) then m
      else Drop(sub, m, s) + [s]
  }

  /** `x` is an applicable signature that no other applicable signature
      supersedes. */
  ghost predicate Minimal<T(!new)>(sub: (T, T) -> bool, sigs: seq<seq<T>>, a: seq<T>, x: seq<T>) {
    x in sigs && Supersedes(sub, a, x) &&
    forall y :: y in sigs && Supersedes(sub, a, y) && Supersedes(sub, y, x) ==> y == x
  }

  /** What the loop of `_find` keeps: applicable matches, none superseding
      another, no repeats, and every applicable signature seen so far
      superseded by one of them. */
  ghost predicate FindInv<T(!new)>(sub: (T, T) -> bool, sigs: seq<seq<T>>, a: seq<T>, m: seq<seq<T>>) {
    Distinct(m) &&
    (forall x, y :: x in m && y in m && x != y ==> !Supersedes(sub, x, y)) &&
    (forall s :: s in sigs && Supersedes(sub, a, s) ==> Covered(sub, m, s))
  }

  lemma {:induction false} FindKeepsInv<T(!new)>(sub: (T, T) -> bool, sigs: seq<seq<T>>, a: seq<T>)
    requires PartialOrder(sub)
    ensures FindInv(sub, sigs, a, Find(sub, sigs, a))
  {
    if |sigs| > 0 {
      var p := sigs[..|sigs| - 1];
      var m := Find(sub, p, a);
      var s := sigs[|sigs| - 1];
      FindKeepsInv(sub, p, a);
      assert sigs == p + [s];
      if Supersedes(sub, a, s) && !Covered(sub, m, s) {
        AppendKeepsAntichain(sub, s, m);
        AppendKeepsCover(sub, p, s, a, m);
      }
    }
  }

  /** Appending an uncovered signature after dropping what it supersedes
      keeps the matches distinct and free of superseding pairs. */
  lemma AppendKeepsAntichain<T(!new)>(sub: (T, T) -> bool, s: seq<T>, m: seq<seq<T>>)
    requires PartialOrder(sub) && !Covered(sub, m, s) && Distinct(m)
    requires forall x, y :: x in m && y in m && x != y ==> !Supersedes(sub, x, y)
    ensures var r := Drop(sub, m, s) + [s];
      Distinct(r) && forall x, y :: x in r && y in r && x != y ==> !Supersedes(sub, x, y)
  {
    var d := Drop(sub, m, s);
    var r := d + [s];
    SupersedesReflexive(sub, s);
    assert s !in d;
    forall i, j | 0 <= i < j < |r|
      ensures r[i] != r[j]
    {
      if j == |d| {
        assert r[i] in d;
      } else {
        assert r[i] == d[i] && r[j] == d[j];
      }
    }
    forall x, y | x in r && y in r && x != y
      ensures !Supersedes(sub, x, y)
    {
      if x == s {
        assert y in d;
      } else if y == s {
        assert x in m;
      }
    }
  }

  /** ... and every applicable signature stays superseded by a match. */
  lemma AppendKeepsCover<T(!new)>(sub: (T, T) -> bool, p: seq<seq<T>>, s: seq<T>, a: seq<T>, m: seq<seq<T>>)
    requires PartialOrder(sub)
    requires forall t :: t in p && Supersedes(sub, a, t) ==> Covered(sub, m, t)
    ensures forall t :: t in p + [s] && Supersedes(sub, a, t) ==> Covered(sub, Drop(sub, m, s) + [s], t)
  {
    var d := Drop(sub, m, s);
    var r := d + [s];
    SupersedesReflexive(sub, s);
    forall t | t in p + [s] && Supersedes(sub, a, t)
      ensures Covered(sub, r, t)
    {
      if t == s {
        assert r[|d|] == s;
      } else {
        assert t in p;
        var k :| 0 <= k < |m| && Supersedes(sub, m[k], t);
        if m[k] in d {
          var i :| 0 <= i < |d| && d[i] == m[k];
          assert r[i] == m[k];
        } else {
          SupersedesTransitive(sub, s, m[k], t);
          assert r[|d|] == s;
        }
      }
    }
  }

  /** `_find(a)` returns exactly the minimal applicable signatures, each
      once: the most specific registrations that the call's types supersede. */
  lemma FindIsMinimal<T(!new)>(sub: (T, T) -> bool, sigs: seq<seq<T>>, a: seq<T>)
    requires PartialOrder(sub)
    ensures Distinct(Find(sub, sigs, a))
    ensures forall x :: x in Find(sub, sigs, a) <==> Minimal(sub, sigs, a, x)
  {
    var m := Find(sub, sigs, a);
    FindKeepsInv(sub, sigs, a);
    forall x | x in m
      ensures Minimal(sub, sigs, a, x)
    {
      forall y | y in sigs && Supersedes(sub, a, y) && Supersedes(sub, y, x)
        ensures y == x
      {
        var k :| 0 <= k < |m| && Supersedes(sub, m[k], y);
        SupersedesTransitive(sub, m[k], y, x);
        SupersedesAntisymmetric(sub, m[k], x);
        SupersedesAntisymmetric(sub, x, y);
      }
    }
    forall x | Minimal(sub, sigs, a, x)
      ensures x in m
    {
      var k :| 0 <= k < |m| && Supersedes(sub, m[k], x);
    }
  }

  // ----- the dispatcher -----

  /** What a resolution yields: the registered function, or a
      `RaiseDispatchError(signature, candidates)`. */
  datatype Impl<T, F> = Call(f: F) | RaiseError(signature: seq<T>, candidates: seq<seq<T>>)

  /** Calling `RaiseDispatchError`: ambiguity when there are candidates,
      otherwise no candidate at all. The formatted signature and candidate
      texts are not modelled. */
  function Raise<T>(signature: seq<T>, candidates: seq<seq<T>>): (e: Error)
    ensures e.DispatchError?
    ensures |candidates| > 0 <==> e == DispatchError("Cannot unambigously resolve")
  {
    if |candidates| > 0 then DispatchError("Cannot unambigously resolve")
    else DispatchError("Function does not have a dispatch candidate")
  }

  /** The outcome of calling a resolution: the function that would run, or
      the dispatch error. */
  function Outcome<T, F>(impl: Impl<T, F>): Result<F> {
    match impl
    case Call(f) => Ok(f)
    case RaiseError(s, c) => Err(Raise(s, c))
  }

  /** `Dispatcher`: `functions`, `signatures` in registration order, and
      `_cache`. */
  class Dispatcher<T(==, !new), F(==)> {
    const sub: (T, T) -> bool
    var functions: map<seq<T>, F>
    var signatures: seq<seq<T>>
    var cache: map<seq<T>, Impl<T, F>>

    /** The registry is consistent and every cached resolution is what a
        fresh resolution would give. */
    ghost predicate Valid()
      reads this
    {
      PartialOrder(sub) && Registered() && Distinct(signatures) &&
      forall s :: s in cache ==> cache[s] == Resolve(s)
    }

    ghost predicate Registered()
      reads this
    {
      forall s :: s in functions <==> s in signatures
    }

    constructor(sub: (T, T) -> bool)
      requires PartialOrder(sub)
      ensures Valid() && this.sub == sub
      ensures functions == map[] && signatures == [] && cache == map[]
    {
      this.sub := sub;
      functions := map[];
      signatures := [];
      cache := map[];
    }

    /** `_all_same(candidates)`: every candidate maps to the first one's function. */
    predicate AllSame(candidates: seq<seq<T>>)
      requires |candidates| > 0 && forall c :: c in candidates ==> c in functions
      reads this
    {
      forall k :: 1 <= k < |candidates| ==> functions[candidates[k]] == functions[candidates[0]]
    }

    /** What `_dispatch_slowpath(signature)` chooses now. */
    function Resolve(signature: seq<T>): Impl<T, F>
      requires Registered()
      reads this
    {
      var candidates := Find(sub, signatures, signature);
      if |candidates| == 1 || (|candidates| > 1 && AllSame(candidates)) then Call(functions[candidates[0]])
      else RaiseError(signature, candidates)
    }

    /** `add(signature, function)`: a signature registers once; a new one
        is appended and clears the cache. */
    method Add(signature: seq<T>, fn: F) returns (r: Result<()>)
      requires Valid()
      modifies this
      ensures Valid()
      ensures r.Err? <==> signature in old(functions)
      ensures r.Err? ==> (r.error == ValueError("cannot redefine function for signature") &&
        functions == old(functions) && signatures == old(signatures) && cache == old(cache))
      ensures r.Ok? ==> (functions == old(functions)[signature := fn] &&
        signatures == old(signatures) + [signature] && cache == map[])
    {
      if signature in functions {
        return Err(ValueError("cannot redefine function for signature"));
      }
      Invalidate();
      signatures := signatures + [signature];
      functions := functions[signature := fn];
      r := Ok(());
    }

    /** `_invalidate`: forget every cached resolution. */
    method Invalidate()
      modifies this
      ensures cache == map[] && functions == old(functions) && signatures == old(signatures)
    {
      cache := map[];
    }

    /** `_find(a)`: the loop over the registered signatures. */
    method FindMatches(a: seq<T>) returns (matches: seq<seq<T>>)
      ensures matches == Find(sub, signatures, a)
    {
      matches := [];
      var k := 0;
      while k < |signatures|
        invariant 0 <= k <= |signatures|
        invariant matches == Find(sub, signatures[..k], a)
      {
        var s := signatures[k];
        assert signatures[..k + 1][..k] == signatures[..k];
        if |s| == |a| && Supersedes(sub, a, s) && !Covered(sub, matches, s) {
          matches := Drop(sub, matches, s) + [s];
        }
        k := k + 1;
      }
      assert signatures[..k] == signatures;
    }

    /** `_dispatch_slowpath(signature)`: resolve and cache. */
    method DispatchSlowpath(signature: seq<T>) returns (impl: Impl<T, F>)
      requires Valid()
      modifies this
      ensures Valid() && impl == old(Resolve(signature))
      ensures cache == old(cache)[signature := impl]
      ensures functions == old(functions) && signatures == old(signatures)
    {
      var candidates := FindMatches(signature);
      if |candidates| == 1 || (|candidates| > 1 && AllSame(candidates)) {
        impl := Call(functions[candidates[0]]);
      } else {
        impl := RaiseError(signature, candidates);
      }
      cache := cache[signature := impl];
    }

    /** `dispatch(*signature)`: the cached resolution, or a fresh one. */
    method Dispatch(signature: seq<T>) returns (impl: Impl<T, F>)
      requires Valid()
      modifies this
      ensures Valid() && impl == old(Resolve(signature))
      ensures cache == old(cache)[signature := impl]
      ensures functions == old(functions) && signatures == old(signatures)
    {
      if signature in cache {
        impl := cache[signature];
        assert cache == cache[signature := impl];
        return;
      }
      impl := DispatchSlowpath(signature);
    }

    /** `__call__(*args)` with the arguments' types `signature`: the
        function that runs, or the dispatch error raised. */
    method Invoke(signature: seq<T>) returns (r: Result<F>)
      requires Valid()
      modifies this
      ensures Valid() && r == Outcome(old(Resolve(signature)))
      ensures functions == old(functions) && signatures == old(signatures)
      ensures cache == old(cache)[signature := old(Resolve(signature))]
    {
      var impl := Dispatch(signature);
      r := Outcome(impl);
    }
  }

  /** A resolution calls a function exactly when the minimal applicable
      signatures are not empty and all map to one function, which is then
      the one called; otherwise the error carries exactly those signatures. */
  lemma ResolveMeaning<T(!new), F>(d: Dispatcher<T, F>, signature: seq<T>)
    requires d.Valid()
    ensures d.Resolve(signature).Call? <==>
      (exists x :: Minimal(d.sub, d.signatures, signature, x)) &&
      (forall x, y :: Minimal(d.sub, d.signatures, signature, x) && Minimal(d.sub, d.signatures, signature, y) ==>
         d.functions[x] == d.functions[y])
    ensures d.Resolve(signature).Call? ==> forall x :: Minimal(d.sub, d.signatures, signature, x) ==>
      d.Resolve(signature).f == d.functions[x]
    ensures d.Resolve(signature).RaiseError? ==> forall x ::
      x in d.Resolve(signature).candidates <==> Minimal(d.sub, d.signatures, signature, x)
  {
    var c := Find(d.sub, d.signatures, signature);
    FindIsMinimal(d.sub, d.signatures, signature);
    if |c| > 0 {
      assert Minimal(d.sub, d.signatures, signature, c[0]);
    }
    if |c| > 1 && !d.AllSame(c) {
      var k :| 1 <= k < |c| && d.functions[c[k]] != d.functions[c[0]];
      assert Minimal(d.sub, d.signatures, signature, c[k]);
    }
    if d.Resolve(signature).Call? {
      forall x | Minimal(d.sub, d.signatures, signature, x)
        ensures d.functions[x] == d.functions[c[0]]
      {
        var k :| 0 <= k < |c| && c[k] == x;
      }
    }
  }
}

/** The ambiguity scenario of the dispatcher's tests, with the two types
    `object` and `int`. */
module DispatchExample {
  import opened Common
  import opened MultipleDispatch

  datatype PyType = Object | Int

  /** `issubclass` on the two types. */
  predicate IsSubclass(a: PyType, b: PyType) {
    b == Object || a == b
  }

  /** The registered functions: two that should not be chosen, and `x + y`. */
  datatype Fn = WrongFun | WrongFun2 | Plus

  lemma IsSubclassOrder()
    ensures PartialOrder(IsSubclass)
  {
  }

  lemma NotSupersedes(a: seq<PyType>, b: seq<PyType>, i: nat)
    requires i < |a| && i < |b| && !IsSubclass(a[i], b[i])
    ensures !Supersedes(IsSubclass, a, b)
  {
  }

  lemma SupersedesPairs(a: seq<PyType>, b: seq<PyType>)
    requires |a| == |b| == 2 && IsSubclass(a[0], b[0]) && IsSubclass(a[1], b[1])
    ensures Supersedes(IsSubclass, a, b)
  {
  }

  /** `_find((int, int))` over the three registrations, then over the four. */
  lemma ScenarioFind(sigs: seq<seq<PyType>>)
    requires sigs == [[Object, Object], [Object, Int], [Int, Object]]
    ensures Find(IsSubclass, sigs, [Int, Int]) == [[Object, Int], [Int, Object]]
    ensures Find(IsSubclass, sigs + [[Int, Int]], [Int, Int]) == [[Int, Int]]
  {
    FindFirst(sigs[..1]);
    assert sigs[..2][..1] == sigs[..1];
    FindSecond(sigs[..2]);
    assert sigs[..2] == sigs[..|sigs| - 1];
    FindThird(sigs);
    var sigs4 := sigs + [[Int, Int]];
    assert sigs4[..3] == sigs;
    FindFourth(sigs4);
  }

  lemma FindFirst(sigs: seq<seq<PyType>>)
    requires sigs == [[Object, Object]]
    ensures Find(IsSubclass, sigs, [Int, Int]) == [[Object, Object]]
  {
    assert sigs[..0] == [];
    SupersedesPairs([Int, Int], [Object, Object]);
  }

  lemma FindSecond(sigs: seq<seq<PyType>>)
    requires |sigs| == 2 && sigs[1] == [Object, Int]
    requires Find(IsSubclass, sigs[..1], [Int, Int]) == [[Object, Object]]
    ensures Find(IsSubclass, sigs, [Int, Int]) == [[Object, Int]]
  {
    var m := [[Object, Object]];
    SupersedesPairs([Int, Int], [Object, Int]);
    SupersedesPairs([Object, Int], [Object, Object]);
    NotSupersedes([Object, Object], [Object, Int], 1);
    assert !Covered(IsSubclass, m, [Object, Int]);
    assert Drop(IsSubclass, m, [Object, Int]) == [] by {
      assert m[1..] == [];
    }
  }

  lemma FindThird(sigs: seq<seq<PyType>>)
    requires |sigs| == 3 && sigs[2] == [Int, Object]
    requires Find(IsSubclass, sigs[..2], [Int, Int]) == [[Object, Int]]
    ensures Find(IsSubclass, sigs, [Int, Int]) == [[Object, Int], [Int, Object]]
  {
    var m := [[Object, Int]];
    SupersedesPairs([Int, Int], [Int, Object]);
    NotSupersedes([Object, Int], [Int, Object], 0);
    NotSupersedes([Int, Object], [Object, Int], 1);
    assert !Covered(IsSubclass, m, [Int, Object]);
    assert Drop(IsSubclass, m, [Int, Object]) == m by {
      assert m[1..] == [];
    }
  }

  lemma FindFourth(sigs: seq<seq<PyType>>)
    requires |sigs| == 4 && sigs[3] == [Int, Int]
    requires Find(IsSubclass, sigs[..3], [Int, Int]) == [[Object, Int], [Int, Object]]
    ensures Find(IsSubclass, sigs, [Int, Int]) == [[Int, Int]]
  {
    var a := [Int, Int];
    var m := [[Object, Int], [Int, Object]];
    SupersedesPairs(a, a);
    SupersedesPairs(a, [Object, Int]);
    SupersedesPairs(a, [Int, Object]);
    NotSupersedes([Object, Int], a, 0);
    NotSupersedes([Int, Object], a, 1);
    assert !Covered(IsSubclass, m, a);
    assert Drop(IsSubclass, m, a) == [] by {
      assert m[1..] == [[Int, Object]] && m[1..][1..] == [];
    }
  }

  /** The dispatcher after the three registrations resolves `(int, int)`
      to the ambiguity error. */
  lemma FirstResolve(d: Dispatcher<PyType, Fn>)
    requires d.Valid() && d.sub == IsSubclass
    requires d.signatures == [[Object, Object], [Object, Int], [Int, Object]]
    requires d.functions == map[[Object, Object] := WrongFun, [Object, Int] := WrongFun, [Int, Object] := WrongFun2]
    ensures Outcome(d.Resolve([Int, Int])) == Err(DispatchError("Cannot unambigously resolve"))
  {
    ScenarioFind(d.signatures);
    var c := Find(IsSubclass, d.signatures, [Int, Int]);
    assert !d.AllSame(c) by {
      assert d.functions[c[1]] != d.functions[c[0]];
    }
  }

  /** ... and after `(int, int)` is added, to `x + y`. */
  lemma SecondResolve(d: Dispatcher<PyType, Fn>)
    requires d.Valid() && d.sub == IsSubclass
    requires d.signatures == [[Object, Object], [Object, Int], [Int, Object]] + [[Int, Int]]
    requires d.functions[[Int, Int]] == Plus
    ensures Outcome(d.Resolve([Int, Int])) == Ok(Plus)
  {
    ScenarioFind([[Object, Object], [Object, Int], [Int, Object]]);
  }

  /** `(object, int)` and `(int, object)` with different functions make
      `f(-1, 0)` ambiguous; registering `(int, int)` then resolves it, since
      registration cleared the cached error. */
  method AmbiguousThenResolved() returns (first: Result<Fn>, second: Result<Fn>)
    ensures first == Err(DispatchError("Cannot unambigously resolve"))
    ensures second == Ok(Plus)
  {
    var d := RegisterThree();
    FirstResolve(d);
    first := d.Invoke([Int, Int]);
    var r := d.Add([Int, Int], Plus);
    SecondResolve(d);
    second := d.Invoke([Int, Int]);
  }

  /** A dispatcher with `(object, object)`, `(object, int)` and `(int, object)`. */
  method RegisterThree() returns (d: Dispatcher<PyType, Fn>)
    ensures fresh(d) && d.Valid() && d.sub == IsSubclass
    ensures d.signatures == [[Object, Object], [Object, Int], [Int, Object]]
    ensures d.functions == map[[Object, Object] := WrongFun, [Object, Int] := WrongFun, [Int, Object] := WrongFun2]
  {
    IsSubclassOrder();
    d := new Dispatcher(IsSubclass);
    var r := d.Add([Object, Object], WrongFun);
    r := d.Add([Object, Int], WrongFun);
    r := d.Add([Int, Object], WrongFun2);
  }
}

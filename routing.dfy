/** Choosing the implementation of an operation among its arguments: the
    argument with the strictly highest `__array_priority__` wins, the
    earliest on ties, and a default stands when no argument beats the
    default priority. */
module PriorityRouting {
  import opened Common

  /** A Python object's identity: a module such as `numpy`, or the `k`-th
      argument of a call. */
  datatype ObjId = ModuleNamed(name: string) | Item(k: nat)

  /** What routing sees of an object: its identity, the attribute names it
      has and its `__array_priority__`, if it defines one. */
  datatype PyObj = PyObj(id: ObjId, attrs: set<string>, priority: Option<real>)

  /** `getattr(a, '__array_priority__', 0.)`. */
  function ArrayPriority(o: PyObj): real {
    o.priority.GetOr(0.0)
  }

  /** Whether the loop considers `o`: every element, or those having `attr`. */
  predicate Eligible(o: PyObj, attr: Option<string>) {
    attr.None? || attr.value in o.attrs
  }

  /** The priority that the loop's `current` holds for the choice `w`. */
  function Current(xs: seq<PyObj>, w: Option<nat>, defaultPriority: real): real
    requires w.Some? ==> w.value < |xs|
  {
    if w.Some? then ArrayPriority(xs[w.value]) else defaultPriority
  }

  /** The position the priority loop ends on, or `None` when `highest` is
      still the default: an eligible element replaces the current choice
      when the choice is a `None` default or the element's priority is
      strictly higher. */
  function Winner(xs: seq<PyObj>, attr: Option<string>, default: Option<PyObj>, defaultPriority: real): (w: Option<nat>)
    ensures w.Some? ==> w.value < |xs|
  {
    if |xs| == 0 then None
    else
      var n := |xs| - 1;
      var w := Winner(xs[..n], attr, default, defaultPriority);
      if Eligible(xs[n], attr) &&
         ((w.None? && default.None?) || ArrayPriority(xs[n]) > Current(xs, w, defaultPriority))
      then Some(n)
      else w
  }

  /** The object the loop returns for the choice `w`. */
  function Chosen(xs: seq<PyObj>, w: Option<nat>, default: Option<PyObj>): Option<PyObj>
    requires w.Some? ==> w.value < |xs|
  {
    if w.Some? then Some(xs[w.value]) else default
  }

  /** The default stands exactly when no eligible element beats the default
      priority (and, with a `None` default, when there is no eligible
      element at all); otherwise the winner is the first eligible element
      of the highest priority, above the default priority when there is a
      default. */
  lemma {:induction false} WinnerIsFirstHighest(xs: seq<PyObj>, attr: Option<string>, default: Option<PyObj>, dp: real)
    ensures var w := Winner(xs, attr, default, dp);
      w.None? <==> forall j :: 0 <= j < |xs| && Eligible(xs[j], attr) ==> default.Some? && ArrayPriority(xs[j]) <= dp
    ensures var w := Winner(xs, attr, default, dp);
      w.Some? ==>
        Eligible(xs[w.value], attr) && (default.Some? ==> ArrayPriority(xs[w.value]) > dp) &&
        (forall j :: 0 <= j < |xs| && Eligible(xs[j], attr) ==> ArrayPriority(xs[j]) <= ArrayPriority(xs[w.value])) &&
        (forall j :: 0 <= j < w.value && Eligible(xs[j], attr) ==> ArrayPriority(xs[j]) < ArrayPriority(xs[w.value]))
  {
    if |xs| > 0 {
      var n := |xs| - 1;
      var p := xs[..n];
      WinnerIsFirstHighest(p, attr, default, dp);
      assert forall j :: 0 <= j < n ==> xs[j] == p[j];
    }
  }

  /** With a `None` default, a list with an eligible element yields one of
      its elements. */
  lemma ChosenFromList(xs: seq<PyObj>, attr: Option<string>, dp: real, j: nat)
    requires j < |xs| && Eligible(xs[j], attr)
    ensures var w := Winner(xs, attr, None, dp);
      w.Some? && Chosen(xs, w, None) == Some(xs[w.value])
  {
    WinnerIsFirstHighest(xs, attr, None, dp);
  }
}

/** `sparsegrad/base/routing.py`: priorities through a dispatched
    `implementation_priority`. */
module BaseRouting {
  import opened Common
  import opened PriorityRouting

  /** `implementation_priority(obj)` for any object: its
      `__array_priority__`, or 0. */
  function ImplementationPriority(o: PyObj): (p: real)
    ensures o.priority.Some? ==> p == o.priority.value
    ensures o.priority.None? ==> p == 0.0
  {
    ArrayPriority(o)
  }

  /** `find_implementation(arrays, default, default_priority)`. */
  method FindImplementation(arrays: seq<PyObj>, default: Option<PyObj>, defaultPriority: real)
    returns (highest: Option<PyObj>)
    ensures highest == Chosen(arrays, Winner(arrays, None, default, defaultPriority), default)
  {
    highest := default;
    var current := defaultPriority;
    var k := 0;
    while k < |arrays|
      invariant 0 <= k <= |arrays|
      invariant var w := Winner(arrays[..k], None, default, defaultPriority);
        highest == Chosen(arrays, w, default) && current == Current(arrays, w, defaultPriority)
    {
      assert arrays[..k + 1][..k] == arrays[..k];
      var priority := ImplementationPriority(arrays[k]);
      if highest.None? || priority > current {
        highest, current := Some(arrays[k]), priority;
      }
      k := k + 1;
    }
    assert arrays[..k] == arrays;
  }
}

/** `sparsegrad/functions/routing.py`: the same choice through a dispatched
    `get_implementation`, and the numeric `apply` registrations. */
module FunctionsRouting {
  import opened Common
  import opened PriorityRouting
  import opened MultipleDispatch

  /** `get_implementation(obj)`: the pair of its priority and the object. */
  function GetImplementation(o: PyObj): (r: (real, PyObj))
    ensures r.1 == o
    ensures r.0 == (if o.priority.Some? then o.priority.value else 0.0)
  {
    (ArrayPriority(o), o)
  }

  /** `find_implementation(arrays, default, default_priority)`. */
  method FindImplementation(arrays: seq<PyObj>, default: Option<PyObj>, defaultPriority: real)
    returns (bestImpl: Option<PyObj>)
    ensures bestImpl == Chosen(arrays, Winner(arrays, None, default, defaultPriority), default)
  {
    bestImpl := default;
    var bestPriority := defaultPriority;
    for k := 0 to |arrays|
      invariant var w := Winner(arrays[..k], None, default, defaultPriority);
        bestImpl == Chosen(arrays, w, default) && bestPriority == Current(arrays, w, defaultPriority)
    {
      assert arrays[..k + 1][..k] == arrays[..k];
      var (priority, impl) := GetImplementation(arrays[k]);
      if bestImpl.None? || priority > bestPriority {
        bestPriority, bestImpl := priority, Some(impl);
      }
    }
    assert arrays[..|arrays|] == arrays;
  }

  /** The argument types `apply` is registered for. */
  datatype ArgType = AnyObject | NdArray | OtherType

  predicate IsSubclass(a: ArgType, b: ArgType) {
    b == AnyObject || a == b
  }

  lemma IsSubclassOrder()
    ensures PartialOrder(IsSubclass)
  {
  }

  /** `apply_numeric(_, func, args)`: the function `apply` falls back to. */
  datatype ApplyImpl = ApplyNumeric

  /** The generic `apply` with `apply_numeric` registered for
      `(object, object, object)` and `(np.ndarray, object, object)`. */
  method ApplyRegistry() returns (d: Dispatcher<ArgType, ApplyImpl>)
    ensures fresh(d) && d.Valid() && d.sub == IsSubclass
    ensures d.signatures == [[AnyObject, AnyObject, AnyObject], [NdArray, AnyObject, AnyObject]]
    ensures forall s :: s in d.functions ==> d.functions[s] == ApplyNumeric
  {
    IsSubclassOrder();
    d := new Dispatcher(IsSubclass);
    var r := d.Add([AnyObject, AnyObject, AnyObject], ApplyNumeric);
    r := d.Add([NdArray, AnyObject, AnyObject], ApplyNumeric);
  }

  /** Every three-argument call of that `apply` resolves to
      `apply_numeric`: `(object, object, object)` always applies, and both
      registrations share the function, so a call with an `ndarray` first
      is not ambiguous. */
  lemma ApplyResolvesNumeric(d: Dispatcher<ArgType, ApplyImpl>, signature: seq<ArgType>)
    requires d.Valid() && d.sub == IsSubclass && |signature| == 3
    requires [AnyObject, AnyObject, AnyObject] in d.signatures
    requires forall s :: s in d.functions ==> d.functions[s] == ApplyNumeric
    ensures d.Resolve(signature) == Call(ApplyNumeric)
  {
    var top := [AnyObject, AnyObject, AnyObject];
    assert Supersedes(IsSubclass, signature, top);
    var c := Find(IsSubclass, d.signatures, signature);
    FindKeepsInv(IsSubclass, d.signatures, signature);
    assert Covered(IsSubclass, c, top);
    assert |c| > 0;
  }
}

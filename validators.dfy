/** The attrs-style validators of spock/backend/validators.py: the instance check
    with its directory and file special cases, the exact-length check, the
    ordered check of a tuple's members and the exact-type membership check. A
    validator either passes or raises; here it gives an `Outcome`. */
module Validators {
  import opened Results
  import opened Values

  /** The `type` an instance validator holds: one class, or a tuple of classes. */
  datatype VType = One(name: string) | AnyOf(names: seq<string>)

  datatype Validator =
    /** `instance_of(type)` */
    | InstanceOf(t: VType)
    /** `is_len(length)` */
    | IsLen(length: int)
    /** `_in_type` with its `options` */
    | InType(options: seq<string>)
    /** `ordered_is_instance_deep_iterable`: one validator per position, and an
        optional validator of the whole iterable. */
    | Ordered(members: seq<Validator>, iterable: Option<Validator>)
    /** A validator whose construction raised; the ordered validator builds its
        member validators when it is called, so the exception surfaces then. */
    | Raises(exc: Exc)
    /** attrs `instance_of(type)`, without spock's path special cases. */
    | PlainInstanceOf(pt: VType)
    /** attrs `optional(v)`: `None` passes. */
    | Opt(inner: Validator)
    /** attrs `and_(...)`, or a list of validators: each in order. */
    | AllOf(vs: seq<Validator>)
    /** attrs `in_(allowed)` */
    | InValues(allowed: seq<Value>)
    /** attrs `is_callable()` */
    | IsCallable
    /** attrs `deep_iterable(member_validator, iterable_validator)` */
    | DeepIterable(memberCheck: Validator, iterableCheck: Validator)
    /** attrs `deep_mapping(value_validator, key_validator)` */
    | DeepMapping(key: Validator, value: Validator)
    /** `_validate_subscripted_generic` of spock/attr_backend/typed.py, with `metadata['type']`. */
    | SubscriptedGeneric(typeName: string)

  /** `isinstance(value, type)` for one class or a tuple of classes. */
  predicate InstanceOfType(x: Value, t: VType) {
    match t
    case One(n) => IsInstance(x, n)
    case AnyOf(ns) => exists i :: 0 <= i < |ns| && IsInstance(x, ns[i])
  }

  /** `_check_instance`: TypeError unless the value is an instance of the type. */
  function CheckInstance(x: Value, t: VType): (r: Outcome)
    ensures r.Fail? <==> !InstanceOfType(x, t)
    ensures r.Fail? ==> r.exc == TypeError
  {
    if InstanceOfType(x, t) then Pass else Fail(TypeError)
  }

  /** The type is the custom path type `kind` (`directory` or `file`), alone or
      first in a non-empty tuple. */
  predicate IsPathType(t: VType, kind: string) {
    match t
    case One(n) => n == kind
    case AnyOf(ns) => |ns| > 0 && ns[0] == kind
  }

  /** The file system's verdict on a value checked as a path of the kind
      `directory` or `file`: whether it exists (or, for a directory, can be
      created) and has the access asked for. */
  type PathCheck = (string, Value) -> Outcome

  /** The path kind a directory or file type checks for. */
  function PathKind(t: VType): string {
    if IsPathType(t, "directory") then "directory" else "file"
  }

  /** `_InstanceOfValidator.__call__`: a directory or file type checks that the
      value is a string and then the filesystem (whose verdict is `pathCheck`);
      an empty tuple of types fails on `self.type[0]`; anything else is
      `_check_instance`. */
  function InstanceOfCall(t: VType, x: Value, pathCheck: PathCheck): (r: Outcome)
    ensures t.AnyOf? && |t.names| == 0 ==> r == Fail(IndexError)
    ensures (IsPathType(t, "directory") || IsPathType(t, "file")) ==>
      r == if IsInstance(x, "str") then pathCheck(PathKind(t), x) else Fail(TypeError)
  {
    if t.AnyOf? && |t.names| == 0 then Fail(IndexError)
    else if IsPathType(t, "directory") || IsPathType(t, "file") then
      if IsInstance(x, "str") then pathCheck(PathKind(t), x) else Fail(TypeError)
    else CheckInstance(x, t)
  }

  /** For types other than the path types, the instance validator is `_check_instance`. */
  lemma InstanceOfIsCheck(t: VType, x: Value, pathCheck: PathCheck)
    requires !IsPathType(t, "directory") && !IsPathType(t, "file")
    requires t.AnyOf? ==> |t.names| > 0
    ensures InstanceOfCall(t, x, pathCheck) == CheckInstance(x, t)
    ensures InstanceOfCall(t, x, pathCheck).Pass? <==> InstanceOfType(x, t)
  {
  }

  /** `_IsLenValidator.__call__`: ValueError when the length differs; a value
      without a length is a TypeError from `len`. */
  function IsLenCall(length: int, x: Value): (r: Outcome)
    ensures Len(x).None? ==> r == Fail(TypeError)
    ensures Len(x).Some? ==> (r.Fail? <==> Len(x).value != length)
    ensures Len(x).Some? && r.Fail? ==> r.exc == ValueError
  {
    match Len(x)
    case None => Fail(TypeError)
    case Some(n) => if n != length then Fail(ValueError) else Pass
  }

  /** `_in_type`: ValueError unless the value's exact type is among the options. */
  function InTypeCall(options: seq<string>, x: Value): (r: Outcome)
    ensures r.Fail? <==> TypeName(x) !in options
    ensures r.Fail? ==> r.exc == ValueError
  {
    if TypeName(x) in options then Pass else Fail(ValueError)
  }

  /** `_in_type` compares exact types, unlike the instance check: `True` is an
      instance of `int` but its type is not `int`. */
  lemma InTypeIsExact()
    ensures InTypeCall(["int"], Bool(true)) == Fail(ValueError)
    ensures CheckInstance(Bool(true), One("int")) == Pass
  {
  }

  /** What `zip` iterates over: the elements of a list or tuple, the characters
      of a string, the keys of a dict. Other values are not iterable. */
  function Elements(x: Value): (r: Option<seq<Value>>)
    ensures x.List? || x.Tuple? ==> r == Some(x.elems)
    ensures r.Some? <==> x.List? || x.Tuple? || x.Str? || x.Dict?
    ensures r.Some? ==> |r.value| == Len(x).value
  {
    match x
    case List(es) => Some(es)
    case Tuple(es) => Some(es)
    case Str(s) => Some(seq(|s|, i requires 0 <= i < |s| => Str([s[i]])))
    case Dict(items) => Some(seq(|items|, i requires 0 <= i < |items| => Str(items[i].0)))
    case _ => None
  }

  function Min(a: int, b: int): int {
    if a <= b then a else b
  }

  /** The first failure among the outcomes, or `Pass`. */
  function FirstFailure(os: seq<Outcome>): (r: Outcome)
    ensures r.Pass? <==> forall i :: 0 <= i < |os| ==> os[i].Pass?
    ensures r.Fail? ==> exists i :: 0 <= i < |os| && os[i] == r && forall j :: 0 <= j < i ==> os[j].Pass?
  {
    if os == [] then Pass
    else if os[0].Fail? then os[0]
    else
      var r := FirstFailure(os[1..]);
      assert forall i :: 1 <= i < |os| ==> os[1..][i - 1] == os[i];
      r
  }

  /** `Fail(e)` for a validator whose construction raised `e`. */
  function Built(v: Validator): (r: Outcome)
    ensures r.Fail? <==> v.Raises?
  {
    if v.Raises? then Fail(v.exc) else Pass
  }

  /** `_validate_subscripted_generic`: every element's exact type is `t`. */
  function SubscriptedGenericCall(t: string, x: Value): (r: Outcome)
    ensures r.Pass? <==> Elements(x).Some? && forall i :: 0 <= i < |Elements(x).value| ==> TypeName(Elements(x).value[i]) == t
    ensures r.Fail? ==> r.exc == TypeError
  {
    match Elements(x)
    case None => Fail(TypeError)
    case Some(es) => if forall i :: 0 <= i < |es| ==> TypeName(es[i]) == t then Pass else Fail(TypeError)
  }

  /** Running a validator on a value. The ordered validator builds its member
      validators, then zips the value with them (so a value that is not iterable
      fails next), then runs the iterable validator, then each member validator
      on its member, in order, over the shorter of the two. */
  function Run(v: Validator, x: Value, pathCheck: PathCheck): Outcome
    decreases v
  {
    match v
    case InstanceOf(t) => InstanceOfCall(t, x, pathCheck)
    case IsLen(n) => IsLenCall(n, x)
    case InType(opts) => InTypeCall(opts, x)
    case Ordered(ms, it) =>
      var built := FirstFailure(seq(|ms|, i requires 0 <= i < |ms| => Built(ms[i])));
      var es := Elements(x);
      if built.Fail? then built
      else if es.None? then Fail(TypeError)
      else
        var whole := if it.Some? then Run(it.value, x, pathCheck) else Pass;
        if whole.Fail? then whole
        else
          var k := Min(|ms|, |es.value|);
          FirstFailure(seq(k, i requires 0 <= i < k => Run(ms[i], es.value[i], pathCheck)))
    case Raises(e) => Fail(e)
    case PlainInstanceOf(t) => CheckInstance(x, t)
    case Opt(inner) => if x.Null? then Pass else Run(inner, x, pathCheck)
    case AllOf(vs) => FirstFailure(seq(|vs|, i requires 0 <= i < |vs| => Run(vs[i], x, pathCheck)))
    case InValues(allowed) => if PyIn(x, allowed) then Pass else Fail(ValueError)
    case IsCallable => if x.Callable? || x.ClassRef? then Pass else Fail(TypeError)
    case DeepIterable(m, it) =>
      var whole := Run(it, x, pathCheck);
      var es := Elements(x);
      if whole.Fail? then whole
      else if es.None? then Fail(TypeError)
      else FirstFailure(seq(|es.value|, i requires 0 <= i < |es.value| => Run(m, es.value[i], pathCheck)))
    case DeepMapping(kv, vv) =>
      if x.Dict? then
        var n := |x.items|;
        FirstFailure(seq(2 * n, j requires 0 <= j < 2 * n =>
          if j % 2 == 0 then Run(kv, Str(x.items[j / 2].0), pathCheck) else Run(vv, x.items[j / 2].1, pathCheck)))
      else if Elements(x) == Some([]) then Pass
      else Fail(TypeError)
    case SubscriptedGeneric(t) => SubscriptedGenericCall(t, x)
  }

  /** Every member validator of an ordered validator was built. */
  predicate AllBuilt(ms: seq<Validator>) {
    forall i :: 0 <= i < |ms| ==> !ms[i].Raises?
  }

  lemma BuiltPass(ms: seq<Validator>)
    requires AllBuilt(ms)
    ensures FirstFailure(seq(|ms|, i requires 0 <= i < |ms| => Built(ms[i]))) == Pass
  {
  }

  /** The outcomes of the member checks of an ordered validator over `es`. */
  function MemberOutcomes(ms: seq<Validator>, es: seq<Value>, pathCheck: PathCheck): (r: seq<Outcome>)
    ensures |r| == Min(|ms|, |es|)
    ensures forall i :: 0 <= i < |r| ==> r[i] == Run(ms[i], es[i], pathCheck)
  {
    var k := Min(|ms|, |es|);
    seq(k, i requires 0 <= i < k => Run(ms[i], es[i], pathCheck))
  }

  lemma OrderedUnfold(ms: seq<Validator>, it: Option<Validator>, x: Value, pathCheck: PathCheck)
    requires AllBuilt(ms) && Elements(x).Some?
    requires it.None? || Run(it.value, x, pathCheck).Pass?
    ensures Run(Ordered(ms, it), x, pathCheck) == FirstFailure(MemberOutcomes(ms, Elements(x).value, pathCheck))
  {
    var es := Elements(x).value;
    var k := Min(|ms|, |es|);
    assert seq(k, i requires 0 <= i < k => Run(ms[i], es[i], pathCheck)) == MemberOutcomes(ms, es, pathCheck);
  }

  /** The iterable validator runs before any member check: when it fails, its
      failure is the result whatever the members are. */
  lemma IterableFirst(ms: seq<Validator>, it: Validator, x: Value, pathCheck: PathCheck)
    requires AllBuilt(ms) && Elements(x).Some? && Run(it, x, pathCheck).Fail?
    ensures Run(Ordered(ms, Some(it)), x, pathCheck) == Run(it, x, pathCheck)
  {
    BuiltPass(ms);
  }

  /** The member validators are built before anything else: the first one whose
      construction raised decides the result. */
  lemma BuildFirst(ms: seq<Validator>, it: Option<Validator>, x: Value, pathCheck: PathCheck, i: int)
    requires 0 <= i < |ms| && ms[i].Raises? && AllBuilt(ms[..i])
    ensures Run(Ordered(ms, it), x, pathCheck) == Fail(ms[i].exc)
  {
    var bs := seq(|ms|, j requires 0 <= j < |ms| => Built(ms[j]));
    assert forall j :: 0 <= j < i ==> ms[..i][j] == ms[j];
    FirstFailureAt(bs, i);
  }

  /** An ordered validator passes exactly when its members were built, the value
      is iterable, the iterable validator passes and every zipped member passes
      its own validator. */
  lemma OrderedPass(ms: seq<Validator>, it: Option<Validator>, x: Value, pathCheck: PathCheck)
    ensures Run(Ordered(ms, it), x, pathCheck).Pass? <==>
      && AllBuilt(ms)
      && Elements(x).Some?
      && (it.None? || Run(it.value, x, pathCheck).Pass?)
      && forall i :: 0 <= i < Min(|ms|, |Elements(x).value|) ==> Run(ms[i], Elements(x).value[i], pathCheck).Pass?
  {
    var bs := seq(|ms|, j requires 0 <= j < |ms| => Built(ms[j]));
    assert forall j :: 0 <= j < |ms| ==> (bs[j].Pass? <==> !ms[j].Raises?);
    assert FirstFailure(bs).Pass? <==> AllBuilt(ms);
    if AllBuilt(ms) && Elements(x).Some? && (it.None? || Run(it.value, x, pathCheck).Pass?) {
      OrderedUnfold(ms, it, x, pathCheck);
    }
  }

  /** Members beyond the number of types are not checked. */
  lemma ExtraMembersUnchecked(ms: seq<Validator>, xs: seq<Value>, ys: seq<Value>, pathCheck: PathCheck)
    requires AllBuilt(ms) && |xs| >= |ms|
    ensures Run(Ordered(ms, None), List(xs + ys), pathCheck) == Run(Ordered(ms, None), List(xs), pathCheck)
  {
    OrderedUnfold(ms, None, List(xs + ys), pathCheck);
    OrderedUnfold(ms, None, List(xs), pathCheck);
    assert MemberOutcomes(ms, xs + ys, pathCheck) == MemberOutcomes(ms, xs, pathCheck);
  }

  /** Types beyond the number of members are not checked either. */
  lemma ExtraTypesUnused(ms: seq<Validator>, more: seq<Validator>, xs: seq<Value>, pathCheck: PathCheck)
    requires AllBuilt(ms + more) && |xs| <= |ms|
    ensures Run(Ordered(ms + more, None), List(xs), pathCheck) == Run(Ordered(ms, None), List(xs), pathCheck)
  {
    assert forall i :: 0 <= i < |ms| ==> (ms + more)[i] == ms[i];
    OrderedUnfold(ms + more, None, List(xs), pathCheck);
    OrderedUnfold(ms, None, List(xs), pathCheck);
    assert MemberOutcomes(ms + more, xs, pathCheck) == MemberOutcomes(ms, xs, pathCheck);
  }

  /** A value that `zip` cannot iterate is a TypeError before anything is checked. */
  lemma NotIterable(ms: seq<Validator>, it: Option<Validator>, x: Value, pathCheck: PathCheck)
    requires AllBuilt(ms) && Elements(x).None?
    ensures Run(Ordered(ms, it), x, pathCheck) == Fail(TypeError)
  {
    BuiltPass(ms);
  }

  /** `_OrderedIsInstanceDeepIterable.__call__`, with its loop over the zipped members. */
  method CallOrdered(ms: seq<Validator>, it: Option<Validator>, x: Value, pathCheck: PathCheck) returns (r: Outcome)
    ensures r == Run(Ordered(ms, it), x, pathCheck)
  {
    for i := 0 to |ms|
      invariant AllBuilt(ms[..i])
    {
      if ms[i].Raises? {
        BuildFirst(ms, it, x, pathCheck, i);
        return Fail(ms[i].exc);
      }
      assert ms[..i + 1] == ms[..i] + [ms[i]];
    }
    assert ms[..|ms|] == ms;
    var es := Elements(x);
    if es.None? {
      NotIterable(ms, it, x, pathCheck);
      return Fail(TypeError);
    }
    if it.Some? {
      var whole := Run(it.value, x, pathCheck);
      if whole.Fail? {
        IterableFirst(ms, it.value, x, pathCheck);
        return whole;
      }
    }
    OrderedUnfold(ms, it, x, pathCheck);
    r := CheckMembers(ms, es.value, pathCheck);
  }

  /** The loop `for member, validator in value_tuple: validator(inst, attr, member)`. */
  method CheckMembers(ms: seq<Validator>, es: seq<Value>, pathCheck: PathCheck) returns (r: Outcome)
    ensures r == FirstFailure(MemberOutcomes(ms, es, pathCheck))
  {
    ghost var os := MemberOutcomes(ms, es, pathCheck);
    var k := Min(|ms|, |es|);
    for i := 0 to k
      invariant forall j :: 0 <= j < i ==> os[j].Pass?
    {
      var o := Run(ms[i], es[i], pathCheck);
      if o.Fail? {
        FirstFailureAt(os, i);
        return o;
      }
    }
    return Pass;
  }

  /** The first failure is the one at the first failing position. */
  lemma {:induction false} FirstFailureAt(os: seq<Outcome>, i: int)
    requires 0 <= i < |os| && os[i].Fail? && forall j :: 0 <= j < i ==> os[j].Pass?
    ensures FirstFailure(os) == os[i]
  {
    if i > 0 {
      FirstFailureAt(os[1..], i - 1);
    }
  }

  lemma FirstFailurePair(o0: Outcome, o1: Outcome)
    ensures FirstFailure([o0, o1]) == if o0.Fail? then o0 else o1
  {
    assert [o0, o1][1..] == [o1];
    assert [o1][1..] == [];
  }

  /** Two validators in sequence: the second runs only when the first passes. */
  lemma AllOfPair(a: Validator, b: Validator, x: Value, pathCheck: PathCheck)
    ensures Run(AllOf([a, b]), x, pathCheck) == if Run(a, x, pathCheck).Fail? then Run(a, x, pathCheck) else Run(b, x, pathCheck)
  {
    var vs := [a, b];
    var os := seq(|vs|, i requires 0 <= i < |vs| => Run(vs[i], x, pathCheck));
    assert os == [Run(a, x, pathCheck), Run(b, x, pathCheck)];
    FirstFailurePair(Run(a, x, pathCheck), Run(b, x, pathCheck));
  }
}

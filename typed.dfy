/** Attribute ("katra") construction of spock/backend/typed.py: how a type
    annotation and a default become an attrs attribute with its validator,
    default and metadata. */
module Typed {
  import opened Results
  import opened Values
  import opened Types
  import opened Validators
  import Args

  /** The `default` given to `katra`: a plain value (`Plain(Null)` is `None`, no
      default) or a member of an Enum class, which carries its value. */
  datatype DefaultArg = Plain(v: Value) | Member(enumName: string, value: Value)

  /** The metadata of an attribute. `optional` is whether `"optional": True` is
      present; the other entries are absent (`None`) or present. */
  datatype Meta = Meta(
    optional: bool,
    base: Option<string>,
    specialKey: Option<Value>,
    typ: Option<PyType>,
    typeName: Option<string>,
    ogType: Option<PyType>)

  /** What `attr.ib(...)` is given: its `type` (when given), its `default`
      (`None` when not given, that is attrs' `NOTHING`), its validator and its metadata. */
  datatype Katra = Katra(typ: Option<PyType>, default: Option<DefaultArg>, validator: Validator, meta: Meta)

  function BaseMeta(optional: bool, base: string): Meta {
    Meta(optional, Some(base), None, None, None, None)
  }

  /** `default is not None` */
  predicate Given(d: DefaultArg) {
    d != Plain(Null)
  }

  /** The annotation is a class (`isinstance(typed, type)`). */
  predicate IsClass(t: PyType) {
    t.Prim? || t.ClassT? || t.EnumOf?
  }

  // ---------------------------------------------------------------------------
  // Type names and `Optional`

  /** `_handle_optional_typing`: `Optional[X]` becomes `X` with the optional flag;
      every other type is left as it is. */
  function HandleOptionalTyping(t: PyType): (r: (PyType, bool))
    ensures r.1 <==> t.OptionalOf?
    ensures r.1 ==> r.0 == t.inner && r.0 < t
    ensures !r.1 ==> r.0 == t
  {
    if t.OptionalOf? then (t.inner, true) else (t, false)
  }

  /** `_extract_base_type`: `Name[inner]` for a generic, recursing on its first
      argument only; a generic without arguments fails on `__args__[0]`. */
  function ExtractBaseType(t: PyType): (r: Result<string>)
    ensures !IsGeneric(t) ==> r == Ok(Name(t))
    ensures r.Err? ==> r.exc == IndexError
    ensures IsGeneric(t) && r.Ok? ==> FirstArg(t).Some? && ExtractBaseType(FirstArg(t).value).Ok?
    ensures IsGeneric(t) && r.Ok? ==> r.value == Name(t) + "[" + ExtractBaseType(FirstArg(t).value).value + "]"
    decreases t
  {
    if IsGeneric(t) then
      match FirstArg(t)
      case None => Err(IndexError)
      case Some(a) =>
        var inner :- ExtractBaseType(a);
        Ok(Name(t) + "[" + inner + "]")
    else Ok(Name(t))
  }

  /** Only the first argument is rendered: the other members of a `Tuple` and
      the value type of a `Dict` do not appear. */
  lemma ExtractBaseTypeFirstOnly(a: PyType, b: PyType, c: PyType)
    ensures ExtractBaseType(TupleOf([a, b])) == ExtractBaseType(TupleOf([a, c]))
    ensures ExtractBaseType(DictOf(a, b)) == ExtractBaseType(DictOf(a, c))
  {
  }

  lemma ExtractBaseTypeNested()
    ensures ExtractBaseType(ListOf(ListOf(Prim("int")))) == Ok("List[List[int]]")
  {
    assert ExtractBaseType(Prim("int")) == Ok("int");
    assert "List" + "[" + "int" + "]" == "List[int]";
    assert ExtractBaseType(ListOf(Prim("int"))) == Ok("List[int]");
    assert "List" + "[" + "List[int]" + "]" == "List[List[int]]";
  }

  // ---------------------------------------------------------------------------
  // Validators

  /** `_check_enum_props`: the members' values must share one type (an empty
      enum fails on `list(type_set)[-1]`); the allowed values keep declaration order. */
  function CheckEnumProps(members: seq<Value>): (r: Result<(string, seq<Value>)>)
    ensures |Args.TypeNames(members)| > 1 ==> r == Err(TypeError)
    ensures members == [] ==> r == Err(IndexError)
    ensures r.Ok? ==> r.value.1 == members && members != []
    ensures r.Ok? ==> forall i :: 0 <= i < |members| ==> TypeName(members[i]) == r.value.0
  {
    var t :- Args.Verify(members);
    Ok((t, members))
  }

  /** spock's `instance_of(t)`; an unsubscripted generic such as `List` checks
      against its origin class. */
  function InstanceValidator(t: PyType): Validator {
    if IsGeneric(t) then InstanceOf(One(OriginName(t))) else InstanceOf(One(Name(t)))
  }

  /** A validator whose construction may have raised, as the ordered validator holds it. */
  function Deferred(r: Result<Validator>): Validator {
    if r.Ok? then r.value else Raises(r.exc)
  }

  /** `_recursive_generic_validator`. A `Tuple` gets an ordered validator whose
      whole-value check is `tuple` of exactly its length; a `List` a deep
      iterable; a `Dict` with `str` keys a deep mapping. A one-argument `Tuple`,
      a `Dict` with other keys and any other generic are TypeErrors. An enum gets
      its value type and the allowed values; any other class an instance check. */
  function RecursiveGenericValidator(t: PyType): (r: Result<Validator>)
    ensures t.TupleOf? && |t.elems| == 1 ==> r == Err(TypeError)
    ensures t.DictOf? && t.key != Prim("str") ==> r == Err(TypeError)
    ensures IsGeneric(t) && !t.TupleOf? && !t.ListOf? && !t.DictOf? ==> r == Err(TypeError)
    ensures r.Err? ==> r.exc in {TypeError, IndexError}
    ensures t.TupleOf? && |t.elems| > 1 ==> r.Ok? && r.value.Ordered? && |r.value.members| == |t.elems|
    ensures t.TupleOf? && |t.elems| > 1 ==> r.value.iterable == Some(AllOf([InstanceOf(One("tuple")), IsLen(|t.elems|)]))
    decreases t
  {
    match t
    case TupleOf(args) =>
      if |args| == 0 then Err(IndexError)
      else if |args| == 1 then Err(TypeError)
      else
        var ms := seq(|args|, i requires 0 <= i < |args| => Deferred(RecursiveGenericValidator(args[i])));
        Ok(Ordered(ms, Some(AllOf([InstanceOf(One("tuple")), IsLen(|args|)]))))
    case ListOf(e) =>
      var m :- RecursiveGenericValidator(e);
      Ok(DeepIterable(m, InstanceOf(One("list"))))
    case DictOf(k, v) =>
      if k != Prim("str") then Err(TypeError)
      else if IsGeneric(v) then
        var m :- RecursiveGenericValidator(v);
        Ok(DeepMapping(InstanceOf(One("str")), m))
      else Ok(DeepMapping(InstanceOf(One("str")), InstanceOf(One(Name(v)))))
    case EnumOf(_, ms) =>
      var (base, allowed) :- CheckEnumProps(ms);
      Ok(AllOf([InstanceOf(One(base)), InValues(allowed)]))
    case _ =>
      if IsGeneric(t) then Err(TypeError) else Ok(InstanceOf(One(Name(t))))
  }

  /** The whole-value check of a `Tuple` of `n` members rejects a tuple of
      another length with ValueError. */
  lemma TupleLengthCheck(n: int, x: Value, pathCheck: PathCheck)
    requires x.Tuple? && |x.elems| != n
    ensures Run(AllOf([InstanceOf(One("tuple")), IsLen(n)]), x, pathCheck) == Fail(ValueError)
  {
    var checks := [InstanceOf(One("tuple")), IsLen(n)];
    var os := seq(|checks|, i requires 0 <= i < |checks| => Run(checks[i], x, pathCheck));
    assert os[0] == Pass;
    assert os[1] == Fail(ValueError);
    FirstFailureAt(os, 1);
  }

  /** A tuple of the wrong length fails the tuple validator with ValueError once
      its members' validators are built. */
  lemma TupleWrongLength(args: seq<PyType>, x: Value, pathCheck: PathCheck)
    requires |args| > 1 && forall i :: 0 <= i < |args| ==> RecursiveGenericValidator(args[i]).Ok?
    requires x.Tuple? && |x.elems| != |args|
    ensures Run(RecursiveGenericValidator(TupleOf(args)).value, x, pathCheck) == Fail(ValueError)
  {
    var v := RecursiveGenericValidator(TupleOf(args)).value;
    assert AllBuilt(v.members);
    TupleLengthCheck(|args|, x, pathCheck);
    IterableFirst(v.members, v.iterable.value, x, pathCheck);
  }

  /** A `List[X]` validator accepts a list exactly when `X`'s validator accepts
      every element, and rejects a tuple with TypeError. */
  lemma ListValidatorChecksEach(e: PyType, xs: seq<Value>, pathCheck: PathCheck)
    requires RecursiveGenericValidator(ListOf(e)).Ok?
    ensures var v := RecursiveGenericValidator(ListOf(e)).value;
      Run(v, List(xs), pathCheck).Pass? <==> forall i :: 0 <= i < |xs| ==> Run(RecursiveGenericValidator(e).value, xs[i], pathCheck).Pass?
    ensures Run(RecursiveGenericValidator(ListOf(e)).value, Tuple(xs), pathCheck) == Fail(TypeError)
  {
    var m := RecursiveGenericValidator(e).value;
    var v := DeepIterable(m, InstanceOf(One("list")));
    assert RecursiveGenericValidator(ListOf(e)).value == v;
    assert Run(InstanceOf(One("list")), List(xs), pathCheck) == Pass;
    assert Run(InstanceOf(One("list")), Tuple(xs), pathCheck) == Fail(TypeError);
    var os := seq(|xs|, i requires 0 <= i < |xs| => Run(m, xs[i], pathCheck));
    assert Run(v, List(xs), pathCheck) == FirstFailure(os);
    assert forall i :: 0 <= i < |xs| ==> os[i] == Run(m, xs[i], pathCheck);
  }

  /** An Enum validator only accepts one of the Enum's values. */
  lemma EnumValidatorMembership(n: string, members: seq<Value>, x: Value, pathCheck: PathCheck)
    requires RecursiveGenericValidator(EnumOf(n, members)).Ok?
    ensures Run(RecursiveGenericValidator(EnumOf(n, members)).value, x, pathCheck).Pass? ==> PyIn(x, members)
  {
    var v := RecursiveGenericValidator(EnumOf(n, members)).value;
    var os := seq(|v.vs|, i requires 0 <= i < |v.vs| => Run(v.vs[i], x, pathCheck));
    assert os[1] == Run(InValues(members), x, pathCheck);
  }

  // ---------------------------------------------------------------------------
  // The katras

  /** `v` validates as `base`, and when `optional` also lets `None` through. */
  ghost predicate ValidatesAs(v: Validator, base: Validator, optional: bool) {
    forall x, pathCheck: PathCheck :: Run(v, x, pathCheck) == if optional && x.Null? then Pass else Run(base, x, pathCheck)
  }

  /** The shape every katra of this backend has: the default `d` is kept when one
      is given or the attribute is optional, the `optional` metadata is recorded,
      and the validator is `base` under attrs' `optional` exactly when optional. */
  ghost predicate Shaped(k: Katra, base: Validator, given: bool, d: DefaultArg, optional: bool) {
    k.default == (if given || optional then Some(d) else None)
    && k.meta.optional == optional
    && ValidatesAs(k.validator, base, optional)
  }

  /** `_generic_alias_katra`: the attrs type is the generic's origin; `type` and
      `base` are recorded; a given default wins, and the optional branches wrap
      the validator in `optional`. */
  function GenericAliasKatra(t: PyType, d: DefaultArg, optional: bool): (r: Result<Katra>)
    ensures r.Ok? <==> RecursiveGenericValidator(t).Ok? && ExtractBaseType(t).Ok?
    ensures r.Ok? ==> r.value.typ == Some(Prim(OriginName(t))) && r.value.meta.typ == Some(t)
                      && r.value.meta.base == Some(ExtractBaseType(t).value)
    ensures r.Ok? ==> Shaped(r.value, RecursiveGenericValidator(t).value, Given(d), d, optional)
  {
    var v :- RecursiveGenericValidator(t);
    var base :- ExtractBaseType(t);
    var origin := Some(Prim(OriginName(t)));
    var meta := Meta(optional, Some(base), None, Some(t), None, None);
    if Given(d) && optional then Ok(Katra(origin, Some(d), Opt(v), meta))
    else if Given(d) then Ok(Katra(origin, Some(d), v, meta))
    else if optional then Ok(Katra(origin, Some(d), Opt(v), meta))
    else Ok(Katra(origin, None, v, meta))
  }

  /** `_cast_enum_default`: an Enum member stands for its value. */
  function CastEnumDefault(d: DefaultArg): (r: DefaultArg)
    ensures r.Plain?
    ensures d.Plain? ==> r == d
    ensures d.Member? ==> r.v == d.value
  {
    match d
    case Plain(_) => d
    case Member(_, v) => Plain(v)
  }

  /** The names of the classes an Enum of classes holds. */
  function ClassOptions(allowed: seq<Value>): (r: seq<string>)
    ensures |r| == |allowed|
    ensures forall i :: 0 <= i < |allowed| && allowed[i].ClassRef? ==> r[i] == allowed[i].name
  {
    seq(|allowed|, i requires 0 <= i < |allowed| => if allowed[i].ClassRef? then allowed[i].name else TypeName(allowed[i]))
  }

  /** The check of an Enum whose members share the type `base`: an Enum of classes
      checks the value's type against them, any other the value type and membership. */
  function EnumValidator(props: (string, seq<Value>)): Validator {
    if props.0 == "type" then AllOf([InType(ClassOptions(props.1))])
    else AllOf([InstanceOf(One(props.0)), InValues(props.1)])
  }

  /** `_enum_katra` with `_enum_class_katra` and `_enum_base_katra`: an Enum of
      classes checks the value's type against them; any other Enum checks the
      value type and membership. */
  function EnumKatra(t: PyType, d: DefaultArg, optional: bool): (r: Result<Katra>)
    requires t.EnumOf?
    ensures r.Ok? <==> CheckEnumProps(t.members).Ok?
    ensures r.Ok? ==> r.value.typ == Some(t) && r.value.meta.base == Some(t.name)
    ensures r.Ok? ==> Shaped(r.value, EnumValidator(CheckEnumProps(t.members).value), Given(d), CastEnumDefault(d), optional)
    ensures r.Ok? && CheckEnumProps(t.members).value.0 != "type" ==> EnumValidator(CheckEnumProps(t.members).value) == RecursiveGenericValidator(t).value
  {
    var (base, allowed) :- CheckEnumProps(t.members);
    var v := EnumValidator((base, allowed));
    var meta := BaseMeta(optional, t.name);
    if Given(d) && optional then Ok(Katra(Some(t), Some(CastEnumDefault(d)), Opt(v), meta))
    else if Given(d) then Ok(Katra(Some(t), Some(CastEnumDefault(d)), v, meta))
    else if optional then Ok(Katra(Some(t), Some(CastEnumDefault(d)), Opt(v), meta))
    else Ok(Katra(Some(t), None, v, meta))
  }

  /** The `bool` and `SavePath` cases of `_type_katra`: a `bool` is optional and
      defaults to `False` unless the default is a string (an env reference) or
      `True`; a `SavePath` is an optional `str` with the special key `SavePath`. */
  function TypeKatraInputs(t: PyType, d: DefaultArg, optional: bool): (PyType, DefaultArg, bool, Value) {
    if IsClass(t) && Name(t) == "bool" then
      (t, if d.Plain? && (d.v.Str? || d.v == Bool(true)) then d else Plain(Bool(false)), true, Null)
    else if IsClass(t) && Name(t) == "SavePath" then (Prim("str"), d, true, Str("SavePath"))
    else (t, d, optional, Null)
  }

  /** `_type_katra`: the annotation must be a class or a generic (TypeError
      otherwise); `base` is the annotation's name and `special_key` is always recorded. */
  function TypeKatra(t: PyType, d: DefaultArg, optional: bool): (r: Result<Katra>)
    ensures r.Err? <==> !IsClass(t) && !IsGeneric(t)
    ensures r.Err? ==> r.exc == TypeError
    ensures r.Ok? ==> r.value.meta.base == Some(Name(t)) && r.value.meta.specialKey.Some?
    ensures r.Ok? ==> var (typed, d2, opt2, _) := TypeKatraInputs(t, d, optional);
                      r.value.typ == Some(typed) && Shaped(r.value, InstanceValidator(typed), Given(d2), d2, opt2)
  {
    if !IsClass(t) && !IsGeneric(t) then Err(TypeError)
    else
      var name := Name(t);
      var (typed, d2, opt2, sk) := TypeKatraInputs(t, d, optional);
      var v := InstanceValidator(typed);
      var meta := Meta(opt2, Some(name), Some(sk), None, None, None);
      if Given(d2) && opt2 then Ok(Katra(Some(typed), Some(d2), Opt(v), meta))
      else if Given(d2) then Ok(Katra(Some(typed), Some(d2), v, meta))
      else if opt2 then Ok(Katra(Some(typed), Some(d2), Opt(v), meta))
      else Ok(Katra(Some(typed), None, v, meta))
  }

  /** `_callable_katra` */
  function CallableKatra(t: PyType, d: DefaultArg, optional: bool): (r: Katra)
    ensures r.typ == Some(t) && Shaped(r, IsCallable, Given(d), d, optional)
  {
    var meta := BaseMeta(optional, Name(t));
    if Given(d) && optional then Katra(Some(t), Some(d), Opt(IsCallable), meta)
    else if Given(d) then Katra(Some(t), Some(d), IsCallable, meta)
    else if optional then Katra(Some(t), Some(d), Opt(IsCallable), meta)
    else Katra(Some(t), None, IsCallable, meta)
  }

  /** The katra `katra` builds before recording `og_type`. */
  function Dispatch(t: PyType, d: DefaultArg, optional: bool): (r: Result<Katra>)
    ensures t.CallableT? ==> r.Ok?
    ensures IsGeneric(t) && FirstArg(t).None? ==> r == Err(IndexError)
    ensures !t.CallableT? && !IsGeneric(t) && !IsClass(t) ==> r == Err(TypeError)
    ensures r.Ok? ==> (r.value.meta.optional <==> optional || (IsClass(t) && !t.EnumOf? && Name(t) in {"bool", "SavePath"}))
    ensures r.Ok? && r.value.meta.optional ==> forall pathCheck: PathCheck :: Run(r.value.validator, Null, pathCheck) == Pass
  {
    if t.CallableT? then Ok(CallableKatra(t, d, optional))
    else if IsGeneric(t) then
      match FirstArg(t)
      case None => Err(IndexError)
      case Some(a) => if a.TypeVarT? then TypeKatra(t, d, optional) else GenericAliasKatra(t, d, optional)
    else if t.EnumOf? then EnumKatra(t, d, optional)
    else TypeKatra(t, d, optional)
  }

  /** `katra`: `Optional` is stripped and combined with the inherited optionality,
      the katra is built by kind, and the stripped type is recorded as `og_type`. */
  function BuildKatra(typed: PyType, d: DefaultArg, inheritOptional: bool): (r: Result<Katra>)
    ensures r.Ok? ==> r.value.meta.ogType == Some(HandleOptionalTyping(typed).0)
  {
    var (t, opt) := HandleOptionalTyping(typed);
    var x :- Dispatch(t, d, opt || inheritOptional);
    Ok(x.(meta := x.meta.(ogType := Some(t))))
  }

  /** Whether the built attribute is optional: from `Optional`, from inheritance,
      or forced for `bool` and `SavePath`. */
  predicate EffectiveOptional(typed: PyType, inheritOptional: bool) {
    var (t, opt) := HandleOptionalTyping(typed);
    opt || inheritOptional || (IsClass(t) && !t.EnumOf? && Name(t) in {"bool", "SavePath"})
  }

  /** In every katra, the optional metadata and the `optional` wrapper around
      the validator come together. */
  predicate OptionalAgrees(k: Katra, pathCheck: PathCheck) {
    k.meta.optional ==> Run(k.validator, Null, pathCheck) == Pass
  }

  lemma GenericAliasKatraOptional(t: PyType, d: DefaultArg, optional: bool, pathCheck: PathCheck)
    requires GenericAliasKatra(t, d, optional).Ok?
    ensures GenericAliasKatra(t, d, optional).value.meta.optional == optional
    ensures OptionalAgrees(GenericAliasKatra(t, d, optional).value, pathCheck)
  {
  }

  lemma EnumKatraOptional(t: PyType, d: DefaultArg, optional: bool, pathCheck: PathCheck)
    requires t.EnumOf? && EnumKatra(t, d, optional).Ok?
    ensures EnumKatra(t, d, optional).value.meta.optional == optional
    ensures OptionalAgrees(EnumKatra(t, d, optional).value, pathCheck)
  {
  }

  /** `bool` and `SavePath` are forced optional; every other type keeps the flag it was given. */
  lemma TypeKatraOptional(t: PyType, d: DefaultArg, optional: bool, pathCheck: PathCheck)
    requires TypeKatra(t, d, optional).Ok?
    ensures TypeKatra(t, d, optional).value.meta.optional <==> optional || (IsClass(t) && Name(t) in {"bool", "SavePath"})
    ensures OptionalAgrees(TypeKatra(t, d, optional).value, pathCheck)
  {
  }

  lemma CallableKatraOptional(t: PyType, d: DefaultArg, optional: bool, pathCheck: PathCheck)
    ensures CallableKatra(t, d, optional).meta.optional == optional
    ensures OptionalAgrees(CallableKatra(t, d, optional), pathCheck)
  {
  }

  /** The `"optional": True` metadata is present exactly when the attribute is
      optional, and then the validator lets `None` through. */
  lemma KatraOptionalMeta(typed: PyType, d: DefaultArg, inheritOptional: bool, pathCheck: PathCheck)
    requires BuildKatra(typed, d, inheritOptional).Ok?
    ensures BuildKatra(typed, d, inheritOptional).value.meta.optional <==> EffectiveOptional(typed, inheritOptional)
    ensures OptionalAgrees(BuildKatra(typed, d, inheritOptional).value, pathCheck)
  {
    var (t, opt) := HandleOptionalTyping(typed);
    var o := opt || inheritOptional;
    if t.CallableT? {
      CallableKatraOptional(t, d, o, pathCheck);
    } else if IsGeneric(t) {
      var a := FirstArg(t).value;
      if a.TypeVarT? {
        TypeKatraOptional(t, d, o, pathCheck);
      } else {
        GenericAliasKatraOptional(t, d, o, pathCheck);
      }
    } else if t.EnumOf? {
      EnumKatraOptional(t, d, o, pathCheck);
    } else {
      TypeKatraOptional(t, d, o, pathCheck);
    }
  }

  /** `Optional[X]` builds the same attribute as `X` inherited as optional. */
  lemma OptionalIsInherited(x: PyType, d: DefaultArg, inheritOptional: bool)
    requires !x.OptionalOf?
    ensures BuildKatra(OptionalOf(x), d, inheritOptional) == BuildKatra(x, d, true)
  {
  }

  /** A `bool` attribute is optional and defaults to `False` unless it is given a
      string or `True`. */
  lemma BoolKatra(d: DefaultArg, inheritOptional: bool)
    ensures BuildKatra(Prim("bool"), d, inheritOptional).Ok?
    ensures var k := BuildKatra(Prim("bool"), d, inheritOptional).value;
      k.meta.optional && k.default == Some(if d.Plain? && (d.v.Str? || d.v == Bool(true)) then d else Plain(Bool(false)))
  {
  }

  /** A `SavePath` attribute is an optional `str` carrying the special key `SavePath`. */
  lemma SavePathKatra(d: DefaultArg, inheritOptional: bool)
    ensures BuildKatra(Prim("SavePath"), d, inheritOptional).Ok?
    ensures var k := BuildKatra(Prim("SavePath"), d, inheritOptional).value;
      k.typ == Some(Prim("str")) && k.meta.optional && k.meta.specialKey == Some(Str("SavePath"))
      && k.meta.base == Some("SavePath")
  {
  }

  /** An annotation that is neither a class nor a generic is a TypeError. */
  lemma NotAClassKatra(n: string, d: DefaultArg, inheritOptional: bool)
    ensures BuildKatra(NotAClass(n), d, inheritOptional) == Err(TypeError)
  {
  }

  /** A given default is kept (an Enum member as its value); without one an
      optional attribute defaults to `None` and a required one has none. */
  lemma KatraDefault(typed: PyType, d: DefaultArg, inheritOptional: bool)
    requires BuildKatra(typed, d, inheritOptional).Ok?
    requires var t := HandleOptionalTyping(typed).0; !(IsClass(t) && Name(t) == "bool")
    ensures var k := BuildKatra(typed, d, inheritOptional).value;
      k.default == if Given(d) || EffectiveOptional(typed, inheritOptional) then Some(if HandleOptionalTyping(typed).0.EnumOf? then CastEnumDefault(d) else d) else None
  {
  }
}

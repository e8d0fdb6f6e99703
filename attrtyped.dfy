/** Attribute construction of the older attrs backend, spock/backend/attr/typed.py:
    plain attrs validators, a single member type for every generic, and no
    inherited optionality. */
module AttrTyped {
  import opened Results
  import opened Values
  import opened Types
  import opened Validators
  import opened Typed

  /** `_recursive_generic_validator`: every generic becomes a deep iterable over
      its origin whose members are checked against its first argument only (so a
      `Dict` checks its keys and a `Tuple` every member against the first type). */
  function RecursiveGenericValidator(t: PyType): (r: Result<Validator>)
    ensures !IsGeneric(t) && !t.TypeVarT? ==> r == Ok(PlainInstanceOf(One(Name(t))))
    ensures IsGeneric(t) && FirstArg(t).None? ==> r == Err(IndexError)
    ensures IsGeneric(t) && r.Ok? ==> FirstArg(t).Some? && RecursiveGenericValidator(FirstArg(t).value).Ok?
    ensures IsGeneric(t) && r.Ok? ==> r.value == DeepIterable(RecursiveGenericValidator(FirstArg(t).value).value, PlainInstanceOf(One(OriginName(t))))
    ensures r.Err? ==> r.exc == IndexError
    decreases t
  {
    if IsGeneric(t) then
      match FirstArg(t)
      case None => Err(IndexError)
      case Some(a) =>
        var m :- RecursiveGenericValidator(a);
        Ok(DeepIterable(m, PlainInstanceOf(One(OriginName(t)))))
    // `isinstance(x, T)` with a type variable raises TypeError
    else if t.TypeVarT? then Ok(Raises(TypeError))
    else Ok(PlainInstanceOf(One(Name(t))))
  }

  /** A `Tuple[A, ...]` validator checks every member of a tuple against `A`,
      whatever the other arguments are. */
  lemma TupleUsesFirstType(a: PyType, rest: seq<PyType>, xs: seq<Value>, pathCheck: PathCheck)
    requires !IsGeneric(a) && !a.TypeVarT?
    ensures Run(RecursiveGenericValidator(TupleOf([a] + rest)).value, Tuple(xs), pathCheck).Pass?
      <==> forall i :: 0 <= i < |xs| ==> IsInstance(xs[i], Name(a))
  {
    var m := PlainInstanceOf(One(Name(a)));
    assert RecursiveGenericValidator(TupleOf([a] + rest)).value == DeepIterable(m, PlainInstanceOf(One("tuple")));
    var os := seq(|xs|, i requires 0 <= i < |xs| => Run(m, xs[i], pathCheck));
    assert forall i :: 0 <= i < |xs| ==> (os[i].Pass? <==> IsInstance(xs[i], Name(a)));
  }

  /** A `Dict[str, int]` validator iterates over the keys: only they are checked,
      the values never are. */
  lemma DictValuesUnchecked(items: seq<(string, Value)>, pathCheck: PathCheck)
    ensures Run(RecursiveGenericValidator(DictOf(Prim("str"), Prim("int"))).value, Dict(items), pathCheck) == Pass
  {
    var v := RecursiveGenericValidator(DictOf(Prim("str"), Prim("int"))).value;
    assert v == DeepIterable(PlainInstanceOf(One("str")), PlainInstanceOf(One("dict")));
    var es := Elements(Dict(items)).value;
    var os := seq(|es|, i requires 0 <= i < |es| => Run(PlainInstanceOf(One("str")), es[i], pathCheck));
    assert forall i :: 0 <= i < |os| ==> os[i] == Pass;
  }

  /** `_generic_alias_katra`: a given default wins and leaves the attribute
      without the optional metadata. */
  function GenericAliasKatra(t: PyType, d: DefaultArg, optional: bool): (r: Result<Katra>)
    ensures r.Ok? <==> RecursiveGenericValidator(t).Ok? && ExtractBaseType(t).Ok?
    ensures r.Err? ==> r.exc == IndexError
    ensures r.Ok? ==> r.value.typ == Some(Prim(OriginName(t))) && r.value.meta.typ.None?
                      && r.value.meta.base == Some(ExtractBaseType(t).value)
    ensures r.Ok? ==> Shaped(r.value, RecursiveGenericValidator(t).value, Given(d), d, !Given(d) && optional)
  {
    var origin := Some(Prim(OriginName(t)));
    if Given(d) then
      var v :- RecursiveGenericValidator(t);
      var base :- ExtractBaseType(t);
      Ok(Katra(origin, Some(d), v, BaseMeta(false, base)))
    else if optional then
      var v :- RecursiveGenericValidator(t);
      var base :- ExtractBaseType(t);
      Ok(Katra(origin, Some(d), Opt(v), BaseMeta(true, base)))
    else
      var v :- RecursiveGenericValidator(t);
      var base :- ExtractBaseType(t);
      Ok(Katra(origin, None, v, BaseMeta(false, base)))
  }

  /** `_enum_katra`: the values must share one type; the attrs type is that value
      type when a default is given or the attribute is optional, and the Enum
      otherwise; the default is not cast, and no branch records `optional`. */
  function EnumKatra(t: PyType, d: DefaultArg, optional: bool): (r: Result<Katra>)
    requires t.EnumOf?
    ensures r.Ok? <==> CheckEnumProps(t.members).Ok?
    ensures r.Ok? ==> var (base, allowed) := CheckEnumProps(t.members).value;
      && r.value.typ == (if Given(d) || optional then Some(Prim(base)) else Some(t))
      && r.value.default == (if Given(d) || optional then Some(d) else None)
      && !r.value.meta.optional && r.value.meta.base == Some(t.name)
      && ValidatesAs(r.value.validator, AllOf([PlainInstanceOf(One(base)), InValues(allowed)]), !Given(d) && optional)
  {
    var (base, allowed) :- CheckEnumProps(t.members);
    var v := AllOf([PlainInstanceOf(One(base)), InValues(allowed)]);
    var meta := BaseMeta(false, t.name);
    if Given(d) then Ok(Katra(Some(Prim(base)), Some(d), v, meta))
    else if optional then Ok(Katra(Some(Prim(base)), Some(d), Opt(v), meta))
    else Ok(Katra(Some(t), None, v, meta))
  }

  /** The attrs instance check a plain annotation gets; an unsubscripted generic
      checks against its origin. */
  function PlainValidator(t: PyType): Validator {
    if IsGeneric(t) then PlainInstanceOf(One(OriginName(t))) else PlainInstanceOf(One(Name(t)))
  }

  /** `_type_katra`: a `bool` always defaults to `False`, which sends it down the
      branch with a default; reading `__name__` of an annotation that has none
      is an AttributeError. */
  function TypeKatra(t: PyType, d: DefaultArg, optional: bool): (r: Result<Katra>)
    ensures r.Err? <==> t.NotAClass?
    ensures r.Err? ==> r.exc == AttributeError
    ensures r.Ok? ==> r.value.typ == Some(t) && r.value.meta.base == Some(Name(t))
    ensures r.Ok? ==> var d2 := if IsClass(t) && Name(t) == "bool" then Plain(Bool(false)) else d;
                      Shaped(r.value, PlainValidator(t), Given(d2), d2, !Given(d2) && optional)
  {
    if t.NotAClass? then Err(AttributeError)
    else
      var isBool := IsClass(t) && Name(t) == "bool";
      var d2 := if isBool then Plain(Bool(false)) else d;
      var opt2 := isBool || optional;
      var v := PlainValidator(t);
      if Given(d2) then Ok(Katra(Some(t), Some(d2), v, BaseMeta(false, Name(t))))
      else if opt2 then Ok(Katra(Some(t), Some(d2), Opt(v), BaseMeta(true, Name(t))))
      else Ok(Katra(Some(t), None, v, BaseMeta(false, Name(t))))
  }

  /** `katra`: `Optional` is stripped, then the katra is built by kind. */
  function BuildKatra(typed: PyType, d: DefaultArg): (r: Result<Katra>)
    ensures var t := HandleOptionalTyping(typed).0;
      IsGeneric(t) && FirstArg(t).None? ==> r == Err(IndexError)
    ensures var t := HandleOptionalTyping(typed).0;
      !IsGeneric(t) && !t.EnumOf? ==> (r.Err? <==> t.NotAClass?)
    ensures var t := HandleOptionalTyping(typed).0;
      r.Ok? && Given(d) && !(IsClass(t) && Name(t) == "bool") ==> r.value.default == Some(d)
    ensures var t := HandleOptionalTyping(typed).0;
      r.Ok? && !Given(d) && !typed.OptionalOf? && !(IsClass(t) && Name(t) == "bool") ==> r.value.default.None?
  {
    var (t, opt) := HandleOptionalTyping(typed);
    if IsGeneric(t) then
      match FirstArg(t)
      case None => Err(IndexError)
      case Some(a) => if a.TypeVarT? then TypeKatra(t, d, opt) else GenericAliasKatra(t, d, opt)
    else if t.EnumOf? then EnumKatra(t, d, opt)
    else TypeKatra(t, d, opt)
  }

  /** The optional metadata is present exactly when the attribute is optional
      and has no default, and then the validator lets `None` through. */
  lemma KatraOptionalMeta(typed: PyType, d: DefaultArg, pathCheck: PathCheck)
    requires BuildKatra(typed, d).Ok?
    requires !HandleOptionalTyping(typed).0.EnumOf?
    ensures var t := HandleOptionalTyping(typed).0;
      BuildKatra(typed, d).value.meta.optional <==> typed.OptionalOf? && !Given(d) && !(IsClass(t) && Name(t) == "bool")
    ensures OptionalAgrees(BuildKatra(typed, d).value, pathCheck)
  {
  }

  /** A `bool` attribute always defaults to `False`, whatever default it is
      given, and records no optional metadata. */
  lemma BoolKatra(d: DefaultArg)
    ensures BuildKatra(Prim("bool"), d).Ok?
    ensures BuildKatra(Prim("bool"), d).value.default == Some(Plain(Bool(false)))
    ensures !BuildKatra(Prim("bool"), d).value.meta.optional
  {
  }

  /** An optional Enum without a default lets `None` through, but unlike the
      other kinds records no optional metadata. */
  lemma OptionalEnumKatra(n: string, members: seq<Value>, pathCheck: PathCheck)
    requires CheckEnumProps(members).Ok?
    ensures BuildKatra(OptionalOf(EnumOf(n, members)), Plain(Null)).Ok?
    ensures var k := BuildKatra(OptionalOf(EnumOf(n, members)), Plain(Null)).value;
      !k.meta.optional && Run(k.validator, Null, pathCheck) == Pass && k.default == Some(Plain(Null))
  {
  }

  /** An Enum member given as the default is kept as the member, not its value. */
  lemma EnumDefaultNotCast(n: string, members: seq<Value>, e: string, v: Value)
    requires CheckEnumProps(members).Ok?
    ensures BuildKatra(EnumOf(n, members), Member(e, v)).Ok?
    ensures BuildKatra(EnumOf(n, members), Member(e, v)).value.default == Some(Member(e, v))
  {
  }
}

/** Attribute construction of the first attrs backend, spock/attr_backend/typed.py,
    where a parameter is declared with a member of the `SpockTypes` Enum rather
    than with a type annotation. */
module LegacyTyped {
  import opened Results
  import opened Values
  import opened Types
  import opened Validators
  import opened Typed

  /** The members of `SpockTypes`. */
  datatype SpockType =
    | BOOL | STRING | FLOAT | INT
    | LIST | LIST_INT | LIST_FLOAT | LIST_STRING | LIST_LIST | LIST_TUPLE
    | TUPLE | TUPLE_INT | TUPLE_FLOAT | TUPLE_STRING | TUPLE_LIST | TUPLE_TUPLE

  /** The type each member stands for; the unsubscripted `List` and `Tuple`
      carry the type variable `T`. */
  function TypeOf(s: SpockType): PyType {
    var T := TypeVarT("T");
    match s
    case BOOL => Prim("bool")
    case STRING => Prim("str")
    case FLOAT => Prim("float")
    case INT => Prim("int")
    case LIST => ListOf(T)
    case LIST_INT => ListOf(Prim("int"))
    case LIST_FLOAT => ListOf(Prim("float"))
    case LIST_STRING => ListOf(Prim("str"))
    case LIST_LIST => ListOf(ListOf(T))
    case LIST_TUPLE => ListOf(TupleOf([T]))
    case TUPLE => TupleOf([T])
    case TUPLE_INT => TupleOf([Prim("int")])
    case TUPLE_FLOAT => TupleOf([Prim("float")])
    case TUPLE_STRING => TupleOf([Prim("str")])
    case TUPLE_LIST => TupleOf([ListOf(T)])
    case TUPLE_TUPLE => TupleOf([TupleOf([T])])
  }

  /** `_extract_base_type`: the name of the first type argument. */
  function ExtractBaseType(s: SpockType): (r: Option<string>)
    ensures r.Some? <==> FirstArg(TypeOf(s)).Some?
    ensures r.Some? ==> r.value == Name(FirstArg(TypeOf(s)).value)
  {
    match FirstArg(TypeOf(s))
    case None => None
    case Some(a) => Some(Name(a))
  }

  /** The generic branch is taken for a subscripted `List` or `Tuple` whose
      first argument is not named `T`. */
  predicate IsSubscripted(s: SpockType) {
    var t := TypeOf(s);
    (t.ListOf? || t.TupleOf?) && ExtractBaseType(s).Some? && ExtractBaseType(s).value != "T"
  }

  /** The subscripted members are exactly the ten with an element type. */
  lemma SubscriptedMembers(s: SpockType)
    ensures IsSubscripted(s) <==> s in {LIST_INT, LIST_FLOAT, LIST_STRING, LIST_LIST, LIST_TUPLE,
                                        TUPLE_INT, TUPLE_FLOAT, TUPLE_STRING, TUPLE_LIST, TUPLE_TUPLE}
  {
  }

  /** The element type a nested member records is the typing name `List` or
      `Tuple`, never the type name of a list or tuple value, so the element check
      of `LIST_LIST` and the others rejects every value holding a list or tuple. */
  lemma NestedElementNeverMatches(s: SpockType, xs: seq<Value>, i: int)
    requires s in {LIST_LIST, LIST_TUPLE, TUPLE_LIST, TUPLE_TUPLE}
    requires 0 <= i < |xs| && (xs[i].List? || xs[i].Tuple?)
    ensures SubscriptedGenericCall(ExtractBaseType(s).value, List(xs)) == Fail(TypeError)
  {
    assert TypeName(xs[i]) != ExtractBaseType(s).value;
  }

  /** The instance check on the bare `List` or `Tuple` of a subscripted member. */
  function OriginValidator(s: SpockType): Validator {
    PlainInstanceOf(One(OriginName(TypeOf(s))))
  }

  /** The two checks of a subscripted member: the bare origin type, then the
      exact type of every element. */
  function GenericValidator(s: SpockType): Validator
    requires IsSubscripted(s)
  {
    AllOf([OriginValidator(s), SubscriptedGeneric(ExtractBaseType(s).value)])
  }

  /** Wrapping only the instance check in `optional` changes nothing: the
      element check still rejects `None`. */
  lemma OptionalOriginIgnored(s: SpockType)
    requires IsSubscripted(s)
    ensures ValidatesAs(AllOf([Opt(OriginValidator(s)), SubscriptedGeneric(ExtractBaseType(s).value)]), GenericValidator(s), false)
  {
    forall x, pathCheck: PathCheck
      ensures Run(AllOf([Opt(OriginValidator(s)), SubscriptedGeneric(ExtractBaseType(s).value)]), x, pathCheck)
              == Run(GenericValidator(s), x, pathCheck)
    {
      OptionalOriginAt(s, x, pathCheck);
    }
  }

  lemma OptionalOriginAt(s: SpockType, x: Value, pathCheck: PathCheck)
    requires IsSubscripted(s)
    ensures Run(AllOf([Opt(OriginValidator(s)), SubscriptedGeneric(ExtractBaseType(s).value)]), x, pathCheck)
            == Run(GenericValidator(s), x, pathCheck)
  {
    var o := OriginValidator(s);
    var g := SubscriptedGeneric(ExtractBaseType(s).value);
    assert Run(o, Null, pathCheck) == Fail(TypeError);
    assert Run(g, Null, pathCheck) == Fail(TypeError);
    OptionalFirstIgnored(o, g, x, pathCheck);
  }

  /** Of two checks that fail alike on `None`, making the first optional
      changes nothing. */
  lemma OptionalFirstIgnored(o: Validator, g: Validator, x: Value, pathCheck: PathCheck)
    requires Run(o, Null, pathCheck).Fail? && Run(g, Null, pathCheck) == Run(o, Null, pathCheck)
    ensures Run(AllOf([Opt(o), g]), x, pathCheck) == Run(AllOf([o, g]), x, pathCheck)
  {
    AllOfPair(Opt(o), g, x, pathCheck);
    AllOfPair(o, g, x, pathCheck);
  }

  /** `None` fails the instance check of a subscripted member. */
  lemma GenericRejectsNull(s: SpockType, pathCheck: PathCheck)
    requires IsSubscripted(s)
    ensures Run(GenericValidator(s), Null, pathCheck) == Fail(TypeError)
  {
    AllOfPair(OriginValidator(s), SubscriptedGeneric(ExtractBaseType(s).value), Null, pathCheck);
  }

  lemma GenericRejectsNullAll(s: SpockType)
    requires IsSubscripted(s)
    ensures forall pathCheck: PathCheck :: Run(GenericValidator(s), Null, pathCheck) == Fail(TypeError)
  {
    forall pathCheck: PathCheck ensures Run(GenericValidator(s), Null, pathCheck) == Fail(TypeError) {
      GenericRejectsNull(s, pathCheck);
    }
  }

  /** `SpockTypes[typed.value._name.upper()].value`: the unsubscripted `List` or
      `Tuple` member, which is the typing generic with its type variable, not the
      builtin `list` or `tuple`. */
  function Unsubscripted(s: SpockType): (r: PyType)
    requires IsSubscripted(s)
    ensures r == TypeOf(LIST) || r == TypeOf(TUPLE)
    ensures OriginName(r) == OriginName(TypeOf(s)) && FirstArg(r) == Some(TypeVarT("T"))
  {
    if TypeOf(s).ListOf? then TypeOf(LIST) else TypeOf(TUPLE)
  }

  /** `_generic_alias_katra` as written: the optional wrapper covers only the
      instance check, defaults are checked for truthiness, and the element type is
      recorded as `metadata['type']`. */
  function GenericAliasKatra(s: SpockType, d: Value, optional: bool): (r: Katra)
    requires IsSubscripted(s)
    ensures r.typ == Some(Unsubscripted(s))
    ensures r.meta == Meta(false, None, None, None, Some(ExtractBaseType(s).value), None)
    ensures r.default == (if Truthy(d) then Some(Plain(d)) else None)
    ensures ValidatesAs(r.validator, GenericValidator(s), false)
  {
    OptionalOriginIgnored(s);
    var elem := ExtractBaseType(s).value;
    var origin := Some(Unsubscripted(s));
    var meta := Meta(false, None, None, None, Some(elem), None);
    if optional && Truthy(d) then Katra(origin, Some(Plain(d)), AllOf([Opt(OriginValidator(s)), SubscriptedGeneric(elem)]), meta)
    else if optional then Katra(origin, None, AllOf([Opt(OriginValidator(s)), SubscriptedGeneric(elem)]), meta)
    else if Truthy(d) then Katra(origin, Some(Plain(d)), AllOf([OriginValidator(s), SubscriptedGeneric(elem)]), meta)
    else Katra(origin, None, AllOf([OriginValidator(s), SubscriptedGeneric(elem)]), meta)
  }

  /** An optional subscripted attribute still rejects `None`: the element check
      iterates over it. */
  lemma OptionalGenericRejectsNone(s: SpockType, d: Value, pathCheck: PathCheck)
    requires IsSubscripted(s)
    ensures Run(GenericAliasKatra(s, d, true).validator, Null, pathCheck) == Fail(TypeError)
  {
    GenericRejectsNull(s, pathCheck);
  }

  /** A falsy default such as `[]` is dropped: the attribute ends up with no default. */
  lemma FalsyDefaultDropped(s: SpockType)
    requires IsSubscripted(s)
    ensures GenericAliasKatra(s, List([]), false).default.None?
    ensures GenericAliasKatra(s, Null, false).default.None?
  {
  }

  /** `_generic_alias_katra` as intended: `None` is let through the whole
      validator of an optional attribute, and any default that is not `None` is kept. */
  function GenericAliasKatraIntended(s: SpockType, d: Value, optional: bool): (r: Katra)
    requires IsSubscripted(s)
    ensures r.typ == Some(Unsubscripted(s))
    ensures r.meta == Meta(false, None, None, None, Some(ExtractBaseType(s).value), None)
    ensures r.default == (if d != Null then Some(Plain(d)) else None)
    ensures ValidatesAs(r.validator, GenericValidator(s), optional)
  {
    var elem := ExtractBaseType(s).value;
    var origin := Some(Unsubscripted(s));
    var meta := Meta(false, None, None, None, Some(elem), None);
    var v := AllOf([OriginValidator(s), SubscriptedGeneric(elem)]);
    if optional && d != Null then Katra(origin, Some(Plain(d)), Opt(v), meta)
    else if optional then Katra(origin, None, Opt(v), meta)
    else if d != Null then Katra(origin, Some(Plain(d)), v, meta)
    else Katra(origin, None, v, meta)
  }

  /** The intended optional attribute accepts `None` and otherwise validates as
      the required one does; every default other than `None` is kept. */
  lemma IntendedOptionalGeneric(s: SpockType, d: Value, x: Value, pathCheck: PathCheck)
    requires IsSubscripted(s)
    ensures Run(GenericAliasKatraIntended(s, d, true).validator, Null, pathCheck) == Pass
    ensures x != Null ==> (Run(GenericAliasKatraIntended(s, d, true).validator, x, pathCheck)
      == Run(GenericAliasKatraIntended(s, d, false).validator, x, pathCheck))
    ensures d != Null ==> GenericAliasKatraIntended(s, d, false).default == Some(Plain(d))
    ensures d != Null ==> GenericAliasKatraIntended(s, d, true).default == Some(Plain(d))
  {
    var vt := GenericAliasKatraIntended(s, d, true).validator;
    var vf := GenericAliasKatraIntended(s, d, false).validator;
    assert Run(vt, Null, pathCheck) == Pass;
    assert x != Null ==> Run(vt, x, pathCheck) == Run(GenericValidator(s), x, pathCheck) == Run(vf, x, pathCheck);
  }

  /** The instance check of a member taken down the simple branch: an
      unsubscripted generic checks against its origin. */
  function SimpleValidator(s: SpockType): Validator {
    if IsGeneric(TypeOf(s)) then OriginValidator(s) else PlainInstanceOf(One(Name(TypeOf(s))))
  }

  /** `_type_katra`: a `bool` is optional with default `False`; no metadata is
      recorded, and the attrs type only in the required branch without a default. */
  function TypeKatra(s: SpockType, d: Value, optional: bool): (r: Katra)
    ensures var d2 := if s == BOOL then Bool(false) else d;
      && r.default == (if d2 != Null then Some(Plain(d2)) else None)
      && r.typ == (if !(s == BOOL || optional) && d2 == Null then Some(TypeOf(s)) else None)
    ensures r.meta == Meta(false, None, None, None, None, None)
    ensures ValidatesAs(r.validator, SimpleValidator(s), s == BOOL || optional)
  {
    var t := TypeOf(s);
    var isBool := s == BOOL;
    var opt2 := isBool || optional;
    var d2 := if isBool then Bool(false) else d;
    var v := SimpleValidator(s);
    var meta := Meta(false, None, None, None, None, None);
    if opt2 && d2 != Null then Katra(None, Some(Plain(d2)), Opt(v), meta)
    else if opt2 then Katra(None, None, Opt(v), meta)
    else if d2 != Null then Katra(None, Some(Plain(d2)), v, meta)
    else Katra(Some(t), None, v, meta)
  }

  /** `katra` as written: the generic branch for a subscripted member, the
      simple one otherwise. */
  function BuildKatra(s: SpockType, d: Value, optional: bool): (r: Katra)
    ensures IsSubscripted(s) ==> r.meta.typeName == Some(ExtractBaseType(s).value)
    ensures !IsSubscripted(s) ==> r.meta.typeName.None?
    ensures IsSubscripted(s) ==> forall pathCheck: PathCheck :: Run(r.validator, Null, pathCheck) == Fail(TypeError)
    ensures !IsSubscripted(s) && (optional || s == BOOL) ==> forall pathCheck: PathCheck :: Run(r.validator, Null, pathCheck) == Pass
    ensures r.default != Some(Plain(Null))
  {
    if IsSubscripted(s) then GenericRejectsNullAll(s); GenericAliasKatra(s, d, optional) else TypeKatra(s, d, optional)
  }

  /** `katra` with the generic branch as intended. */
  function BuildKatraIntended(s: SpockType, d: Value, optional: bool): (r: Katra)
    ensures !IsSubscripted(s) ==> r == BuildKatra(s, d, optional)
    ensures IsSubscripted(s) && !optional && Truthy(d) ==> r == BuildKatra(s, d, optional)
  {
    if IsSubscripted(s) then GenericAliasKatraIntended(s, d, optional) else TypeKatra(s, d, optional)
  }

  /** An optional subscripted member given `None`: the code as written rejects
      it with a `TypeError`, the intended one accepts it; and an empty list as
      the default is dropped as written and kept as intended. */
  lemma BuildKatraDiffers(s: SpockType, pathCheck: PathCheck)
    requires IsSubscripted(s)
    ensures Run(BuildKatra(s, Null, true).validator, Null, pathCheck) == Fail(TypeError)
    ensures Run(BuildKatraIntended(s, Null, true).validator, Null, pathCheck) == Pass
    ensures BuildKatra(s, List([]), false).default.None?
    ensures BuildKatraIntended(s, List([]), false).default == Some(Plain(List([])))
  {
    OptionalGenericRejectsNone(s, Null, pathCheck);
    IntendedOptionalGeneric(s, Null, Null, pathCheck);
  }

  /** A `BOOL` parameter is optional with default `False`, whatever it is given. */
  lemma BoolKatra(d: Value, optional: bool, x: Value, pathCheck: PathCheck)
    ensures BuildKatra(BOOL, d, optional).default == Some(Plain(Bool(false)))
    ensures Run(BuildKatra(BOOL, d, optional).validator, x, pathCheck).Pass? <==> x.Null? || IsInstance(x, "bool")
  {
  }

  /** The subscripted validator accepts a value exactly when it is of the bare
      origin type and every element's exact type is the recorded one. */
  lemma GenericKatraChecks(s: SpockType, d: Value, x: Value, pathCheck: PathCheck)
    requires IsSubscripted(s) && x != Null
    ensures var elem := ExtractBaseType(s).value;
      Run(BuildKatra(s, d, false).validator, x, pathCheck).Pass?
      <==> (IsInstance(x, OriginName(TypeOf(s))) && Elements(x).Some?
        && forall i :: 0 <= i < |Elements(x).value| ==> TypeName(Elements(x).value[i]) == elem)
  {
    var elem := ExtractBaseType(s).value;
    var origin := OriginName(TypeOf(s));
    assert BuildKatra(s, d, false).validator == AllOf([PlainInstanceOf(One(origin)), SubscriptedGeneric(elem)]);
    OriginThenElements(origin, elem, x, pathCheck);
  }

  /** The pair of checks a subscripted member runs, for any origin and element name. */
  lemma OriginThenElements(origin: string, elem: string, x: Value, pathCheck: PathCheck)
    ensures Run(AllOf([PlainInstanceOf(One(origin)), SubscriptedGeneric(elem)]), x, pathCheck).Pass?
      <==> (IsInstance(x, origin) && Elements(x).Some?
        && forall i :: 0 <= i < |Elements(x).value| ==> TypeName(Elements(x).value[i]) == elem)
  {
    AllOfPair(PlainInstanceOf(One(origin)), SubscriptedGeneric(elem), x, pathCheck);
    assert Run(PlainInstanceOf(One(origin)), x, pathCheck).Pass? <==> IsInstance(x, origin);
  }
}

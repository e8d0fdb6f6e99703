/** Filling in the attributes of a spock class from the parsed arguments,
    spock/backend/field_handlers.py. `recurse_generate` walks the attributes of a
    class, picks a handler per attribute (repeated-class list, Enum of classes,
    nested spock class, tuner class or a simple field) and lets it write the
    attribute's value into the class's `fields`, built instances into the shared
    `spock_space`, and the save path into its `special_keys`; nested classes are
    built by recursing. Then the class is instantiated from `fields`.

    The functions below are the specification; the `FieldHandler` class and
    `RecurseGenerate` carry it out on the `Spaces` objects. The nesting depth
    Python allows is the parameter `depth`: a class reference nested deeper
    raises RecursionError. */
module FieldHandlers {
  import opened Results
  import opened Dicts
  import opened Values
  import opened Types
  import opened Strs
  import opened Spaces
  import Builder
  import Validators
  import Typed

  /** The classes a handler can resolve by name: spock classes and tuner classes. */
  datatype Registry = Registry(spock: seq<SpockClass>, tune: seq<SpockClass>)

  function FindClass(cs: seq<SpockClass>, n: string): (r: Option<SpockClass>)
    ensures r.Some? ==> r.value.name == n && r.value in cs
    ensures r.None? <==> forall i :: 0 <= i < |cs| ==> cs[i].name != n
  {
    if cs == [] then None else if cs[0].name == n then Some(cs[0]) else FindClass(cs[1..], n)
  }

  // ---------------------------------------------------------------------------
  // Python operations the handlers use

  /** `k in container` for a string `k`: a dict's keys, a list's or tuple's
      elements, a string's substrings; any other value raises TypeError. */
  function Contains(container: Value, k: string): (r: Result<bool>)
    ensures r.Err? <==> !(container.Dict? || container.List? || container.Tuple? || container.Str?)
    ensures r.Err? ==> r.exc == TypeError
    ensures container.Dict? ==> r == Ok(HasKey(container.items, k))
  {
    match container
    case Dict(items) => Ok(HasKey(items, k))
    case List(es) => Ok(Str(k) in es)
    case Tuple(es) => Ok(Str(k) in es)
    case Str(s) => Ok(IsSubstring(k, s))
    case _ => Err(TypeError)
  }

  /** `container[k]` for a string `k`: only a dict can be indexed by a string. */
  function GetItem(container: Value, k: string): (r: Result<Value>)
    ensures r.Ok? <==> container.Dict? && HasKey(container.items, k)
    ensures r.Ok? ==> Lookup(container.items, k) == Some(r.value)
    ensures r.Err? ==> r.exc == (if container.Dict? then KeyError else TypeError)
  {
    if container.Dict? then
      match Lookup(container.items, k)
      case Some(v) => Ok(v)
      case None => Err(KeyError)
    else Err(TypeError)
  }

  /** `v.__name__`: only classes and functions have one. */
  function ValueName(v: Value): (r: Result<string>)
    ensures r.Ok? <==> v.ClassRef? || v.Callable?
    ensures r.Err? ==> r.exc == AttributeError
  {
    match v
    case ClassRef(n) => Ok(n)
    case Callable(_, n) => Ok(n)
    case _ => Err(AttributeError)
  }

  // ---------------------------------------------------------------------------
  // Predicates and the choice of handler

  /** `_is_attribute_in_config_arguments`: the class has an entry in the
      arguments and the attribute's name is `in` it. */
  function InConfigArguments(args: Items, cls: string, name: string): (r: Result<bool>)
    ensures r == Ok(true) <==> HasKey(args, cls) && Contains(Lookup(args, cls).value, name) == Ok(true)
    ensures !HasKey(args, cls) ==> r == Ok(false)
    ensures r.Err? ==> r.exc == TypeError
  {
    match Lookup(args, cls)
    case None => Ok(false)
    case Some(entry) => Contains(entry, name)
  }

  /** `_is_attribute_optional`: without optional metadata an attribute is
      optional when it has a default; otherwise the metadata decides. */
  predicate IsOptional(a: Attribute) {
    (a.metaOptional.None? && a.default.Some?) || a.metaOptional == Some(true)
  }

  /** `isinstance(attribute.default, type)` */
  predicate DefaultIsType(a: Attribute) {
    a.default.Some? && a.default.value.ClassRef?
  }

  /** The value the optional-value handler writes: the default, with attrs'
      `NOTHING` (no default) written as `None`. */
  function DefaultValue(a: Attribute): Value {
    if a.default.Some? then a.default.value else Null
  }

  datatype Kind = ListField | EnumField | SpockClsField | TuneClsField | SimpleField

  /** `_check_iterable` on an Enum: some member holds a class. */
  predicate HasClassMember(members: seq<Value>) {
    exists i :: 0 <= i < |members| && members[i].ClassRef?
  }

  predicate IsSpockClass(reg: Registry, t: PyType) {
    t.ClassT? && FindClass(reg.spock, t.name).Some?
  }

  /** The handler chosen after the repeated-class list test. */
  function OtherKind(reg: Registry, a: Attribute): Kind {
    if a.typ.EnumOf? && HasClassMember(a.typ.members) then EnumField
    else if IsSpockClass(reg, a.typ) then SpockClsField
    else if a.typ.ClassT? && FindClass(reg.tune, a.typ.name).Some? then TuneClsField
    else SimpleField
  }

  /** The handler `recurse_generate` picks: a `list` whose recorded type's first
      argument is a spock class, then an Enum of classes, then a spock class, then
      a tuner class, else a simple field. The repeated-class test reads
      `metadata["type"].__args__[0]` of every `list` attribute, which raises when
      the metadata or the arguments are missing. */
  function KindOf(reg: Registry, a: Attribute): (r: Result<Kind>)
    ensures a.typ != Prim("list") ==> r == Ok(OtherKind(reg, a))
    ensures r == Ok(ListField) <==> (a.typ == Prim("list") && a.metaType.Some?
      && FirstArg(a.metaType.value).Some? && IsSpockClass(reg, FirstArg(a.metaType.value).value))
    ensures r == Ok(EnumField) ==> a.typ.EnumOf? && HasClassMember(a.typ.members)
    ensures r == Ok(SpockClsField) ==> IsSpockClass(reg, a.typ)
    ensures r.Err? <==> a.typ == Prim("list") && (a.metaType.None? || FirstArg(a.metaType.value).None?)
  {
    if a.typ == Prim("list") then
      match a.metaType
      case None => Err(KeyError)
      case Some(t) =>
        match FirstArg(t)
        case None => Err(if IsGeneric(t) then IndexError else AttributeError)
        case Some(e) => if IsSpockClass(reg, e) then Ok(ListField) else Ok(OtherKind(reg, a))
    else Ok(OtherKind(reg, a))
  }

  /** The repeated class a `ListField` attribute holds. */
  function ListItem(a: Attribute): string {
    if a.metaType.Some? && FirstArg(a.metaType.value).Some? then Name(FirstArg(a.metaType.value).value) else ""
  }

  /** `{c.value.__name__: c.value for c in attribute.type}`, as the list of names. */
  function MemberNames(members: seq<Value>): (r: Result<seq<string>>)
    ensures r.Ok? <==> forall i :: 0 <= i < |members| ==> members[i].ClassRef? || members[i].Callable?
    ensures r.Ok? ==> |r.value| == |members| && forall i :: 0 <= i < |members| ==> ValueName(members[i]) == Ok(r.value[i])
    ensures r.Err? ==> r.exc == AttributeError
  {
    if members == [] then Ok([])
    else
      var n := |members| - 1;
      var init :- MemberNames(members[..n]);
      var last :- ValueName(members[n]);
      Ok(init + [last])
  }

  /** `possible_enum_classes[enum_cls_name]` */
  function EnumChoice(names: seq<string>, chosen: Value): (r: Result<string>)
    ensures r.Ok? <==> chosen.Str? && chosen.s in names
    ensures r.Ok? ==> r.value == chosen.s
  {
    if chosen.Str? && chosen.s in names then Ok(chosen.s)
    else if chosen.List? || chosen.Dict? then Err(TypeError)
    else Err(KeyError)
  }

  // ---------------------------------------------------------------------------
  // What a handler does

  /** The effect of one handler call: whether it raised, and the class's fields,
      the handler's special keys and the spock space afterwards. */
  datatype Step = Step(out: Outcome, fields: Items, keys: Items, space: Items)

  /** `register_special_key`: the save path is recorded when the attribute
      carries a special key and its value is not `None`. */
  function RegisterSpecialKey(a: Attribute, field: Value, keys: Items): (r: Items)
    ensures a.metaSpecialKey.Some? && a.metaSpecialKey.value != Null && field != Null ==> Lookup(r, "save_path") == Some(field)
    ensures !(a.metaSpecialKey.Some? && a.metaSpecialKey.value != Null && field != Null) ==> r == keys
  {
    if a.metaSpecialKey.Some? && a.metaSpecialKey.value != Null && field != Null then
      LookupPut(keys, "save_path", field, "save_path");
      Put(keys, "save_path", field)
    else keys
  }

  /** `arguments[cls][attribute.name]` */
  function ConfigValue(args: Items, cls: string, a: Attribute): Result<Value> {
    match Lookup(args, cls)
    case None => Err(KeyError)
    case Some(entry) => GetItem(entry, a.name)
  }

  /** `_process_list`: one instance of the repeated class per entry of its
      arguments, stored as the field and in the spock space under the class's name. */
  function ProcessList(reg: Registry, args: Items, a: Attribute, n: string, fields: Items, space: Items): Step {
    match FindClass(reg.spock, n)
    case None => Step(Fail(TypeError), fields, [], space)
    case Some(c) =>
      match Lookup(args, n)
      case None => Step(Fail(KeyError), fields, [], space)
      case Some(entries) =>
        match Validators.Elements(entries)
        case None => Step(Fail(TypeError), fields, [], space)
        case Some(es) =>
          match Builder.InstantiateAll(c, es)
          case Err(e) => Step(Fail(e), fields, [], space)
          case Ok(insts) => Step(Pass, Put(fields, a.name, List(insts)), [], Put(space, n, List(insts)))
  }

  /** `recurse_generate` on the spock class named `n`, then the instance is the
      field and is stored in the spock space under `n`, and the nested special
      keys are added to the handler's. */
  function RegisterClass(reg: Registry, args: Items, a: Attribute, n: string, fields: Items, keys: Items, space: Items, depth: nat): Step
    decreases depth, 0, 0
  {
    match FindClass(reg.spock, n)
    case None => Step(Fail(AttributeError), fields, keys, space)
    case Some(c) =>
      if depth == 0 then Step(Fail(RecursionError), fields, keys, space)
      else
        var g := Generate(reg, args, c, space, depth - 1);
        match g.result
        case Err(e) => Step(Fail(e), fields, keys, g.space)
        case Ok(r) => Step(Pass, Put(fields, a.name, r.0), Update(keys, r.1), Put(g.space, n, r.0))
  }

  /** `handle_attribute_from_config` of each handler. */
  function FromConfig(reg: Registry, args: Items, cls: string, a: Attribute, kind: Kind, fields: Items, space: Items, depth: nat): Step
    decreases depth, 0, 1
  {
    match kind
    case ListField => ProcessList(reg, args, a, ListItem(a), fields, space)
    case EnumField =>
      var names := MemberNames(if a.typ.EnumOf? then a.typ.members else []);
      if names.Err? then Step(Fail(names.exc), fields, [], space)
      else
        (match ConfigValue(args, cls, a)
         case Err(e) => Step(Fail(e), fields, [], space)
         case Ok(chosen) =>
           match EnumChoice(names.value, chosen)
           case Err(e) => Step(Fail(e), fields, [], space)
           case Ok(n) => RegisterClass(reg, args, a, n, fields, [], space, depth))
    case SpockClsField => RegisterClass(reg, args, a, Name(a.typ), fields, [], space, depth)
    case TuneClsField =>
      (match ConfigValue(args, cls, a)
       case Err(e) => Step(Fail(e), fields, [], space)
       case Ok(v) =>
         match FindClass(reg.tune, Name(a.typ))
         case None => Step(Fail(TypeError), fields, [], space)
         case Some(c) =>
           match Builder.Instantiate(c, v)
           case Err(e) => Step(Fail(e), fields, [], space)
           case Ok(inst) => Step(Pass, Put(fields, a.name, inst), [], space))
    case SimpleField =>
      match ConfigValue(args, cls, a)
      case Err(e) => Step(Fail(e), fields, [], space)
      case Ok(v) => Step(Pass, Put(fields, a.name, v), RegisterSpecialKey(a, v, []), space)
  }

  /** `handle_optional_attribute_type`: the default is a class. A list builds the
      default class's entries, an Enum or spock class recurses, a tuner class
      raises SpockNotOptionalError and a simple field NotImplementedError. */
  function OptionalType(reg: Registry, args: Items, a: Attribute, kind: Kind, fields: Items, space: Items, depth: nat): Step
    requires DefaultIsType(a)
    decreases depth, 0, 1
  {
    match kind
    case ListField => ProcessList(reg, args, a, a.default.value.name, fields, space)
    case EnumField => RegisterClass(reg, args, a, a.default.value.name, fields, [], space, depth)
    case SpockClsField => RegisterClass(reg, args, a, Name(a.typ), fields, [], space, depth)
    case TuneClsField => Step(Fail(SpockNotOptionalError), fields, [], space)
    case SimpleField => Step(Fail(NotImplementedError), fields, [], space)
  }

  /** `handle_optional_attribute_value`: the default becomes the field; a list or
      spock class that is not `None` is also stored in the spock space (under the
      value's own `__name__` for a list); a tuner class raises. */
  function OptionalValue(a: Attribute, kind: Kind, fields: Items, space: Items): Step {
    var v := DefaultValue(a);
    var fields' := Put(fields, a.name, v);
    match kind
    case ListField =>
      if v == Null then Step(Pass, fields', [], space)
      else
        (match ValueName(v)
         case Err(e) => Step(Fail(e), fields', [], space)
         case Ok(n) => Step(Pass, fields', [], Put(space, n, v)))
    case EnumField => Step(Pass, fields', [], space)
    case SpockClsField => Step(Pass, fields', [], if v == Null then space else Put(space, Name(a.typ), v))
    case TuneClsField => Step(Fail(SpockNotOptionalError), fields, [], space)
    case SimpleField => Step(Pass, fields', RegisterSpecialKey(a, v, []), space)
  }

  /** `RegisterFieldTemplate.__call__`: from the config when the attribute is
      there; else, when it is optional, from its default (a class default by type);
      else nothing happens. */
  function Handle(reg: Registry, args: Items, cls: string, a: Attribute, kind: Kind, fields: Items, space: Items, depth: nat): Step
    decreases depth, 0, 2
  {
    match InConfigArguments(args, cls, a.name)
    case Err(e) => Step(Fail(e), fields, [], space)
    case Ok(inConfig) =>
      if inConfig then FromConfig(reg, args, cls, a, kind, fields, space, depth)
      else if IsOptional(a) then
        if DefaultIsType(a) then OptionalType(reg, args, a, kind, fields, space, depth)
        else OptionalValue(a, kind, fields, space)
      else Step(Pass, fields, [], space)
  }

  /** One attribute of `recurse_generate`: the handler its kind selects. */
  function Attend(reg: Registry, args: Items, cls: string, a: Attribute, fields: Items, space: Items, depth: nat): Step
    decreases depth, 0, 3
  {
    match KindOf(reg, a)
    case Err(e) => Step(Fail(e), fields, [], space)
    case Ok(kind) => Handle(reg, args, cls, a, kind, fields, space, depth)
  }

  /** The loop of `recurse_generate` over the first `n` attributes of `c`: each
      handler runs on the fields so far and its special keys are merged in; the
      first exception stops the loop. */
  function Loop(reg: Registry, args: Items, c: SpockClass, n: nat, space: Items, depth: nat): Step
    requires n <= |c.attrs|
    decreases depth, 1, n
  {
    if n == 0 then Step(Pass, [], [], space)
    else
      var p := Loop(reg, args, c, n - 1, space, depth);
      if p.out.Fail? then p
      else
        var s := Attend(reg, args, c.name, c.attrs[n - 1], p.fields, p.space, depth);
        if s.out.Fail? then Step(s.out, s.fields, p.keys, s.space)
        else Step(Pass, s.fields, Update(p.keys, s.keys), s.space)
  }

  /** What `recurse_generate` returns (the instance and the special keys) or
      raises, and the spock space it leaves. */
  datatype Generated = Generated(result: Result<(Value, Items)>, space: Items)

  /** `recurse_generate`: a class that cannot be instantiated from the collected
      fields raises SpockNotOptionalError. */
  function Generate(reg: Registry, args: Items, c: SpockClass, space: Items, depth: nat): Generated
    decreases depth, 2, 0
  {
    var l := Loop(reg, args, c, |c.attrs|, space, depth);
    if l.out.Fail? then Generated(Err(l.out.exc), l.space)
    else
      match Builder.Instantiate(c, Dict(l.fields))
      case Err(_) => Generated(Err(SpockNotOptionalError), l.space)
      case Ok(inst) => Generated(Ok((inst, l.keys)), l.space)
  }

  // ---------------------------------------------------------------------------
  // The handlers and `recurse_generate` as objects

  /** One `Register*` handler: its kind and the special keys it collects. */
  class FieldHandler {
    const kind: Kind
    var specialKeys: Items

    constructor(kind: Kind)
      ensures this.kind == kind && specialKeys == []
    {
      this.kind := kind;
      specialKeys := [];
    }

    /** `__call__` */
    method Call(reg: Registry, a: AttributeSpace, b: BuilderSpace, depth: nat) returns (r: Outcome)
      requires specialKeys == []
      modifies this, a.configSpace, b
      ensures Step(r, a.configSpace.fields, specialKeys, b.spockSpace)
        == Handle(reg, b.arguments, a.configSpace.Name(), a.attribute, kind, old(a.configSpace.fields), old(b.spockSpace), depth)
      decreases depth, 0, 2
    {
      var inConfig := InConfigArguments(b.arguments, a.configSpace.Name(), a.attribute.name);
      if inConfig.Err? {
        return Fail(inConfig.exc);
      }
      if inConfig.value {
        r := HandleFromConfig(reg, a, b, depth);
      } else if IsOptional(a.attribute) {
        if DefaultIsType(a.attribute) {
          r := HandleOptionalType(reg, a, b, depth);
        } else {
          r := HandleOptionalValue(a, b);
        }
      } else {
        r := Pass;
      }
    }

    /** `recurse_generate` on the class named `n` and the stores that follow it. */
    method RecurseAndRegister(reg: Registry, a: AttributeSpace, b: BuilderSpace, n: string, depth: nat) returns (r: Outcome)
      modifies this, a.configSpace, b
      ensures Step(r, a.configSpace.fields, specialKeys, b.spockSpace)
        == RegisterClass(reg, b.arguments, a.attribute, n, old(a.configSpace.fields), old(specialKeys), old(b.spockSpace), depth)
      decreases depth, 0, 0
    {
      var c := FindClass(reg.spock, n);
      if c.None? {
        return Fail(AttributeError);
      }
      if depth == 0 {
        return Fail(RecursionError);
      }
      var g := RecurseGenerate(reg, b, c.value, depth - 1);
      if g.Err? {
        return Fail(g.exc);
      }
      a.SetField(g.value.0);
      b.spockSpace := Put(b.spockSpace, n, g.value.0);
      specialKeys := Update(specialKeys, g.value.1);
      return Pass;
    }

    /** `handle_attribute_from_config` */
    method HandleFromConfig(reg: Registry, a: AttributeSpace, b: BuilderSpace, depth: nat) returns (r: Outcome)
      requires specialKeys == []
      modifies this, a.configSpace, b
      ensures Step(r, a.configSpace.fields, specialKeys, b.spockSpace)
        == FromConfig(reg, b.arguments, a.configSpace.Name(), a.attribute, kind, old(a.configSpace.fields), old(b.spockSpace), depth)
      decreases depth, 0, 1
    {
      var attr := a.attribute;
      match kind
      case ListField =>
        r := ProcessListAttribute(reg, a, b, ListItem(attr));
      case EnumField =>
        var names := MemberNames(if attr.typ.EnumOf? then attr.typ.members else []);
        if names.Err? {
          return Fail(names.exc);
        }
        var chosen := ConfigValue(b.arguments, a.configSpace.Name(), attr);
        if chosen.Err? {
          return Fail(chosen.exc);
        }
        var n := EnumChoice(names.value, chosen.value);
        if n.Err? {
          return Fail(n.exc);
        }
        r := RecurseAndRegister(reg, a, b, n.value, depth);
      case SpockClsField =>
        r := RecurseAndRegister(reg, a, b, Name(attr.typ), depth);
      case TuneClsField =>
        var v := ConfigValue(b.arguments, a.configSpace.Name(), attr);
        if v.Err? {
          return Fail(v.exc);
        }
        var c := FindClass(reg.tune, Name(attr.typ));
        if c.None? {
          return Fail(TypeError);
        }
        var inst := Builder.Instantiate(c.value, v.value);
        if inst.Err? {
          return Fail(inst.exc);
        }
        a.SetField(inst.value);
        return Pass;
      case SimpleField =>
        var v := ConfigValue(b.arguments, a.configSpace.Name(), attr);
        if v.Err? {
          return Fail(v.exc);
        }
        a.SetField(v.value);
        specialKeys := RegisterSpecialKey(attr, v.value, specialKeys);
        return Pass;
    }

    /** `handle_optional_attribute_type` */
    method HandleOptionalType(reg: Registry, a: AttributeSpace, b: BuilderSpace, depth: nat) returns (r: Outcome)
      requires specialKeys == [] && DefaultIsType(a.attribute)
      modifies this, a.configSpace, b
      ensures Step(r, a.configSpace.fields, specialKeys, b.spockSpace)
        == OptionalType(reg, b.arguments, a.attribute, kind, old(a.configSpace.fields), old(b.spockSpace), depth)
      decreases depth, 0, 1
    {
      match kind
      case ListField =>
        r := ProcessListAttribute(reg, a, b, a.attribute.default.value.name);
      case EnumField =>
        r := RecurseAndRegister(reg, a, b, a.attribute.default.value.name, depth);
      case SpockClsField =>
        r := RecurseAndRegister(reg, a, b, Name(a.attribute.typ), depth);
      case TuneClsField =>
        r := Fail(SpockNotOptionalError);
      case SimpleField =>
        r := Fail(NotImplementedError);
    }

    /** `handle_optional_attribute_value` */
    method HandleOptionalValue(a: AttributeSpace, b: BuilderSpace) returns (r: Outcome)
      requires specialKeys == []
      modifies this, a.configSpace, b
      ensures Step(r, a.configSpace.fields, specialKeys, b.spockSpace)
        == OptionalValue(a.attribute, kind, old(a.configSpace.fields), old(b.spockSpace))
    {
      if kind.TuneClsField? {
        return Fail(SpockNotOptionalError);
      }
      var v := DefaultValue(a.attribute);
      a.SetField(v);
      match kind
      case ListField =>
        if v != Null {
          var n := ValueName(v);
          if n.Err? {
            return Fail(n.exc);
          }
          b.spockSpace := Put(b.spockSpace, n.value, v);
        }
        r := Pass;
      case EnumField =>
        r := Pass;
      case SpockClsField =>
        if v != Null {
          b.spockSpace := Put(b.spockSpace, Name(a.attribute.typ), v);
        }
        r := Pass;
      case SimpleField =>
        specialKeys := RegisterSpecialKey(a.attribute, v, specialKeys);
        r := Pass;
    }
  }

  /** `_process_list` and the stores that follow it. */
  method ProcessListAttribute(reg: Registry, a: AttributeSpace, b: BuilderSpace, n: string) returns (r: Outcome)
    modifies a.configSpace, b
    ensures Step(r, a.configSpace.fields, [], b.spockSpace)
      == ProcessList(reg, b.arguments, a.attribute, n, old(a.configSpace.fields), old(b.spockSpace))
  {
    var c := FindClass(reg.spock, n);
    if c.None? {
      return Fail(TypeError);
    }
    var entries := Lookup(b.arguments, n);
    if entries.None? {
      return Fail(KeyError);
    }
    var es := Validators.Elements(entries.value);
    if es.None? {
      return Fail(TypeError);
    }
    var insts := Builder.InstantiateAll(c.value, es.value);
    if insts.Err? {
      return Fail(insts.exc);
    }
    a.SetField(List(insts.value));
    b.spockSpace := Put(b.spockSpace, n, List(insts.value));
    return Pass;
  }

  /** One pass of the loop of `recurse_generate`: a fresh attribute space and the
      handler its kind selects. */
  method HandleAttribute(reg: Registry, b: BuilderSpace, cs: ConfigSpace, attr: Attribute, depth: nat) returns (o: Outcome, keys: Items)
    modifies cs, b
    ensures Step(o, cs.fields, keys, b.spockSpace) == Attend(reg, b.arguments, cs.Name(), attr, old(cs.fields), old(b.spockSpace), depth)
    decreases depth, 0, 3
  {
    var kind := KindOf(reg, attr);
    if kind.Err? {
      return Fail(kind.exc), [];
    }
    var a := new AttributeSpace(attr, cs);
    var h := new FieldHandler(kind.value);
    o := h.Call(reg, a, b, depth);
    keys := h.specialKeys;
  }

  /** `recurse_generate` on spock class `c`, writing into `b`'s spock space. */
  method RecurseGenerate(reg: Registry, b: BuilderSpace, c: SpockClass, depth: nat) returns (r: Result<(Value, Items)>)
    modifies b
    ensures Generated(r, b.spockSpace) == Generate(reg, b.arguments, c, old(b.spockSpace), depth)
    decreases depth, 2, 0
  {
    var cs := new ConfigSpace(c, []);
    var keys: Items := [];
    for i := 0 to |c.attrs|
      invariant Loop(reg, b.arguments, c, i, old(b.spockSpace), depth) == Step(Pass, cs.fields, keys, b.spockSpace)
    {
      var o, k := HandleAttribute(reg, b, cs, c.attrs[i], depth);
      if o.Fail? {
        LoopStops(reg, b.arguments, c, i + 1, |c.attrs|, old(b.spockSpace), depth);
        return Err(o.exc);
      }
      keys := Update(keys, k);
    }
    var inst := Builder.Instantiate(c, Dict(cs.fields));
    if inst.Err? {
      return Err(SpockNotOptionalError);
    }
    return Ok((inst.value, keys));
  }

  // ---------------------------------------------------------------------------
  // Properties

  /** Once an attribute's handler raises, the later attributes are not handled. */
  lemma {:induction false} LoopStops(reg: Registry, args: Items, c: SpockClass, i: nat, n: nat, space: Items, depth: nat)
    requires i <= n <= |c.attrs|
    requires Loop(reg, args, c, i, space, depth).out.Fail?
    ensures Loop(reg, args, c, n, space, depth) == Loop(reg, args, c, i, space, depth)
    decreases n
  {
    if n > i {
      LoopStops(reg, args, c, i, n - 1, space, depth);
    }
  }

  /** `fields'` is `fields` with at most the entry for `name` written. */
  ghost predicate OnlyEntry(fields': Items, fields: Items, name: string) {
    (forall i :: 0 <= i < |fields'| ==> fields'[i] in fields || fields'[i].0 == name)
    && (forall k :: k != name ==> Lookup(fields', k) == Lookup(fields, k))
  }

  lemma PutOnlyEntry(d: Items, k: string, v: Value)
    ensures OnlyEntry(Put(d, k, v), d, k)
  {
    PutEntries(d, k, v);
    forall k' | k' != k
      ensures Lookup(Put(d, k, v), k') == Lookup(d, k')
    {
      LookupPut(d, k, v, k');
    }
  }

  lemma ProcessListOnlyEntry(reg: Registry, args: Items, a: Attribute, n: string, fields: Items, space: Items)
    ensures OnlyEntry(ProcessList(reg, args, a, n, fields, space).fields, fields, a.name)
  {
    var s := ProcessList(reg, args, a, n, fields, space);
    if s.out.Pass? {
      var insts := Builder.InstantiateAll(FindClass(reg.spock, n).value, Validators.Elements(Lookup(args, n).value).value).value;
      PutOnlyEntry(fields, a.name, List(insts));
    }
  }

  lemma RegisterClassOnlyEntry(reg: Registry, args: Items, a: Attribute, n: string, fields: Items, keys: Items, space: Items, depth: nat)
    ensures OnlyEntry(RegisterClass(reg, args, a, n, fields, keys, space, depth).fields, fields, a.name)
  {
    var s := RegisterClass(reg, args, a, n, fields, keys, space, depth);
    if s.out.Pass? {
      var g := Generate(reg, args, FindClass(reg.spock, n).value, space, depth - 1);
      PutOnlyEntry(fields, a.name, g.result.value.0);
    }
  }

  /** A handler writes its own attribute's field and no other. */
  lemma HandleOnlyEntry(reg: Registry, args: Items, cls: string, a: Attribute, kind: Kind, fields: Items, space: Items, depth: nat)
    ensures OnlyEntry(Handle(reg, args, cls, a, kind, fields, space, depth).fields, fields, a.name)
  {
    var inConfig := InConfigArguments(args, cls, a.name);
    if inConfig == Ok(true) {
      match kind
      case ListField => ProcessListOnlyEntry(reg, args, a, ListItem(a), fields, space);
      case EnumField =>
        var names := MemberNames(if a.typ.EnumOf? then a.typ.members else []);
        var chosen := ConfigValue(args, cls, a);
        if names.Ok? && chosen.Ok? && EnumChoice(names.value, chosen.value).Ok? {
          RegisterClassOnlyEntry(reg, args, a, EnumChoice(names.value, chosen.value).value, fields, [], space, depth);
        }
      case SpockClsField => RegisterClassOnlyEntry(reg, args, a, Name(a.typ), fields, [], space, depth);
      case TuneClsField =>
        var v := ConfigValue(args, cls, a);
        if v.Ok? && FindClass(reg.tune, Name(a.typ)).Some? {
          var inst := Builder.Instantiate(FindClass(reg.tune, Name(a.typ)).value, v.value);
          if inst.Ok? {
            PutOnlyEntry(fields, a.name, inst.value);
          }
        }
      case SimpleField =>
        var v := ConfigValue(args, cls, a);
        if v.Ok? {
          PutOnlyEntry(fields, a.name, v.value);
        }
    } else if inConfig == Ok(false) && IsOptional(a) {
      if DefaultIsType(a) {
        match kind
        case ListField => ProcessListOnlyEntry(reg, args, a, a.default.value.name, fields, space);
        case EnumField => RegisterClassOnlyEntry(reg, args, a, a.default.value.name, fields, [], space, depth);
        case SpockClsField => RegisterClassOnlyEntry(reg, args, a, Name(a.typ), fields, [], space, depth);
        case _ =>
      } else {
        PutOnlyEntry(fields, a.name, DefaultValue(a));
      }
    }
  }

  /** Every field the loop collects is named after an attribute of the class. */
  lemma {:induction false} LoopFieldsKnown(reg: Registry, args: Items, c: SpockClass, n: nat, space: Items, depth: nat)
    requires n <= |c.attrs|
    ensures Builder.KnownKeywords(c, Loop(reg, args, c, n, space, depth).fields)
  {
    if n > 0 {
      LoopFieldsKnown(reg, args, c, n - 1, space, depth);
      var p := Loop(reg, args, c, n - 1, space, depth);
      var a := c.attrs[n - 1];
      if p.out.Pass? && KindOf(reg, a).Ok? {
        HandleOnlyEntry(reg, args, c.name, a, KindOf(reg, a).value, p.fields, p.space, depth);
        assert AttrNames(c)[n - 1] == a.name;
      }
    }
  }

  /** After the loop, `recurse_generate` fails exactly when an attribute without
      a default got no field, and then with SpockNotOptionalError; else it yields
      an instance of the class with the collected special keys. */
  lemma GenerateInstantiates(reg: Registry, args: Items, c: SpockClass, space: Items, depth: nat)
    requires Loop(reg, args, c, |c.attrs|, space, depth).out.Pass?
    ensures var l := Loop(reg, args, c, |c.attrs|, space, depth);
      Generate(reg, args, c, space, depth).result.Ok? <==> Builder.RequiredGiven(c, l.fields)
    ensures var g := Generate(reg, args, c, space, depth);
      g.result.Err? ==> g.result.exc == SpockNotOptionalError
    ensures var g := Generate(reg, args, c, space, depth);
      g.space == Loop(reg, args, c, |c.attrs|, space, depth).space
  {
    LoopFieldsKnown(reg, args, c, |c.attrs|, space, depth);
  }

  /** What `recurse_generate` yields is an instance of the class, carrying the
      special keys of the loop. */
  lemma GenerateResult(reg: Registry, args: Items, c: SpockClass, space: Items, depth: nat)
    ensures var g := Generate(reg, args, c, space, depth);
      g.result.Ok? ==> (g.result.value.0.Instance? && g.result.value.0.cls == c.name
        && g.result.value.1 == Loop(reg, args, c, |c.attrs|, space, depth).keys)
  {
  }

  /** A special key recorded by an earlier attribute survives the later ones. */
  lemma {:induction false} LoopKeysGrow(reg: Registry, args: Items, c: SpockClass, i: nat, n: nat, space: Items, depth: nat, k: string)
    requires i <= n <= |c.attrs|
    requires Loop(reg, args, c, n, space, depth).out.Pass?
    requires HasKey(Loop(reg, args, c, i, space, depth).keys, k)
    ensures HasKey(Loop(reg, args, c, n, space, depth).keys, k)
    decreases n
  {
    if n > i {
      var p := Loop(reg, args, c, n - 1, space, depth);
      assert p.out.Pass?;
      LoopKeysGrow(reg, args, c, i, n - 1, space, depth, k);
      var s := Attend(reg, args, c.name, c.attrs[n - 1], p.fields, p.space, depth);
      UpdateHasKey(p.keys, s.keys, k);
    }
  }

  /** An attribute neither in the config nor optional is left alone. */
  lemma NotOptionalUntouched(reg: Registry, args: Items, cls: string, a: Attribute, kind: Kind, fields: Items, space: Items, depth: nat)
    requires InConfigArguments(args, cls, a.name) == Ok(false) && !IsOptional(a)
    ensures Handle(reg, args, cls, a, kind, fields, space, depth) == Step(Pass, fields, [], space)
  {
  }

  /** A tuner class cannot be optional: without a config entry it raises. */
  lemma TuneNotOptional(reg: Registry, args: Items, cls: string, a: Attribute, fields: Items, space: Items, depth: nat)
    requires InConfigArguments(args, cls, a.name) == Ok(false) && IsOptional(a)
    ensures Handle(reg, args, cls, a, TuneClsField, fields, space, depth) == Step(Fail(SpockNotOptionalError), fields, [], space)
  {
  }

  /** An optional list or spock class whose default is `None` gets the field
      `None` and leaves the spock space as it was. */
  lemma OptionalNoneDefault(reg: Registry, args: Items, cls: string, a: Attribute, kind: Kind, fields: Items, space: Items, depth: nat)
    requires InConfigArguments(args, cls, a.name) == Ok(false) && IsOptional(a) && DefaultValue(a) == Null
    requires kind == ListField || kind == SpockClsField
    ensures var s := Handle(reg, args, cls, a, kind, fields, space, depth);
      s.out == Pass && s.space == space && Lookup(s.fields, a.name) == Some(Null)
  {
    LookupPut(fields, a.name, Null, a.name);
  }

  /** A list of a repeated class read from the config is one instance of the
      class per entry of the class's own arguments, stored both as the field and
      in the spock space under the class's name. */
  lemma ListFromConfig(reg: Registry, args: Items, a: Attribute, n: string, fields: Items, space: Items)
    ensures var s := ProcessList(reg, args, a, n, fields, space);
      s.out.Pass? ==> (FindClass(reg.spock, n).Some? && HasKey(args, n)
        && Validators.Elements(Lookup(args, n).value).Some?
        && Lookup(s.fields, a.name) == Lookup(s.space, n)
        && Lookup(s.fields, a.name).Some? && Lookup(s.fields, a.name).value.List?
        && |Lookup(s.fields, a.name).value.elems| == |Validators.Elements(Lookup(args, n).value).value|
        && forall i :: 0 <= i < |Lookup(s.fields, a.name).value.elems| ==>
          Lookup(s.fields, a.name).value.elems[i].Instance? && Lookup(s.fields, a.name).value.elems[i].cls == n)
  {
    var s := ProcessList(reg, args, a, n, fields, space);
    if s.out.Pass? {
      var insts := Builder.InstantiateAll(FindClass(reg.spock, n).value, Validators.Elements(Lookup(args, n).value).value).value;
      LookupPut(fields, a.name, List(insts), a.name);
      LookupPut(space, n, List(insts), n);
    }
  }

  /** A nested class that is built is an instance of that class, stored both as
      the field and in the spock space under the class's name. */
  lemma ClassRegistered(reg: Registry, args: Items, a: Attribute, n: string, fields: Items, keys: Items, space: Items, depth: nat)
    ensures var s := RegisterClass(reg, args, a, n, fields, keys, space, depth);
      s.out.Pass? ==> (Lookup(s.fields, a.name).Some? && Lookup(s.fields, a.name) == Lookup(s.space, n)
        && Lookup(s.fields, a.name).value.Instance? && Lookup(s.fields, a.name).value.cls == n)
  {
    var s := RegisterClass(reg, args, a, n, fields, keys, space, depth);
    if s.out.Pass? {
      var c := FindClass(reg.spock, n).value;
      var g := Generate(reg, args, c, space, depth - 1);
      GenerateResult(reg, args, c, space, depth - 1);
      LookupPut(fields, a.name, g.result.value.0, a.name);
      LookupPut(g.space, n, g.result.value.0, n);
    }
  }

  /** An Enum of classes takes the class the config names, which must be one of
      the Enum's members, and builds it. */
  lemma EnumFromConfig(reg: Registry, args: Items, cls: string, a: Attribute, fields: Items, space: Items, depth: nat)
    requires a.typ.EnumOf?
    ensures var s := FromConfig(reg, args, cls, a, EnumField, fields, space, depth);
      s.out.Pass? ==> (ConfigValue(args, cls, a).Ok? && ConfigValue(args, cls, a).value.Str?
        && (exists i :: 0 <= i < |a.typ.members| && ValueName(a.typ.members[i]) == Ok(ConfigValue(args, cls, a).value.s))
        && Lookup(s.fields, a.name).Some? && Lookup(s.fields, a.name).value.Instance?
        && Lookup(s.fields, a.name).value.cls == ConfigValue(args, cls, a).value.s)
  {
    var s := FromConfig(reg, args, cls, a, EnumField, fields, space, depth);
    if s.out.Pass? {
      var names := MemberNames(a.typ.members).value;
      var n := ConfigValue(args, cls, a).value.s;
      var i :| 0 <= i < |names| && names[i] == n;
      assert ValueName(a.typ.members[i]) == Ok(n);
      ClassRegistered(reg, args, a, n, fields, [], space, depth);
    }
  }

  /** A simple field read from the config is that value, and a save path that
      is not `None` is recorded as the special key `save_path`; an entry for the
      class that is not a dict raises TypeError. */
  lemma SimpleFromConfig(reg: Registry, args: Items, cls: string, a: Attribute, fields: Items, space: Items, depth: nat)
    requires InConfigArguments(args, cls, a.name) == Ok(true)
    ensures Lookup(args, cls).value.Dict? ==> ConfigValue(args, cls, a).Ok?
    ensures ConfigValue(args, cls, a).Err? ==> Handle(reg, args, cls, a, SimpleField, fields, space, depth).out == Fail(TypeError)
    ensures ConfigValue(args, cls, a).Ok? ==> (var s := Handle(reg, args, cls, a, SimpleField, fields, space, depth);
      var v := ConfigValue(args, cls, a).value;
      s.out == Pass && Lookup(s.fields, a.name) == Some(v) && s.space == space
        && (a.metaSpecialKey.Some? && a.metaSpecialKey.value != Null && v != Null ==> Lookup(s.keys, "save_path") == Some(v)))
  {
    if ConfigValue(args, cls, a).Ok? {
      LookupPut(fields, a.name, ConfigValue(args, cls, a).value, a.name);
    }
  }
}

/** The earlier version of the attribute handlers, spock/backend/fields_handler.py.
    It differs from `FieldHandlers` in four ways: an attribute neither in the
    config nor optional raises SpockNotOptionalError at once; an optional
    attribute always takes its default (a class default is not built); an Enum
    of classes instantiates the chosen class directly from its arguments; and a
    nested spock class is recognised only when it is a child of the class in the
    dependency graph. There are no tuner classes, and a failed instantiation
    raises attrs' own TypeError. The graph is the parameter `graph`, mapping a
    class name to the names of its children. */
module FieldsHandler {
  import opened Results
  import opened Dicts
  import opened Values
  import opened Types
  import opened Spaces
  import Builder
  import FH = FieldHandlers

  /** The handler classes of this version. */
  datatype Handler = RegisterList | RegisterEnum | RegisterSpockCls | RegisterSimpleField

  /** `set(e[1] for e in graph.out_edges(spock_cls))`. networkx raises for a
      class that is not a node of the graph; here such a class has no children.
      The difference is not visible from `Generate`, which only handles classes
      of the graph. */
  function Children(graph: map<string, set<string>>, c: string): set<string> {
    if c in graph then graph[c] else {}
  }

  /** The handler after the repeated-class list test. */
  function OtherHandler(children: set<string>, a: Attribute): Handler {
    if a.typ.EnumOf? && FH.HasClassMember(a.typ.members) then RegisterEnum
    else if a.typ.ClassT? && a.typ.name in children then RegisterSpockCls
    else RegisterSimpleField
  }

  /** The handler `recurse_generate` picks: the list and Enum tests are those of
      the later version, and a class attribute is nested only when it is among
      the class's graph children. */
  function HandlerOf(reg: FH.Registry, children: set<string>, a: Attribute): (r: Result<Handler>)
    ensures a.typ != Prim("list") ==> r == Ok(OtherHandler(children, a))
    ensures r == Ok(RegisterList) <==> (a.typ == Prim("list") && a.metaType.Some?
      && FirstArg(a.metaType.value).Some? && FH.IsSpockClass(reg, FirstArg(a.metaType.value).value))
    ensures r == Ok(RegisterSpockCls) ==> a.typ.ClassT? && a.typ.name in children
    ensures r.Err? <==> FH.KindOf(reg, a).Err?
  {
    match FH.KindOf(reg, a)
    case Err(e) => Err(e)
    case Ok(k) => if k.ListField? then Ok(RegisterList) else Ok(OtherHandler(children, a))
  }

  /** `handle_optional_attribute`: the default (no default written as `None`)
      becomes the field; a simple field registers its save path, and a spock
      class is stored in the spock space even when it is `None`. */
  function OptionalStep(a: Attribute, h: Handler, fields: Items, space: Items): FH.Step {
    var v := FH.DefaultValue(a);
    var fields' := Put(fields, a.name, v);
    match h
    case RegisterSimpleField => FH.Step(Pass, fields', FH.RegisterSpecialKey(a, v, []), space)
    case RegisterSpockCls => FH.Step(Pass, fields', [], Put(space, Name(a.typ), v))
    case _ => FH.Step(Pass, fields', [], space)
  }

  /** `enum_cls(**arguments[enum_cls_name])`, stored under the class's name. */
  function BuildEnumClass(reg: FH.Registry, args: Items, a: Attribute, n: string, fields: Items, space: Items): FH.Step {
    match FH.FindClass(reg.spock, n)
    case None => FH.Step(Fail(TypeError), fields, [], space)
    case Some(c) =>
      match Lookup(args, n)
      case None => FH.Step(Fail(KeyError), fields, [], space)
      case Some(kwargs) =>
        match Builder.Instantiate(c, kwargs)
        case Err(e) => FH.Step(Fail(e), fields, [], space)
        case Ok(inst) => FH.Step(Pass, Put(fields, a.name, inst), [], Put(space, n, inst))
  }

  /** `recurse_generate` on the child class named `n`, stored as the field and
      under `n`, with its special keys merged in. */
  function RegisterChild(reg: FH.Registry, graph: map<string, set<string>>, args: Items, a: Attribute, n: string,
                         fields: Items, keys: Items, space: Items, depth: nat): FH.Step
    decreases depth, 0, 0
  {
    match FH.FindClass(reg.spock, n)
    case None => FH.Step(Fail(AttributeError), fields, keys, space)
    case Some(c) =>
      if depth == 0 then FH.Step(Fail(RecursionError), fields, keys, space)
      else
        var g := Generate(reg, graph, args, c, space, depth - 1);
        match g.result
        case Err(e) => FH.Step(Fail(e), fields, keys, g.space)
        case Ok(r) => FH.Step(Pass, Put(fields, a.name, r.0), Update(keys, r.1), Put(g.space, n, r.0))
  }

  /** `handle_attribute_from_config` of each handler. */
  function FromConfig(reg: FH.Registry, graph: map<string, set<string>>, args: Items, cls: string, a: Attribute, h: Handler,
                      fields: Items, space: Items, depth: nat): FH.Step
    decreases depth, 0, 1
  {
    match h
    case RegisterList => FH.ProcessList(reg, args, a, FH.ListItem(a), fields, space)
    case RegisterEnum =>
      var names := FH.MemberNames(if a.typ.EnumOf? then a.typ.members else []);
      if names.Err? then FH.Step(Fail(names.exc), fields, [], space)
      else
        (match FH.ConfigValue(args, cls, a)
         case Err(e) => FH.Step(Fail(e), fields, [], space)
         case Ok(chosen) =>
           match FH.EnumChoice(names.value, chosen)
           case Err(e) => FH.Step(Fail(e), fields, [], space)
           case Ok(n) => BuildEnumClass(reg, args, a, n, fields, space))
    case RegisterSpockCls => RegisterChild(reg, graph, args, a, Name(a.typ), fields, [], space, depth)
    case RegisterSimpleField =>
      match FH.ConfigValue(args, cls, a)
      case Err(e) => FH.Step(Fail(e), fields, [], space)
      case Ok(v) => FH.Step(Pass, Put(fields, a.name, v), FH.RegisterSpecialKey(a, v, []), space)
  }

  /** `RegisterFieldTemplate.__call__`: from the config, else from the default
      when optional, else `other`, which raises SpockNotOptionalError. */
  function Handle(reg: FH.Registry, graph: map<string, set<string>>, args: Items, cls: string, a: Attribute, h: Handler,
                  fields: Items, space: Items, depth: nat): FH.Step
    decreases depth, 0, 2
  {
    match FH.InConfigArguments(args, cls, a.name)
    case Err(e) => FH.Step(Fail(e), fields, [], space)
    case Ok(inConfig) =>
      if inConfig then FromConfig(reg, graph, args, cls, a, h, fields, space, depth)
      else if FH.IsOptional(a) then OptionalStep(a, h, fields, space)
      else FH.Step(Fail(SpockNotOptionalError), fields, [], space)
  }

  /** One attribute of `recurse_generate` of class `cls`. */
  function Attend(reg: FH.Registry, graph: map<string, set<string>>, args: Items, cls: string, a: Attribute,
                  fields: Items, space: Items, depth: nat): FH.Step
    decreases depth, 0, 3
  {
    match HandlerOf(reg, Children(graph, cls), a)
    case Err(e) => FH.Step(Fail(e), fields, [], space)
    case Ok(h) => Handle(reg, graph, args, cls, a, h, fields, space, depth)
  }

  /** The loop of `recurse_generate` over the first `n` attributes of `c`. */
  function Loop(reg: FH.Registry, graph: map<string, set<string>>, args: Items, c: SpockClass, n: nat, space: Items, depth: nat): FH.Step
    requires n <= |c.attrs|
    decreases depth, 1, n
  {
    if n == 0 then FH.Step(Pass, [], [], space)
    else
      var p := Loop(reg, graph, args, c, n - 1, space, depth);
      if p.out.Fail? then p
      else
        var s := Attend(reg, graph, args, c.name, c.attrs[n - 1], p.fields, p.space, depth);
        if s.out.Fail? then FH.Step(s.out, s.fields, p.keys, s.space)
        else FH.Step(Pass, s.fields, Update(p.keys, s.keys), s.space)
  }

  /** `recurse_generate`: the instantiation is not guarded, so a missing
      attribute surfaces as attrs' TypeError. */
  function Generate(reg: FH.Registry, graph: map<string, set<string>>, args: Items, c: SpockClass, space: Items, depth: nat): FH.Generated
    decreases depth, 2, 0
  {
    var l := Loop(reg, graph, args, c, |c.attrs|, space, depth);
    if l.out.Fail? then FH.Generated(Err(l.out.exc), l.space)
    else
      match Builder.Instantiate(c, Dict(l.fields))
      case Err(e) => FH.Generated(Err(e), l.space)
      case Ok(inst) => FH.Generated(Ok((inst, l.keys)), l.space)
  }

  // ---------------------------------------------------------------------------
  // The handlers and `recurse_generate` as objects

  class FieldHandler {
    const handler: Handler
    var specialKeys: Items

    constructor(handler: Handler)
      ensures this.handler == handler && specialKeys == []
    {
      this.handler := handler;
      specialKeys := [];
    }

    /** `__call__` */
    method Call(reg: FH.Registry, graph: map<string, set<string>>, a: AttributeSpace, b: BuilderSpace, depth: nat) returns (r: Outcome)
      requires specialKeys == []
      modifies this, a.configSpace, b
      ensures FH.Step(r, a.configSpace.fields, specialKeys, b.spockSpace)
        == Handle(reg, graph, b.arguments, a.configSpace.Name(), a.attribute, handler, old(a.configSpace.fields), old(b.spockSpace), depth)
      decreases depth, 0, 2
    {
      var inConfig := FH.InConfigArguments(b.arguments, a.configSpace.Name(), a.attribute.name);
      if inConfig.Err? {
        return Fail(inConfig.exc);
      }
      if inConfig.value {
        r := HandleFromConfig(reg, graph, a, b, depth);
      } else if FH.IsOptional(a.attribute) {
        r := HandleOptional(a, b);
      } else {
        r := Fail(SpockNotOptionalError);
      }
    }

    /** `handle_optional_attribute` */
    method HandleOptional(a: AttributeSpace, b: BuilderSpace) returns (r: Outcome)
      requires specialKeys == []
      modifies this, a.configSpace, b
      ensures FH.Step(r, a.configSpace.fields, specialKeys, b.spockSpace)
        == OptionalStep(a.attribute, handler, old(a.configSpace.fields), old(b.spockSpace))
    {
      var v := FH.DefaultValue(a.attribute);
      a.SetField(v);
      if handler.RegisterSimpleField? {
        specialKeys := FH.RegisterSpecialKey(a.attribute, v, specialKeys);
      } else if handler.RegisterSpockCls? {
        b.spockSpace := Put(b.spockSpace, Name(a.attribute.typ), v);
      }
      r := Pass;
    }

    /** `recurse_generate` on the child class `n` and the stores that follow it. */
    method RecurseAndRegister(reg: FH.Registry, graph: map<string, set<string>>, a: AttributeSpace, b: BuilderSpace, n: string, depth: nat)
      returns (r: Outcome)
      modifies this, a.configSpace, b
      ensures FH.Step(r, a.configSpace.fields, specialKeys, b.spockSpace)
        == RegisterChild(reg, graph, b.arguments, a.attribute, n, old(a.configSpace.fields), old(specialKeys), old(b.spockSpace), depth)
      decreases depth, 0, 0
    {
      var c := FH.FindClass(reg.spock, n);
      if c.None? {
        return Fail(AttributeError);
      }
      if depth == 0 {
        return Fail(RecursionError);
      }
      var g := RecurseGenerate(reg, graph, b, c.value, depth - 1);
      if g.Err? {
        return Fail(g.exc);
      }
      a.SetField(g.value.0);
      b.spockSpace := Put(b.spockSpace, n, g.value.0);
      specialKeys := Update(specialKeys, g.value.1);
      return Pass;
    }

    /** `handle_attribute_from_config` */
    method HandleFromConfig(reg: FH.Registry, graph: map<string, set<string>>, a: AttributeSpace, b: BuilderSpace, depth: nat)
      returns (r: Outcome)
      requires specialKeys == []
      modifies this, a.configSpace, b
      ensures FH.Step(r, a.configSpace.fields, specialKeys, b.spockSpace)
        == FromConfig(reg, graph, b.arguments, a.configSpace.Name(), a.attribute, handler, old(a.configSpace.fields), old(b.spockSpace), depth)
      decreases depth, 0, 1
    {
      var attr := a.attribute;
      match handler
      case RegisterList =>
        r := FH.ProcessListAttribute(reg, a, b, FH.ListItem(attr));
      case RegisterEnum =>
        var names := FH.MemberNames(if attr.typ.EnumOf? then attr.typ.members else []);
        if names.Err? {
          return Fail(names.exc);
        }
        var chosen := FH.ConfigValue(b.arguments, a.configSpace.Name(), attr);
        if chosen.Err? {
          return Fail(chosen.exc);
        }
        var n := FH.EnumChoice(names.value, chosen.value);
        if n.Err? {
          return Fail(n.exc);
        }
        var c := FH.FindClass(reg.spock, n.value);
        if c.None? {
          return Fail(TypeError);
        }
        var kwargs := Lookup(b.arguments, n.value);
        if kwargs.None? {
          return Fail(KeyError);
        }
        var inst := Builder.Instantiate(c.value, kwargs.value);
        if inst.Err? {
          return Fail(inst.exc);
        }
        a.SetField(inst.value);
        b.spockSpace := Put(b.spockSpace, n.value, inst.value);
        return Pass;
      case RegisterSpockCls =>
        r := RecurseAndRegister(reg, graph, a, b, Name(attr.typ), depth);
      case RegisterSimpleField =>
        var v := FH.ConfigValue(b.arguments, a.configSpace.Name(), attr);
        if v.Err? {
          return Fail(v.exc);
        }
        a.SetField(v.value);
        specialKeys := FH.RegisterSpecialKey(attr, v.value, specialKeys);
        return Pass;
    }
  }

  /** One pass of the loop of `recurse_generate`. */
  method HandleAttribute(reg: FH.Registry, graph: map<string, set<string>>, b: BuilderSpace, cs: ConfigSpace, attr: Attribute, depth: nat)
    returns (o: Outcome, keys: Items)
    modifies cs, b
    ensures FH.Step(o, cs.fields, keys, b.spockSpace) == Attend(reg, graph, b.arguments, cs.Name(), attr, old(cs.fields), old(b.spockSpace), depth)
    decreases depth, 0, 3
  {
    var h := HandlerOf(reg, Children(graph, cs.Name()), attr);
    if h.Err? {
      return Fail(h.exc), [];
    }
    var a := new AttributeSpace(attr, cs);
    var handler := new FieldHandler(h.value);
    o := handler.Call(reg, graph, a, b, depth);
    keys := handler.specialKeys;
  }

  /** `recurse_generate` on spock class `c`, writing into `b`'s spock space. */
  method RecurseGenerate(reg: FH.Registry, graph: map<string, set<string>>, b: BuilderSpace, c: SpockClass, depth: nat)
    returns (r: Result<(Value, Items)>)
    modifies b
    ensures FH.Generated(r, b.spockSpace) == Generate(reg, graph, b.arguments, c, old(b.spockSpace), depth)
    decreases depth, 2, 0
  {
    var cs := new ConfigSpace(c, []);
    var keys: Items := [];
    for i := 0 to |c.attrs|
      invariant Loop(reg, graph, b.arguments, c, i, old(b.spockSpace), depth) == FH.Step(Pass, cs.fields, keys, b.spockSpace)
    {
      var o, k := HandleAttribute(reg, graph, b, cs, c.attrs[i], depth);
      if o.Fail? {
        LoopStops(reg, graph, b.arguments, c, i + 1, |c.attrs|, old(b.spockSpace), depth);
        return Err(o.exc);
      }
      keys := Update(keys, k);
    }
    ghost var l := Loop(reg, graph, b.arguments, c, |c.attrs|, old(b.spockSpace), depth);
    assert l.out == Pass && l.fields == cs.fields && l.keys == keys && l.space == b.spockSpace;
    var inst := Builder.Instantiate(c, Dict(cs.fields));
    if inst.Err? {
      return Err(inst.exc);
    }
    return Ok((inst.value, keys));
  }

  // ---------------------------------------------------------------------------
  // Properties

  lemma {:induction false} LoopStops(reg: FH.Registry, graph: map<string, set<string>>, args: Items, c: SpockClass,
                                     i: nat, n: nat, space: Items, depth: nat)
    requires i <= n <= |c.attrs|
    requires Loop(reg, graph, args, c, i, space, depth).out.Fail?
    ensures Loop(reg, graph, args, c, n, space, depth) == Loop(reg, graph, args, c, i, space, depth)
    decreases n
  {
    if n > i {
      LoopStops(reg, graph, args, c, i, n - 1, space, depth);
    }
  }

  /** `other`: an attribute neither in the config nor optional raises, where the
      later version leaves it for the instantiation to report. */
  lemma NotOptionalRaises(reg: FH.Registry, graph: map<string, set<string>>, args: Items, cls: string, a: Attribute,
                          h: Handler, k: FH.Kind, fields: Items, space: Items, depth: nat)
    requires FH.InConfigArguments(args, cls, a.name) == Ok(false) && !FH.IsOptional(a)
    ensures Handle(reg, graph, args, cls, a, h, fields, space, depth) == FH.Step(Fail(SpockNotOptionalError), fields, [], space)
    ensures FH.Handle(reg, args, cls, a, k, fields, space, depth) == FH.Step(Pass, fields, [], space)
  {
  }

  /** An optional nested class is stored in the spock space under its type's
      name even when its default is `None`. */
  lemma OptionalClassRegistered(reg: FH.Registry, graph: map<string, set<string>>, args: Items, cls: string, a: Attribute,
                                fields: Items, space: Items, depth: nat)
    requires FH.InConfigArguments(args, cls, a.name) == Ok(false) && FH.IsOptional(a)
    ensures var s := Handle(reg, graph, args, cls, a, RegisterSpockCls, fields, space, depth);
      s.out == Pass && Lookup(s.space, Name(a.typ)) == Some(FH.DefaultValue(a))
        && Lookup(s.fields, a.name) == Some(FH.DefaultValue(a))
  {
    LookupPut(fields, a.name, FH.DefaultValue(a), a.name);
    LookupPut(space, Name(a.typ), FH.DefaultValue(a), Name(a.typ));
  }

  /** An Enum of classes builds the chosen member class straight from that
      class's own arguments, without handling its attributes, and stores it as
      the field and under the class's name. */
  lemma EnumBuiltDirectly(reg: FH.Registry, graph: map<string, set<string>>, args: Items, cls: string, a: Attribute,
                          fields: Items, space: Items, depth: nat)
    requires a.typ.EnumOf?
    ensures var s := FromConfig(reg, graph, args, cls, a, RegisterEnum, fields, space, depth);
      s.out.Pass? ==> (FH.ConfigValue(args, cls, a).Ok? && FH.ConfigValue(args, cls, a).value.Str?
        && (var n := FH.ConfigValue(args, cls, a).value.s;
            FH.FindClass(reg.spock, n).Some? && HasKey(args, n)
            && Lookup(s.fields, a.name) == Some(Builder.Instantiate(FH.FindClass(reg.spock, n).value, Lookup(args, n).value).value)
            && Lookup(s.space, n) == Lookup(s.fields, a.name)
            && s.keys == []))
  {
    var s := FromConfig(reg, graph, args, cls, a, RegisterEnum, fields, space, depth);
    if s.out.Pass? {
      var n := FH.ConfigValue(args, cls, a).value.s;
      var inst := Builder.Instantiate(FH.FindClass(reg.spock, n).value, Lookup(args, n).value).value;
      LookupPut(fields, a.name, inst, a.name);
      LookupPut(space, n, inst, n);
    }
  }

  lemma RegisterChildOnlyEntry(reg: FH.Registry, graph: map<string, set<string>>, args: Items, a: Attribute, n: string,
                               fields: Items, keys: Items, space: Items, depth: nat)
    ensures FH.OnlyEntry(RegisterChild(reg, graph, args, a, n, fields, keys, space, depth).fields, fields, a.name)
  {
    var s := RegisterChild(reg, graph, args, a, n, fields, keys, space, depth);
    if s.out.Pass? {
      var g := Generate(reg, graph, args, FH.FindClass(reg.spock, n).value, space, depth - 1);
      FH.PutOnlyEntry(fields, a.name, g.result.value.0);
    }
  }

  lemma BuildEnumClassOnlyEntry(reg: FH.Registry, args: Items, a: Attribute, n: string, fields: Items, space: Items)
    ensures FH.OnlyEntry(BuildEnumClass(reg, args, a, n, fields, space).fields, fields, a.name)
  {
    var s := BuildEnumClass(reg, args, a, n, fields, space);
    if s.out.Pass? {
      FH.PutOnlyEntry(fields, a.name, Builder.Instantiate(FH.FindClass(reg.spock, n).value, Lookup(args, n).value).value);
    }
  }

  /** A handler writes its own attribute's field and no other. */
  lemma HandleOnlyEntry(reg: FH.Registry, graph: map<string, set<string>>, args: Items, cls: string, a: Attribute, h: Handler,
                        fields: Items, space: Items, depth: nat)
    ensures FH.OnlyEntry(Handle(reg, graph, args, cls, a, h, fields, space, depth).fields, fields, a.name)
  {
    var inConfig := FH.InConfigArguments(args, cls, a.name);
    if inConfig == Ok(true) {
      match h
      case RegisterList => FH.ProcessListOnlyEntry(reg, args, a, FH.ListItem(a), fields, space);
      case RegisterEnum =>
        var names := FH.MemberNames(if a.typ.EnumOf? then a.typ.members else []);
        var chosen := FH.ConfigValue(args, cls, a);
        if names.Ok? && chosen.Ok? && FH.EnumChoice(names.value, chosen.value).Ok? {
          BuildEnumClassOnlyEntry(reg, args, a, FH.EnumChoice(names.value, chosen.value).value, fields, space);
        }
      case RegisterSpockCls => RegisterChildOnlyEntry(reg, graph, args, a, Name(a.typ), fields, [], space, depth);
      case RegisterSimpleField =>
        var v := FH.ConfigValue(args, cls, a);
        if v.Ok? {
          FH.PutOnlyEntry(fields, a.name, v.value);
        }
    } else if inConfig == Ok(false) && FH.IsOptional(a) {
      FH.PutOnlyEntry(fields, a.name, FH.DefaultValue(a));
    }
  }

  /** Every field the loop collects is named after an attribute of the class. */
  lemma {:induction false} LoopFieldsKnown(reg: FH.Registry, graph: map<string, set<string>>, args: Items, c: SpockClass,
                                           n: nat, space: Items, depth: nat)
    requires n <= |c.attrs|
    ensures Builder.KnownKeywords(c, Loop(reg, graph, args, c, n, space, depth).fields)
  {
    if n > 0 {
      LoopFieldsKnown(reg, graph, args, c, n - 1, space, depth);
      var p := Loop(reg, graph, args, c, n - 1, space, depth);
      var a := c.attrs[n - 1];
      var h := HandlerOf(reg, Children(graph, c.name), a);
      if p.out.Pass? && h.Ok? {
        HandleOnlyEntry(reg, graph, args, c.name, a, h.value, p.fields, p.space, depth);
        assert AttrNames(c)[n - 1] == a.name;
      }
    }
  }

  /** After the loop, `recurse_generate` fails exactly when an attribute without
      a default got no field, and then with attrs' TypeError. */
  lemma GenerateInstantiates(reg: FH.Registry, graph: map<string, set<string>>, args: Items, c: SpockClass, space: Items, depth: nat)
    requires Loop(reg, graph, args, c, |c.attrs|, space, depth).out.Pass?
    ensures var l := Loop(reg, graph, args, c, |c.attrs|, space, depth);
      Generate(reg, graph, args, c, space, depth).result.Ok? <==> Builder.RequiredGiven(c, l.fields)
    ensures var g := Generate(reg, graph, args, c, space, depth);
      g.result.Err? ==> g.result.exc == TypeError
  {
    LoopFieldsKnown(reg, graph, args, c, |c.attrs|, space, depth);
  }
}

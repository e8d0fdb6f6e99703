/** The command-line side of the builders: where the config paths come from
    (`get_config_paths` and `_get_from_kwargs` in spock/backend/base.py and
    spock/backend/builder.py, `_get_config_paths` and `_get_from_kwargs` in
    spock/builder.py), the names of the class-specific override arguments
    (`_make_group_override_parser`), the general override table of the older
    builder (`_make_general_override_parser`) and its protected names
    (`_check_protected_keys`). Parsing `sys.argv` itself is not modelled: its
    result is a parameter. */
module CmdLine {
  import opened Results
  import opened Dicts
  import opened Values
  import opened Types
  import Overrides

  /** The parsed argument namespace: the config paths and the help flag. */
  class Namespace {
    var config: seq<Value>
    var help: bool

    constructor (config: seq<Value>, help: bool)
      ensures this.config == config && this.help == help
    {
      this.config := config;
      this.help := help;
    }
  }

  /** `_get_from_kwargs`: a list (exactly `list`, not a tuple) of configs extends
      `args.config` in place; anything else is a TypeError and changes nothing. */
  method GetFromKwargs(args: Namespace, configs: Value) returns (r: Outcome)
    modifies args
    ensures configs.List? ==> r == Pass && args.config == old(args.config) + configs.elems
    ensures !configs.List? ==> r == Fail(TypeError) && args.config == old(args.config)
    ensures args.help == old(args.help)
  {
    if configs.List? {
      args.config := args.config + configs.elems;
      return Pass;
    }
    return Fail(TypeError);
  }

  /** The config paths `get_config_paths` ends with: those parsed from the command
      line (none when it is not read) followed by the `configs` keyword's list.
      `configs` is `Null` when the keyword was not given. */
  function ConfigPaths(noCmdLine: bool, configs: Value, parsed: seq<Value>): (r: Result<seq<Value>>)
    ensures r.Err? <==> (noCmdLine && configs == Null) || (configs != Null && !configs.List?)
    ensures r.Err? ==> r.exc == if noCmdLine && configs == Null then ValueError else TypeError
  {
    if noCmdLine && configs == Null then Err(ValueError)
    else
      var base := if noCmdLine then [] else parsed;
      if configs == Null then Ok(base)
      else if configs.List? then Ok(base + configs.elems)
      else Err(TypeError)
  }

  /** With the command line off, the paths are exactly the `configs` keyword's list. */
  lemma ConfigPathsKwargsOnly(configs: seq<Value>, parsed: seq<Value>)
    ensures ConfigPaths(true, List(configs), parsed) == Ok(configs)
  {
    assert [] + configs == configs;
  }

  /** Without the `configs` keyword the command line's paths are kept as they are. */
  lemma ConfigPathsCmdLineOnly(parsed: seq<Value>)
    ensures ConfigPaths(false, Null, parsed) == Ok(parsed)
  {
  }

  /** `get_config_paths`: the command-line namespace (`parsed`, `parsedHelp`) or an
      empty one when the command line is not read, extended by the `configs` keyword. */
  method GetConfigPaths(noCmdLine: bool, configs: Value, parsed: seq<Value>, parsedHelp: bool) returns (r: Result<Namespace>)
    ensures r.Ok? <==> ConfigPaths(noCmdLine, configs, parsed).Ok?
    ensures r.Err? ==> r.exc == ConfigPaths(noCmdLine, configs, parsed).exc
    ensures r.Ok? ==> fresh(r.value) && r.value.config == ConfigPaths(noCmdLine, configs, parsed).value
    ensures r.Ok? ==> r.value.help == (!noCmdLine && parsedHelp)
  {
    if noCmdLine && configs == Null {
      return Err(ValueError);
    }
    var args: Namespace;
    if !noCmdLine {
      args := new Namespace(parsed, parsedHelp);
    } else {
      args := new Namespace([], false);
    }
    if configs != Null {
      var o := GetFromKwargs(args, configs);
      if o.Fail? {
        return Err(o.exc);
      }
    }
    return Ok(args);
  }

  // ---------------------------------------------------------------------------
  // Override argument names

  /** `val.metadata['type']` when present, else `val.type`. */
  function ValType(a: Attribute): PyType {
    if a.metaType.Some? then a.metaType.value else a.typ
  }

  /** `list(set(xs))`: each element once (in first-seen order here). */
  function DistinctTypes(xs: seq<PyType>): (r: seq<PyType>)
    ensures forall t :: t in r <==> t in xs
  {
    if xs == [] then []
    else
      var p := DistinctTypes(xs[..|xs| - 1]);
      var t := xs[|xs| - 1];
      if t in p then p else p + [t]
  }

  /** The attributes of the spock class named by `list(set(t.__args__))[0]`, when
      `t` is a generic whose chosen argument is a spock class. The order of a
      Python set is not modelled: `pick` chooses the element. A generic without
      arguments is an IndexError. */
  function NestedAttrs(t: PyType, registry: map<string, seq<Attribute>>, pick: nat): (r: Result<Option<(string, seq<Attribute>)>>)
    ensures r.Err? ==> r.exc == IndexError
    ensures !IsGeneric(t) ==> r == Ok(None)
    ensures t.ListOf? && t.elem.ClassT? && t.elem.name in registry ==> r == Ok(Some((t.elem.name, registry[t.elem.name])))
  {
    if !IsGeneric(t) then Ok(None)
    else
      var ds := DistinctTypes(Args(t));
      if ds == [] then Err(IndexError)
      else
        assert t.ListOf? ==> ds == [t.elem] by {
          if t.ListOf? {
            assert [t.elem][..0] == [];
            assert DistinctTypes([t.elem][..0]) == [];
            assert DistinctTypes([t.elem]) == [t.elem];
          }
        }
        var x := ds[pick % |ds|];
        if x.ClassT? && x.name in registry then Ok(Some((x.name, registry[x.name]))) else Ok(None)
  }

  /** `--Class.field` */
  function FieldArg(cls: string, field: string): string {
    "--" + cls + "." + field
  }

  /** `--Class.field.Inner.inner`, one per attribute of the nested class. */
  function InnerArgs(cls: string, field: string, inner: string, attrs: seq<Attribute>): (r: seq<string>)
    ensures |r| == |attrs|
    ensures forall i :: 0 <= i < |attrs| ==> r[i] == FieldArg(cls, field) + "." + inner + "." + attrs[i].name
  {
    seq(|attrs|, i requires 0 <= i < |attrs| => FieldArg(cls, field) + "." + inner + "." + attrs[i].name)
  }

  /** The argument names `_make_group_override_parser` adds for the attribute `a` of class `cls`. */
  function AttrArgs(cls: string, a: Attribute, registry: map<string, seq<Attribute>>, pick: nat): Result<seq<string>> {
    var nested := NestedAttrs(ValType(a), registry, pick);
    if nested.Err? then Err(nested.exc)
    else if nested.value.Some? then Ok(InnerArgs(cls, a.name, nested.value.value.0, nested.value.value.1))
    else Ok([FieldArg(cls, a.name)])
  }

  /** All override argument names of class `c`, attribute by attribute. */
  function OverrideArgs(c: SpockClass, registry: map<string, seq<Attribute>>, pick: nat): Result<seq<string>>
    decreases |c.attrs|
  {
    if c.attrs == [] then Ok([])
    else
      var n := |c.attrs| - 1;
      var p := OverrideArgs(SpockClass(c.name, c.attrs[..n]), registry, pick);
      var q := AttrArgs(c.name, c.attrs[n], registry, pick);
      if p.Err? then p else if q.Err? then q else Ok(p.value + q.value)
  }

  /** `s` is the argument `--Class.field` or one of its `--Class.field.` extensions. */
  predicate ArgOf(s: string, cls: string, field: string) {
    var f := FieldArg(cls, field);
    s == f || (|s| > |f| + 1 && s[..|f| + 1] == f + ".")
  }

  /** Every argument added for an attribute is an argument of that attribute. */
  lemma AttrArgsOf(cls: string, a: Attribute, registry: map<string, seq<Attribute>>, pick: nat)
    requires AttrArgs(cls, a, registry, pick).Ok?
    ensures forall s :: s in AttrArgs(cls, a, registry, pick).value ==> ArgOf(s, cls, a.name)
  {
    var nested := NestedAttrs(ValType(a), registry, pick);
    if nested.value.Some? {
      var f := FieldArg(cls, a.name);
      var (inner, attrs) := nested.value.value;
      forall s | s in InnerArgs(cls, a.name, inner, attrs) ensures ArgOf(s, cls, a.name) {
        var k :| 0 <= k < |attrs| && InnerArgs(cls, a.name, inner, attrs)[k] == s;
        assert s == f + ("." + inner + "." + attrs[k].name);
        assert s[..|f| + 1] == f + ".";
      }
    }
  }

  /** Every override argument of a class is an argument of one of its attributes. */
  lemma {:induction false} OverrideArgsShape(c: SpockClass, registry: map<string, seq<Attribute>>, pick: nat)
    requires OverrideArgs(c, registry, pick).Ok?
    ensures forall s :: s in OverrideArgs(c, registry, pick).value ==>
      exists j :: 0 <= j < |c.attrs| && ArgOf(s, c.name, c.attrs[j].name)
    decreases |c.attrs|
  {
    if c.attrs != [] {
      var n := |c.attrs| - 1;
      var pc := SpockClass(c.name, c.attrs[..n]);
      var p := OverrideArgs(pc, registry, pick);
      var q := AttrArgs(c.name, c.attrs[n], registry, pick);
      OverrideArgsShape(pc, registry, pick);
      AttrArgsOf(c.name, c.attrs[n], registry, pick);
      forall s | s in p.value + q.value
        ensures exists j :: 0 <= j < |c.attrs| && ArgOf(s, c.name, c.attrs[j].name)
      {
        if s in p.value {
          var j :| 0 <= j < n && ArgOf(s, c.name, pc.attrs[j].name);
          assert pc.attrs[j] == c.attrs[j];
        } else {
          assert ArgOf(s, c.name, c.attrs[n].name);
        }
      }
    }
  }

  /** A field whose type does not nest a spock class gets exactly `--Class.field`. */
  lemma PlainFieldArg(cls: string, a: Attribute, registry: map<string, seq<Attribute>>, pick: nat)
    requires !IsGeneric(ValType(a))
    ensures AttrArgs(cls, a, registry, pick) == Ok([FieldArg(cls, a.name)])
  {
  }

  /** The argument names the older base builder's `_make_group_override_parser`
      adds for class `c`: `--Class.field` for every attribute, whatever its type. */
  function BaseOverrideArgs(c: SpockClass): (r: seq<string>)
    ensures |r| == |c.attrs|
    ensures forall i :: 0 <= i < |c.attrs| ==> r[i] == FieldArg(c.name, c.attrs[i].name)
    decreases |c.attrs|
  {
    if c.attrs == [] then []
    else
      var n := |c.attrs| - 1;
      var p := BaseOverrideArgs(SpockClass(c.name, c.attrs[..n]));
      p + [FieldArg(c.name, c.attrs[n].name)]
  }

  /** For a class none of whose fields nests a spock class, the newer builder
      adds exactly the arguments of the older one. */
  lemma {:induction false} BaseAgreesOnPlain(c: SpockClass, registry: map<string, seq<Attribute>>, pick: nat)
    requires forall i :: 0 <= i < |c.attrs| ==> !IsGeneric(ValType(c.attrs[i]))
    ensures OverrideArgs(c, registry, pick) == Ok(BaseOverrideArgs(c))
    decreases |c.attrs|
  {
    if c.attrs != [] {
      var n := |c.attrs| - 1;
      var pc := SpockClass(c.name, c.attrs[..n]);
      assert forall i :: 0 <= i < |pc.attrs| ==> pc.attrs[i] == c.attrs[i];
      BaseAgreesOnPlain(pc, registry, pick);
      PlainFieldArg(c.name, c.attrs[n], registry, pick);
    }
  }

  /** A `List` of a spock class gets one `--Class.field.Inner.inner` per attribute of the inner class. */
  lemma ListFieldArgs(cls: string, a: Attribute, registry: map<string, seq<Attribute>>, pick: nat)
    requires ValType(a).ListOf? && ValType(a).elem.ClassT? && ValType(a).elem.name in registry
    ensures var inner := ValType(a).elem.name;
      AttrArgs(cls, a, registry, pick) == Ok(InnerArgs(cls, a.name, inner, registry[inner]))
  {
  }

  // ---------------------------------------------------------------------------
  // General overrides and protected names

  /** The names `_check_protected_keys` refuses at the general level. */
  const ProtectedNames: seq<string> := ["config", "help"]

  /** `_check_protected_keys`: ValueError when a general-level name is protected. */
  function CheckProtectedKeys<V>(allAttr: Dict<V>): (r: Outcome)
    ensures r.Fail? <==> exists i :: 0 <= i < |ProtectedNames| && HasKey(allAttr, ProtectedNames[i])
    ensures r.Fail? ==> r.exc == ValueError
  {
    assert ProtectedNames[0] == "config" && ProtectedNames[1] == "help";
    if HasKey(allAttr, "config") || HasKey(allAttr, "help") then Fail(ValueError) else Pass
  }

  /** The attributes of all classes, class by class. */
  function AllAttrs(classes: seq<SpockClass>): (r: seq<Attribute>)
    ensures forall a :: a in r <==> exists i :: 0 <= i < |classes| && a in classes[i].attrs
  {
    if classes == [] then []
    else
      var n := |classes| - 1;
      assert forall i :: 0 <= i < n ==> classes[..n][i] == classes[i];
      AllAttrs(classes[..n]) + classes[n].attrs
  }

  /** One step of `_make_general_override_parser` as written: `hasattr(all_attr, name)`
      asks whether the dict object has an attribute of that name, not whether the
      name is a key. For an ordinary name it is false and the type is overwritten;
      for a name like `items` it is true and `all_attr[name]` raises KeyError when
      the key is absent. */
  function GeneralStep(all: Dict<PyType>, a: Attribute): Result<Dict<PyType>> {
    if a.name in Overrides.DictAttributes then
      if HasKey(all, a.name) then Ok(all) else Err(KeyError)
    else Ok(Put(all, a.name, ValType(a)))
  }

  /** The general override table `all_attr` as written. */
  function GeneralAttrs(attrs: seq<Attribute>): Result<Dict<PyType>> {
    if attrs == [] then Ok([])
    else
      var p := GeneralAttrs(attrs[..|attrs| - 1]);
      if p.Err? then p else GeneralStep(p.value, attrs[|attrs| - 1])
  }

  /** As written, the later class's type replaces the earlier one without a
      warning. */
  lemma GeneralAttrsOverwrites()
    ensures GeneralAttrs([Attribute("lr", Prim("int"), None, None, None, None),
                          Attribute("lr", Prim("float"), None, None, None, None)]) == Ok([("lr", Prim("float"))])
  {
    var a := Attribute("lr", Prim("int"), None, None, None, None);
    var b := Attribute("lr", Prim("float"), None, None, None, None);
    assert "lr" !in Overrides.DictAttributes by {
      forall n | n in Overrides.DictDunders ensures "lr" != "__" + n + "__" {
        assert ("__" + n + "__")[0] == '_';
      }
      assert "lr" !in Overrides.DictMethods;
    }
    assert [a][..0] == [];
    assert GeneralAttrs([a]) == Ok([("lr", Prim("int"))]);
    assert [a, b][..1] == [a];
    assert Put([("lr", Prim("int"))], "lr", Prim("float")) == [("lr", Prim("float"))];
  }

  /** As written, an attribute named `items` raises KeyError. */
  lemma GeneralAttrsItems()
    ensures GeneralAttrs([Attribute("items", Prim("int"), None, None, None, None)]) == Err(KeyError)
  {
    var c := Attribute("items", Prim("int"), None, None, None, None);
    assert "items" in Overrides.DictMethods;
    assert [c][..0] == [];
  }

  /** One step of the general override table as intended: a name already seen keeps
      its first type (the source then only prints a warning when the types differ). */
  function GeneralStepIntended(all: Dict<PyType>, a: Attribute): Dict<PyType> {
    if HasKey(all, a.name) then all else Put(all, a.name, ValType(a))
  }

  /** The general override table as intended. */
  function GeneralAttrsIntended(attrs: seq<Attribute>): Dict<PyType> {
    if attrs == [] then []
    else GeneralStepIntended(GeneralAttrsIntended(attrs[..|attrs| - 1]), attrs[|attrs| - 1])
  }

  /** The intended table has one entry per attribute name, holding the type of the
      first attribute of that name. */
  lemma {:induction false} GeneralAttrsIntendedFirst(attrs: seq<Attribute>, i: int)
    requires 0 <= i < |attrs| && forall j :: 0 <= j < i ==> attrs[j].name != attrs[i].name
    ensures Lookup(GeneralAttrsIntended(attrs), attrs[i].name) == Some(ValType(attrs[i]))
  {
    var n := |attrs| - 1;
    var p := GeneralAttrsIntended(attrs[..n]);
    if i < n {
      GeneralAttrsIntendedFirst(attrs[..n], i);
      LookupPut(p, attrs[n].name, ValType(attrs[n]), attrs[i].name);
    } else {
      GeneralAttrsIntendedKeys(attrs[..n], attrs[i].name);
      LookupPut(p, attrs[n].name, ValType(attrs[n]), attrs[i].name);
    }
  }

  /** The intended table's keys are the attribute names. */
  lemma {:induction false} GeneralAttrsIntendedKeys(attrs: seq<Attribute>, k: string)
    ensures HasKey(GeneralAttrsIntended(attrs), k) <==> exists j :: 0 <= j < |attrs| && attrs[j].name == k
  {
    if attrs != [] {
      var n := |attrs| - 1;
      GeneralAttrsIntendedKeys(attrs[..n], k);
      PutHasKey(GeneralAttrsIntended(attrs[..n]), attrs[n].name, ValType(attrs[n]), k);
      assert forall j :: 0 <= j < n ==> attrs[..n][j] == attrs[j];
    }
  }

  /** With the intended table, the protected-name check fails exactly when some
      class has an attribute named `config` or `help`. */
  lemma ProtectedAnyClass(classes: seq<SpockClass>)
    ensures CheckProtectedKeys(GeneralAttrsIntended(AllAttrs(classes))).Fail?
      <==> exists a :: a in AllAttrs(classes) && a.name in ProtectedNames
  {
    var all := AllAttrs(classes);
    GeneralAttrsIntendedKeys(all, "config");
    GeneralAttrsIntendedKeys(all, "help");
    if exists a :: a in all && a.name in ProtectedNames {
      var a :| a in all && a.name in ProtectedNames;
      var j :| 0 <= j < |all| && all[j] == a;
      assert a.name == ProtectedNames[0] || a.name == ProtectedNames[1];
    }
  }
}

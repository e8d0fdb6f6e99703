/** Building spock class instances from a loaded payload with the attrs
    backend: `BaseBuilder.generate`, `_auto_generate` and `_handle_late_defaults`
    of spock/backend/base.py and spock/backend/builder.py, and the attrs
    `_handle_arguments`, `_handle_repeated` and `_handle_nested_class`, which
    spock/backend/builder.py and spock/backend/attr/builder.py define alike.

    Calling a class object with keyword arguments (`cls(**kwargs)`) is modelled
    by `Instantiate`: the attrs `__init__` checks the keywords against the
    attributes and fills in defaults; the validators it then runs are modelled
    separately and are not applied here. */
module Builder {
  import opened Results
  import opened Dicts
  import opened Values
  import opened Types
  import opened Strs

  /** An argument passed to a builder: a decorated config class, or something else. */
  datatype Input<C> = Decorated(c: C) | Undecorated(name: string)

  /** The constructor check `for arg in input_classes: if not attr.has(arg): raise TypeError`
      (`is_dataclass` for the dataclass builders). */
  method VerifyInputs<C>(inputs: seq<Input<C>>) returns (r: Result<seq<C>>)
    ensures r.Ok? <==> forall i :: 0 <= i < |inputs| ==> inputs[i].Decorated?
    ensures r.Err? ==> r.exc == TypeError
    ensures r.Ok? ==> |r.value| == |inputs| && forall i :: 0 <= i < |inputs| ==> r.value[i] == inputs[i].c
  {
    var cs: seq<C> := [];
    for i := 0 to |inputs|
      invariant |cs| == i
      invariant forall j :: 0 <= j < i ==> inputs[j].Decorated? && cs[j] == inputs[j].c
    {
      if inputs[i].Undecorated? {
        return Err(TypeError);
      }
      cs := cs + [inputs[i].c];
    }
    return Ok(cs);
  }

  // ---------------------------------------------------------------------------
  // Instantiation

  /** Every keyword names an attribute of `c`. */
  predicate KnownKeywords(c: SpockClass, kwargs: Items) {
    forall i :: 0 <= i < |kwargs| ==> kwargs[i].0 in AttrNames(c)
  }

  /** Every attribute of `c` without a default is given a value. */
  predicate RequiredGiven(c: SpockClass, kwargs: Items) {
    forall j :: 0 <= j < |c.attrs| ==> c.attrs[j].default.Some? || HasKey(kwargs, c.attrs[j].name)
  }

  /** The attribute values of a new instance: the given value, else the default. */
  function InitValues(attrs: seq<Attribute>, kwargs: Items): (r: Items)
    requires forall j :: 0 <= j < |attrs| ==> attrs[j].default.Some? || HasKey(kwargs, attrs[j].name)
    ensures |r| == |attrs|
    ensures forall j :: 0 <= j < |attrs| ==> r[j].0 == attrs[j].name
    ensures forall j :: 0 <= j < |attrs| ==>
      r[j].1 == if HasKey(kwargs, attrs[j].name) then Lookup(kwargs, attrs[j].name).value else attrs[j].default.value
  {
    if attrs == [] then []
    else
      var a := attrs[0];
      [(a.name, if HasKey(kwargs, a.name) then Lookup(kwargs, a.name).value else a.default.value)]
        + InitValues(attrs[1..], kwargs)
  }

  /** `c(**kwargs)`: the keywords must be a mapping (TypeError otherwise), name
      attributes of `c` and cover every attribute without a default. */
  function Instantiate(c: SpockClass, kwargs: Value): (r: Result<Value>)
    ensures r.Ok? <==> kwargs.Dict? && KnownKeywords(c, kwargs.items) && RequiredGiven(c, kwargs.items)
    ensures r.Err? ==> r.exc == TypeError
    ensures r.Ok? ==> r.value.Instance? && r.value.cls == c.name && KeysOf(r.value.attrs) == AttrNames(c)
  {
    if kwargs.Dict? && KnownKeywords(c, kwargs.items) && RequiredGiven(c, kwargs.items) then
      Ok(Instance(c.name, InitValues(c.attrs, kwargs.items)))
    else
      Err(TypeError)
  }

  /** `[c(**v) for v in es]`: one instance per entry, in order; the first failure propagates. */
  function InstantiateAll(c: SpockClass, es: seq<Value>): (r: Result<seq<Value>>)
    ensures r.Ok? <==> forall i :: 0 <= i < |es| ==> Instantiate(c, es[i]).Ok?
    ensures r.Err? ==> r.exc == TypeError
    ensures r.Ok? ==> |r.value| == |es| && forall i :: 0 <= i < |es| ==> Instantiate(c, es[i]) == Ok(r.value[i])
  {
    if es == [] then Ok([])
    else
      var n := |es| - 1;
      var p := InstantiateAll(c, es[..n]);
      if p.Err? then p
      else
        var x := Instantiate(c, es[n]);
        if x.Err? then Err(x.exc) else Ok(p.value + [x.value])
  }

  // ---------------------------------------------------------------------------
  // `_handle_nested_class`

  /** `[idx for idx, val in enumerate(class_names) if val == v]`, in increasing order. */
  function Matches(names: seq<string>, v: Value): (r: seq<nat>)
    ensures forall k :: 0 <= k < |r| ==> r[k] < |names| && v == Str(names[r[k]])
    ensures forall j :: 0 <= j < |names| && v == Str(names[j]) ==> j in r
    ensures forall a, b :: 0 <= a < b < |r| ==> r[a] < r[b]
  {
    if names == [] then []
    else
      var n := |names| - 1;
      Matches(names[..n], v) + (if v == Str(names[n]) then [n] else [])
  }

  /** A value naming no input class is returned as it is; a value naming exactly
      one input class is replaced by an instance (or a list of instances) built
      from that class's entry in the payload. */
  function NestedClass(args: Items, classes: seq<SpockClass>, check: Value): (r: Result<Value>)
    ensures r.Err? ==> r.exc == ValueError || r.exc == TypeError
  {
    var m := Matches(ClassNames(classes), check);
    if |m| == 0 then Ok(check)
    else if |m| > 1 then Err(ValueError)
    else
      var c := classes[m[0]];
      var entry := Lookup(args, c.name);
      if entry.None? || entry.value.Null? then Err(ValueError)
      else if entry.value.List? then
        var xs := InstantiateAll(c, entry.value.elems);
        if xs.Err? then Err(xs.exc) else Ok(List(xs.value))
      else Instantiate(c, entry.value)
  }

  lemma {:induction false} MatchesNone(names: seq<string>, v: Value)
    requires forall j :: 0 <= j < |names| ==> v != Str(names[j])
    ensures Matches(names, v) == []
  {
    if names != [] {
      MatchesNone(names[..|names| - 1], v);
    }
  }

  /** A name that occurs once matches at its one position. */
  lemma {:induction false} MatchesUnique(names: seq<string>, v: Value, i: int)
    requires 0 <= i < |names| && v == Str(names[i])
    requires forall j :: 0 <= j < |names| && j != i ==> names[j] != names[i]
    ensures Matches(names, v) == [i]
  {
    var n := |names| - 1;
    if i < n {
      MatchesUnique(names[..n], v, i);
    } else {
      MatchesNone(names[..n], v);
    }
  }

  /** A value naming no input class (anything but a string, in particular) is returned unchanged. */
  lemma NestedClassOther(args: Items, classes: seq<SpockClass>, check: Value)
    requires forall i :: 0 <= i < |classes| ==> check != Str(classes[i].name)
    ensures NestedClass(args, classes, check) == Ok(check)
  {
    MatchesNone(ClassNames(classes), check);
  }

  /** A name shared by two input classes is a ValueError. */
  lemma NestedClassAmbiguous(args: Items, classes: seq<SpockClass>, i: int, j: int)
    requires 0 <= i < j < |classes| && classes[i].name == classes[j].name
    ensures NestedClass(args, classes, Str(classes[i].name)) == Err(ValueError)
  {
    var m := Matches(ClassNames(classes), Str(classes[i].name));
    assert i in m && j in m;
  }

  /** A reference to a class that is missing from the payload, or present as `None`, is a ValueError. */
  lemma NestedClassMissing(args: Items, classes: seq<SpockClass>, i: int)
    requires 0 <= i < |classes|
    requires forall j :: 0 <= j < |classes| && j != i ==> classes[j].name != classes[i].name
    requires Lookup(args, classes[i].name) == None || Lookup(args, classes[i].name) == Some(Null)
    ensures NestedClass(args, classes, Str(classes[i].name)) == Err(ValueError)
  {
    MatchesUnique(ClassNames(classes), Str(classes[i].name), i);
  }

  /** A reference to a class whose payload entry is a dict builds one instance from it. */
  lemma NestedClassBuilds(args: Items, classes: seq<SpockClass>, i: int)
    requires 0 <= i < |classes|
    requires forall j :: 0 <= j < |classes| && j != i ==> classes[j].name != classes[i].name
    requires Lookup(args, classes[i].name).Some? && Lookup(args, classes[i].name).value.Dict?
    ensures NestedClass(args, classes, Str(classes[i].name)) == Instantiate(classes[i], Lookup(args, classes[i].name).value)
  {
    MatchesUnique(ClassNames(classes), Str(classes[i].name), i);
  }

  /** `_handle_nested_class` reads the payload only under class names. */
  lemma NestedClassFrame(args: Items, classes: seq<SpockClass>, check: Value, k: string, g: Value)
    requires k !in ClassNames(classes)
    ensures NestedClass(Put(args, k, g), classes, check) == NestedClass(args, classes, check)
  {
    var m := Matches(ClassNames(classes), check);
    if |m| == 1 {
      LookupPut(args, k, g, classes[m[0]].name);
    }
  }

  // ---------------------------------------------------------------------------
  // `_handle_arguments`

  /** `k in v` and then `v[k]`, for the class-level entry `v` of the payload:
      a dict lookup; on a string or a list `in` tests for a substring or an element,
      and indexing either by a string is a TypeError; other values cannot be searched. */
  function ClassLevel(v: Value, k: string): (r: Result<Option<Value>>)
    ensures v.Dict? ==> r == Ok(Lookup(v.items, k))
    ensures r.Ok? && r.value.Some? ==> v.Dict? && HasKey(v.items, k)
    ensures r.Ok? ==> v.Dict? || v.Str? || v.List? || v.Tuple?
  {
    match v
    case Dict(items) => Ok(Lookup(items, k))
    case Str(s) => if IsSubstring(k, s) then Err(TypeError) else Ok(None)
    case List(es) => if Str(k) in es then Err(TypeError) else Ok(None)
    case Tuple(es) => if Str(k) in es then Err(TypeError) else Ok(None)
    case _ => Err(TypeError)
  }

  function Wrap(r: Result<Value>): Result<Option<Value>> {
    if r.Err? then Err(r.exc) else Ok(Some(r.value))
  }

  /** The value `_handle_arguments` assigns to attribute `a` of the class named
      `cls`, or `None` when it assigns nothing: the class-level value first, then
      the global value, each passed through `NestedClass`. */
  function AttrValue(args: Items, classes: seq<SpockClass>, cls: string, a: Attribute): Result<Option<Value>> {
    var local := if HasKey(args, cls) then ClassLevel(Lookup(args, cls).value, a.name) else Ok(None);
    if local.Err? then Err(local.exc)
    else if local.value.Some? then Wrap(NestedClass(args, classes, local.value.value))
    else if HasKey(args, a.name) then Wrap(NestedClass(args, classes, Lookup(args, a.name).value))
    else Ok(None)
  }

  /** A class-level value beats a global value of the same name: adding or
      changing the global one leaves the attribute's value as it is. */
  lemma ClassLevelBeatsGlobal(args: Items, classes: seq<SpockClass>, cls: string, a: Attribute, g: Value)
    requires Lookup(args, cls).Some? && Lookup(args, cls).value.Dict?
    requires HasKey(Lookup(args, cls).value.items, a.name)
    requires a.name != cls && a.name !in ClassNames(classes)
    ensures AttrValue(Put(args, a.name, g), classes, cls, a) == AttrValue(args, classes, cls, a)
  {
    var args' := Put(args, a.name, g);
    LookupPut(args, a.name, g, cls);
    var x := Lookup(Lookup(args, cls).value.items, a.name).value;
    NestedClassFrame(args, classes, x, a.name, g);
  }

  /** Without a class-level value, the global value is taken. */
  lemma GlobalWhenNoClassLevel(args: Items, classes: seq<SpockClass>, cls: string, a: Attribute)
    requires !HasKey(args, cls) || (Lookup(args, cls).value.Dict? && !HasKey(Lookup(args, cls).value.items, a.name))
    requires HasKey(args, a.name)
    ensures AttrValue(args, classes, cls, a) == Wrap(NestedClass(args, classes, Lookup(args, a.name).value))
  {
  }

  /** The path `self.save_path` holds: a payload value (`None` is `Recorded(Null)`),
      or the attrs `NOTHING` marker taken from an attribute without a default. */
  datatype SavedPath = Recorded(v: Value) | RecordedNothing

  /** An attribute whose metadata carries a non-None `special_key`. */
  predicate Special(a: Attribute) {
    a.metaSpecialKey.Some? && a.metaSpecialKey.value != Null
  }

  /** The special-key step of `_handle_arguments`: the global payload value if
      present, else the default when it is not None. */
  function SaveStep(args: Items, a: Attribute, sp: SavedPath): SavedPath {
    if !Special(a) then sp
    else if HasKey(args, a.name) then Recorded(Lookup(args, a.name).value)
    else if a.default == Some(Null) then sp
    else if a.default.None? then RecordedNothing
    else Recorded(a.default.value)
  }

  /** The save path after the special-key steps of all of `attrs`. */
  function SaveFold(args: Items, attrs: seq<Attribute>, sp: SavedPath): SavedPath {
    if attrs == [] then sp else SaveStep(args, attrs[|attrs| - 1], SaveFold(args, attrs[..|attrs| - 1], sp))
  }

  /** What `_handle_arguments` has built after some attributes: the fields (or the
      exception that stopped it) and the save path. */
  datatype Progress = Progress(fields: Result<Items>, saved: SavedPath)

  /** The loop of `_handle_arguments` over the attributes of the class named `cls`. */
  function HandleAttrs(args: Items, classes: seq<SpockClass>, cls: string, attrs: seq<Attribute>, sp: SavedPath): Progress {
    if attrs == [] then Progress(Ok([]), sp)
    else
      var p := HandleAttrs(args, classes, cls, attrs[..|attrs| - 1], sp);
      var a := attrs[|attrs| - 1];
      if p.fields.Err? then p
      else
        match AttrValue(args, classes, cls, a)
        case Err(e) => Progress(Err(e), p.saved)
        case Ok(None) => Progress(p.fields, SaveStep(args, a, p.saved))
        case Ok(Some(v)) => Progress(Ok(Put(p.fields.value, a.name, v)), SaveStep(args, a, p.saved))
  }

  /** `_handle_arguments` assigns a field for attribute `a`. */
  predicate Assigns(args: Items, classes: seq<SpockClass>, cls: string, a: Attribute) {
    var v := AttrValue(args, classes, cls, a);
    v.Ok? && v.value.Some?
  }

  lemma HandleAttrsSnoc(args: Items, classes: seq<SpockClass>, cls: string, attrs: seq<Attribute>, sp: SavedPath, i: int)
    requires 0 <= i < |attrs|
    ensures var p := HandleAttrs(args, classes, cls, attrs[..i], sp);
      var a := attrs[i];
      HandleAttrs(args, classes, cls, attrs[..i + 1], sp)
      == if p.fields.Err? then p
         else match AttrValue(args, classes, cls, a)
           case Err(e) => Progress(Err(e), p.saved)
           case Ok(None) => Progress(p.fields, SaveStep(args, a, p.saved))
           case Ok(Some(v)) => Progress(Ok(Put(p.fields.value, a.name, v)), SaveStep(args, a, p.saved))
  {
    assert attrs[..i + 1][..i] == attrs[..i];
  }

  /** Once an attribute fails, later attributes change nothing. */
  lemma {:induction false} HandleAttrsStops(args: Items, classes: seq<SpockClass>, cls: string, attrs: seq<Attribute>, sp: SavedPath, i: int)
    requires 0 <= i <= |attrs|
    requires HandleAttrs(args, classes, cls, attrs[..i], sp).fields.Err?
    ensures HandleAttrs(args, classes, cls, attrs, sp) == HandleAttrs(args, classes, cls, attrs[..i], sp)
  {
    if i < |attrs| {
      assert attrs[..|attrs| - 1][..i] == attrs[..i];
      HandleAttrsStops(args, classes, cls, attrs[..|attrs| - 1], sp, i);
    } else {
      assert attrs[..i] == attrs;
    }
  }

  /** The fields are complete exactly when every attribute's value could be computed. */
  lemma {:induction false} HandleAttrsOk(args: Items, classes: seq<SpockClass>, cls: string, attrs: seq<Attribute>, sp: SavedPath)
    ensures HandleAttrs(args, classes, cls, attrs, sp).fields.Ok?
      <==> forall i :: 0 <= i < |attrs| ==> AttrValue(args, classes, cls, attrs[i]).Ok?
  {
    if attrs != [] {
      var n := |attrs| - 1;
      HandleAttrsOk(args, classes, cls, attrs[..n], sp);
      assert forall i :: 0 <= i < n ==> attrs[..n][i] == attrs[i];
      var p := HandleAttrs(args, classes, cls, attrs[..n], sp);
      var v := AttrValue(args, classes, cls, attrs[n]);
      assert HandleAttrs(args, classes, cls, attrs, sp).fields.Ok? <==> p.fields.Ok? && v.Ok?;
    }
  }

  /** On success the save path is that of the special-key steps alone: it depends
      on global payload entries and defaults, never on class-level values. */
  lemma {:induction false} HandleAttrsSaved(args: Items, classes: seq<SpockClass>, cls: string, attrs: seq<Attribute>, sp: SavedPath)
    requires HandleAttrs(args, classes, cls, attrs, sp).fields.Ok?
    ensures HandleAttrs(args, classes, cls, attrs, sp).saved == SaveFold(args, attrs, sp)
  {
    if attrs != [] {
      HandleAttrsSaved(args, classes, cls, attrs[..|attrs| - 1], sp);
    }
  }

  /** A field is present exactly for the attributes that have a class-level or a global value. */
  lemma {:induction false} HandleAttrsKeys(args: Items, classes: seq<SpockClass>, cls: string, attrs: seq<Attribute>, sp: SavedPath, k: string)
    requires HandleAttrs(args, classes, cls, attrs, sp).fields.Ok?
    ensures HasKey(HandleAttrs(args, classes, cls, attrs, sp).fields.value, k)
      <==> exists i :: 0 <= i < |attrs| && attrs[i].name == k && Assigns(args, classes, cls, attrs[i])
  {
    if attrs != [] {
      var n := |attrs| - 1;
      var pre := HandleAttrs(args, classes, cls, attrs[..n], sp);
      HandleAttrsKeys(args, classes, cls, attrs[..n], sp, k);
      assert forall i :: 0 <= i < n ==> attrs[..n][i] == attrs[i];
      var v := AttrValue(args, classes, cls, attrs[n]);
      if v.Ok? && v.value.Some? {
        PutHasKey(pre.fields.value, attrs[n].name, v.value.value, k);
      }
    }
  }

  /** Distinct attribute names, as in every attrs class. */
  predicate DistinctNames(attrs: seq<Attribute>) {
    forall i, j :: 0 <= i < j < |attrs| ==> attrs[i].name != attrs[j].name
  }

  /** Each attribute that has a value gets exactly that value. */
  lemma {:induction false} HandleAttrsValues(args: Items, classes: seq<SpockClass>, cls: string, attrs: seq<Attribute>, sp: SavedPath, i: int)
    requires DistinctNames(attrs) && 0 <= i < |attrs|
    requires HandleAttrs(args, classes, cls, attrs, sp).fields.Ok?
    ensures AttrValue(args, classes, cls, attrs[i]) == Ok(Lookup(HandleAttrs(args, classes, cls, attrs, sp).fields.value, attrs[i].name))
  {
    var n := |attrs| - 1;
    var pre := HandleAttrs(args, classes, cls, attrs[..n], sp);
    var v := AttrValue(args, classes, cls, attrs[n]);
    if i < n {
      HandleAttrsValues(args, classes, cls, attrs[..n], sp, i);
      if v.value.Some? {
        LookupPut(pre.fields.value, attrs[n].name, v.value.value, attrs[i].name);
      }
    } else if v.value.Some? {
      LookupPut(pre.fields.value, attrs[n].name, v.value.value, attrs[i].name);
    } else {
      HandleAttrsKeys(args, classes, cls, attrs[..n], sp, attrs[n].name);
    }
  }

  /** The save path is set by the last special attribute when the payload has a global value for it. */
  lemma {:induction false} SaveFoldGlobal(args: Items, attrs: seq<Attribute>, sp: SavedPath, i: int)
    requires 0 <= i < |attrs| && Special(attrs[i]) && HasKey(args, attrs[i].name)
    requires forall j :: i < j < |attrs| ==> !Special(attrs[j])
    ensures SaveFold(args, attrs, sp) == Recorded(Lookup(args, attrs[i].name).value)
  {
    var n := |attrs| - 1;
    if i < n {
      SaveFoldGlobal(args, attrs[..n], sp, i);
    }
  }

  /** Without special attributes the save path is left as it was. */
  lemma {:induction false} SaveFoldNone(args: Items, attrs: seq<Attribute>, sp: SavedPath)
    requires forall j :: 0 <= j < |attrs| ==> !Special(attrs[j])
    ensures SaveFold(args, attrs, sp) == sp
  {
    if attrs != [] {
      SaveFoldNone(args, attrs[..|attrs| - 1], sp);
    }
  }

  /** The fields do not depend on the save path held before. */
  lemma {:induction false} HandleAttrsFields(args: Items, classes: seq<SpockClass>, cls: string, attrs: seq<Attribute>, sp: SavedPath, sp': SavedPath)
    ensures HandleAttrs(args, classes, cls, attrs, sp).fields == HandleAttrs(args, classes, cls, attrs, sp').fields
  {
    if attrs != [] {
      HandleAttrsFields(args, classes, cls, attrs[..|attrs| - 1], sp, sp');
    }
  }

  // ---------------------------------------------------------------------------
  // `_handle_arguments` and `_handle_repeated`

  /** `class_names.index(n)`: the first position of `n`. */
  function FirstIndex(names: seq<string>, n: string): (i: nat)
    requires n in names
    ensures i < |names| && names[i] == n
    ensures forall j :: 0 <= j < i ==> names[j] != n
  {
    if names[0] == n then 0 else 1 + FirstIndex(names[1..], n)
  }

  /** What `_handle_arguments` returns: a list of instances for a repeated class, else the fields. */
  datatype Built = Repeated(instances: seq<Value>) | Fields(fields: Items)

  /** `_handle_arguments` for class `c`: a class whose payload entry is a list is
      built as a list of instances of the first input class of that name;
      otherwise the attributes are handled one by one. */
  function Arguments(args: Items, classes: seq<SpockClass>, c: SpockClass, sp: SavedPath): (Result<Built>, SavedPath) {
    var names := ClassNames(classes);
    var entry := Lookup(args, c.name);
    if c.name in names && entry.Some? && entry.value.List? then
      var xs := InstantiateAll(classes[FirstIndex(names, c.name)], entry.value.elems);
      (if xs.Err? then Err(xs.exc) else Ok(Repeated(xs.value)), sp)
    else
      var p := HandleAttrs(args, classes, c.name, c.attrs, sp);
      (if p.fields.Err? then Err(p.fields.exc) else Ok(Fields(p.fields.value)), p.saved)
  }

  /** A repeated class gives one instance per payload entry, in order, and leaves the save path alone. */
  lemma RepeatedInOrder(args: Items, classes: seq<SpockClass>, c: SpockClass, sp: SavedPath, es: seq<Value>)
    requires c.name in ClassNames(classes) && Lookup(args, c.name) == Some(List(es))
    ensures var r := Arguments(args, classes, c, sp);
      var k := classes[FirstIndex(ClassNames(classes), c.name)];
      && r.1 == sp
      && (r.0.Ok? <==> forall i :: 0 <= i < |es| ==> Instantiate(k, es[i]).Ok?)
      && (r.0.Ok? ==>
            && r.0.value.Repeated?
            && |r.0.value.instances| == |es|
            && forall i :: 0 <= i < |es| ==> Instantiate(k, es[i]) == Ok(r.0.value.instances[i]))
  {
  }

  // ---------------------------------------------------------------------------
  // `_handle_late_defaults`

  /** `type(default).__name__` values whose defaults attrs handles by itself. */
  const BaseTypeNames: seq<string> := ["_Nothing", "NoneType", "bool", "int", "float", "str", "list", "tuple"]

  /** `default.__name__` when `type(default).__name__` is not a base type name, else `None`;
      a default without a `__name__` (a dict, an instance) is an AttributeError. */
  function DefaultClassName(d: Option<Value>): (r: Result<Option<string>>)
    ensures r.Ok? && r.value.Some? ==>
      d.Some? && (d.value == ClassRef(r.value.value) || (d.value.Callable? && d.value.name == r.value.value))
    ensures d.None? || TypeName(d.value) in BaseTypeNames ==> r == Ok(None)
    ensures r.Err? ==> r.exc == AttributeError
  {
    if d.None? || TypeName(d.value) in BaseTypeNames then Ok(None)
    else
      match d.value
      case ClassRef(n) => Ok(Some(n))
      case Callable(_, n) => Ok(Some(n))
      case _ => Err(AttributeError)
  }

  /** The late default for attribute `a`: when its default names a payload key, that
      entry built as an instance (a list of instances) of the input class of that
      name; `list.index` raises ValueError when no input class has the name. */
  function LateValue(args: Items, classes: seq<SpockClass>, a: Attribute): Result<Option<Value>> {
    var dn := DefaultClassName(a.default);
    if dn.Err? then Err(dn.exc)
    else if dn.value.None? || !HasKey(args, dn.value.value) then Ok(None)
    else
      var n := dn.value.value;
      var names := ClassNames(classes);
      if n !in names then Err(ValueError)
      else
        var c := classes[FirstIndex(names, n)];
        var v := Lookup(args, n).value;
        if v.List? then
          var xs := InstantiateAll(c, v.elems);
          if xs.Err? then Err(xs.exc) else Ok(Some(List(xs.value)))
        else Wrap(Instantiate(c, v))
  }

  /** `_handle_late_defaults` sets a field for attribute `a`. */
  predicate LateSets(args: Items, classes: seq<SpockClass>, a: Attribute) {
    var v := LateValue(args, classes, a);
    v.Ok? && v.value.Some?
  }

  /** The loop of `_handle_late_defaults`, which skips the attributes already in
      `fields0` (the key list taken before the loop). */
  function LateDefaults(args: Items, classes: seq<SpockClass>, attrs: seq<Attribute>, fields0: Items): Result<Items> {
    if attrs == [] then Ok(fields0)
    else
      var p := LateDefaults(args, classes, attrs[..|attrs| - 1], fields0);
      var a := attrs[|attrs| - 1];
      if p.Err? || HasKey(fields0, a.name) then p
      else
        match LateValue(args, classes, a)
        case Err(e) => Err(e)
        case Ok(None) => p
        case Ok(Some(v)) => Ok(Put(p.value, a.name, v))
  }

  /** Late defaults never replace a field that was already set. */
  lemma {:induction false} LateDefaultsKeep(args: Items, classes: seq<SpockClass>, attrs: seq<Attribute>, fields0: Items, k: string)
    requires LateDefaults(args, classes, attrs, fields0).Ok? && HasKey(fields0, k)
    ensures Lookup(LateDefaults(args, classes, attrs, fields0).value, k) == Lookup(fields0, k)
  {
    if attrs != [] {
      var n := |attrs| - 1;
      var p := LateDefaults(args, classes, attrs[..n], fields0);
      LateDefaultsKeep(args, classes, attrs[..n], fields0, k);
      if !HasKey(fields0, attrs[n].name) {
        var v := LateValue(args, classes, attrs[n]);
        if v.value.Some? {
          LookupPut(p.value, attrs[n].name, v.value.value, k);
        }
      }
    }
  }

  /** The keys after late defaults: the old ones and those of attributes given a late default. */
  lemma {:induction false} LateDefaultsKeys(args: Items, classes: seq<SpockClass>, attrs: seq<Attribute>, fields0: Items, k: string)
    requires LateDefaults(args, classes, attrs, fields0).Ok?
    ensures HasKey(LateDefaults(args, classes, attrs, fields0).value, k) <==>
      HasKey(fields0, k) || exists i :: 0 <= i < |attrs| && attrs[i].name == k && LateSets(args, classes, attrs[i])
  {
    if attrs != [] {
      var n := |attrs| - 1;
      var p := LateDefaults(args, classes, attrs[..n], fields0);
      LateDefaultsKeys(args, classes, attrs[..n], fields0, k);
      assert forall i :: 0 <= i < n ==> attrs[..n][i] == attrs[i];
      if !HasKey(fields0, attrs[n].name) {
        var v := LateValue(args, classes, attrs[n]);
        if v.value.Some? {
          PutHasKey(p.value, attrs[n].name, v.value.value, k);
        }
      } else if attrs[n].name == k && LateSets(args, classes, attrs[n]) {
        LateDefaultsHasOld(args, classes, attrs[..n], fields0, k);
      }
    }
  }

  lemma {:induction false} LateDefaultsHasOld(args: Items, classes: seq<SpockClass>, attrs: seq<Attribute>, fields0: Items, k: string)
    requires LateDefaults(args, classes, attrs, fields0).Ok? && HasKey(fields0, k)
    ensures HasKey(LateDefaults(args, classes, attrs, fields0).value, k)
  {
    LateDefaultsKeep(args, classes, attrs, fields0, k);
  }

  // ---------------------------------------------------------------------------
  // `_auto_generate` and `generate`

  /** `_auto_generate`: a repeated class gives the list of its instances; otherwise
      the fields, completed by the late defaults, instantiate the class. */
  function AutoGenerated(args: Items, classes: seq<SpockClass>, c: SpockClass, sp: SavedPath): (Result<Value>, SavedPath) {
    var (b, sp') := Arguments(args, classes, c, sp);
    if b.Err? then (Err(b.exc), sp')
    else if b.value.Repeated? then (Ok(List(b.value.instances)), sp')
    else
      var f := LateDefaults(args, classes, c.attrs, b.value.fields);
      (if f.Err? then Err(f.exc) else Instantiate(c, Dict(f.value)), sp')
  }

  /** `list({type(val).__name__ for val in xs})`, listing each name once, in first-seen order. */
  function TypeNames(xs: seq<Value>): seq<string> {
    if xs == [] then []
    else
      var p := TypeNames(xs[..|xs| - 1]);
      var t := TypeName(xs[|xs| - 1]);
      if t in p then p else p + [t]
  }

  /** Instances of one class give one name; no instances give none. */
  lemma {:induction false} TypeNamesOne(xs: seq<Value>, n: string)
    requires forall i :: 0 <= i < |xs| ==> TypeName(xs[i]) == n
    ensures TypeNames(xs) == if xs == [] then [] else [n]
  {
    if xs != [] {
      TypeNamesOne(xs[..|xs| - 1], n);
    }
  }

  /** One step of `generate`: the build is recorded under its class name. A list
      needs exactly one class name: more is a ValueError, none (an empty list) an
      IndexError. */
  function Record(auto: Items, b: Result<Value>): Result<Items> {
    if b.Err? then Err(b.exc)
    else if b.value.List? then
      var ns := TypeNames(b.value.elems);
      if |ns| > 1 then Err(ValueError)
      else if ns == [] then Err(IndexError)
      else Ok(Put(auto, ns[0], b.value))
    else Ok(Put(auto, TypeName(b.value), b.value))
  }

  /** `generate` over the classes `cs`, threading the save path through `_handle_arguments`. */
  function Generated(args: Items, classes: seq<SpockClass>, cs: seq<SpockClass>, sp: SavedPath): (Result<Items>, SavedPath) {
    if cs == [] then (Ok([]), sp)
    else
      var p := Generated(args, classes, cs[..|cs| - 1], sp);
      if p.0.Err? then p
      else
        var b := AutoGenerated(args, classes, cs[|cs| - 1], p.1);
        (Record(p.0.value, b.0), b.1)
  }

  /** Everything `_auto_generate` builds for `c` is named after `c`. */
  lemma AutoGeneratedNamed(args: Items, classes: seq<SpockClass>, c: SpockClass, sp: SavedPath)
    ensures var r := AutoGenerated(args, classes, c, sp).0;
      r.Ok? ==>
        (r.value.Instance? && r.value.cls == c.name)
        || (r.value.List? && forall i :: 0 <= i < |r.value.elems| ==> TypeName(r.value.elems[i]) == c.name)
  {
    var names := ClassNames(classes);
    var entry := Lookup(args, c.name);
    if c.name in names && entry.Some? && entry.value.List? {
      var k := classes[FirstIndex(names, c.name)];
      assert k.name == c.name;
    }
  }

  /** The build does not depend on the save path held before. */
  lemma AutoGeneratedValue(args: Items, classes: seq<SpockClass>, c: SpockClass, sp: SavedPath, sp': SavedPath)
    ensures AutoGenerated(args, classes, c, sp).0 == AutoGenerated(args, classes, c, sp').0
  {
    HandleAttrsFields(args, classes, c.name, c.attrs, sp, sp');
  }

  /** A successful build is recorded under the class's name, so `generate` never
      sees a list with several class names. */
  lemma RecordNamed(auto: Items, args: Items, classes: seq<SpockClass>, c: SpockClass, sp: SavedPath)
    requires AutoGenerated(args, classes, c, sp).0.Ok?
    ensures var b := AutoGenerated(args, classes, c, sp).0;
      Record(auto, b) == if b.value == List([]) then Err(IndexError) else Ok(Put(auto, c.name, b.value))
  {
    var b := AutoGenerated(args, classes, c, sp).0;
    AutoGeneratedNamed(args, classes, c, sp);
    RecordOne(auto, b, c.name);
  }

  lemma RecordOne(auto: Items, b: Result<Value>, n: string)
    requires b.Ok?
    requires (b.value.Instance? && b.value.cls == n)
      || (b.value.List? && forall i :: 0 <= i < |b.value.elems| ==> TypeName(b.value.elems[i]) == n)
    ensures Record(auto, b) == if b.value == List([]) then Err(IndexError) else Ok(Put(auto, n, b.value))
  {
    if b.value.List? {
      TypeNamesOne(b.value.elems, n);
    }
  }

  lemma ClassNamesSnoc(cs: seq<SpockClass>)
    requires cs != []
    ensures ClassNames(cs) == ClassNames(cs[..|cs| - 1]) + [cs[|cs| - 1].name]
  {
    assert ClassNames(cs) == ClassNames(cs[..|cs| - 1]) + [cs[|cs| - 1].name];
  }

  /** One successful step of `generate` records the class's build under its name. */
  lemma GeneratedStep(args: Items, classes: seq<SpockClass>, cs: seq<SpockClass>, sp: SavedPath)
    requires cs != [] && Generated(args, classes, cs, sp).0.Ok?
    ensures var p := Generated(args, classes, cs[..|cs| - 1], sp);
      && p.0.Ok?
      && AutoGenerated(args, classes, cs[|cs| - 1], p.1).0.Ok?
      && Generated(args, classes, cs, sp).0.value
         == Put(p.0.value, cs[|cs| - 1].name, AutoGenerated(args, classes, cs[|cs| - 1], p.1).0.value)
  {
    var p := Generated(args, classes, cs[..|cs| - 1], sp);
    RecordNamed(p.0.value, args, classes, cs[|cs| - 1], p.1);
  }

  /** On success the namespace has exactly one entry per class name. */
  lemma {:induction false} GeneratedKeys(args: Items, classes: seq<SpockClass>, cs: seq<SpockClass>, sp: SavedPath, k: string)
    requires Generated(args, classes, cs, sp).0.Ok?
    ensures HasKey(Generated(args, classes, cs, sp).0.value, k) <==> k in ClassNames(cs)
  {
    if cs != [] {
      var n := |cs| - 1;
      var p := Generated(args, classes, cs[..n], sp);
      GeneratedStep(args, classes, cs, sp);
      GeneratedKeys(args, classes, cs[..n], sp, k);
      PutHasKey(p.0.value, cs[n].name, AutoGenerated(args, classes, cs[n], p.1).0.value, k);
      ClassNamesSnoc(cs);
    }
  }

  /** With distinct class names, each class's build is found under its name. */
  lemma {:induction false} GeneratedValues(args: Items, classes: seq<SpockClass>, cs: seq<SpockClass>, sp: SavedPath, i: int)
    requires 0 <= i < |cs| && forall a, b :: 0 <= a < b < |cs| ==> cs[a].name != cs[b].name
    requires Generated(args, classes, cs, sp).0.Ok?
    ensures AutoGenerated(args, classes, cs[i], sp).0.Ok?
    ensures Lookup(Generated(args, classes, cs, sp).0.value, cs[i].name) == Some(AutoGenerated(args, classes, cs[i], sp).0.value)
  {
    var n := |cs| - 1;
    var p := Generated(args, classes, cs[..n], sp);
    GeneratedStep(args, classes, cs, sp);
    PutHasKey(p.0.value, cs[n].name, AutoGenerated(args, classes, cs[n], p.1).0.value, cs[i].name);
    LookupPut(p.0.value, cs[n].name, AutoGenerated(args, classes, cs[n], p.1).0.value, cs[i].name);
    if i < n {
      GeneratedValues(args, classes, cs[..n], sp, i);
    } else {
      AutoGeneratedValue(args, classes, cs[n], p.1, sp);
    }
  }

  lemma GeneratedSnoc(args: Items, classes: seq<SpockClass>, cs: seq<SpockClass>, sp: SavedPath, i: int)
    requires 0 <= i < |cs|
    ensures var p := Generated(args, classes, cs[..i], sp);
      Generated(args, classes, cs[..i + 1], sp)
      == if p.0.Err? then p
         else (Record(p.0.value, AutoGenerated(args, classes, cs[i], p.1).0), AutoGenerated(args, classes, cs[i], p.1).1)
  {
    assert cs[..i + 1][..i] == cs[..i];
  }

  /** Once a class fails, `generate` stops. */
  lemma {:induction false} GeneratedStops(args: Items, classes: seq<SpockClass>, cs: seq<SpockClass>, sp: SavedPath, i: int)
    requires 0 <= i <= |cs| && Generated(args, classes, cs[..i], sp).0.Err?
    ensures Generated(args, classes, cs, sp) == Generated(args, classes, cs[..i], sp)
  {
    if i < |cs| {
      assert cs[..|cs| - 1][..i] == cs[..i];
      GeneratedStops(args, classes, cs[..|cs| - 1], sp, i);
    } else {
      assert cs[..i] == cs;
    }
  }

  /** Once a late default fails, the loop stops. */
  lemma {:induction false} LateDefaultsStops(args: Items, classes: seq<SpockClass>, attrs: seq<Attribute>, fields0: Items, i: int)
    requires 0 <= i <= |attrs| && LateDefaults(args, classes, attrs[..i], fields0).Err?
    ensures LateDefaults(args, classes, attrs, fields0) == LateDefaults(args, classes, attrs[..i], fields0)
  {
    if i < |attrs| {
      assert attrs[..|attrs| - 1][..i] == attrs[..i];
      LateDefaultsStops(args, classes, attrs[..|attrs| - 1], fields0, i);
    } else {
      assert attrs[..i] == attrs;
    }
  }

  /** The attrs builder: its input classes and the `save_path` it records while building. */
  class AttrBuilder {
    const inputClasses: seq<SpockClass>
    var savePath: SavedPath

    /** `BaseBuilder.__init__` starts with `save_path = None`. */
    constructor (classes: seq<SpockClass>)
      ensures inputClasses == classes && savePath == Recorded(Null)
    {
      inputClasses := classes;
      savePath := Recorded(Null);
    }

    /** `_handle_arguments`: the fields of `c` (or its repeated instances) and the new save path. */
    method HandleArguments(args: Items, c: SpockClass) returns (r: Result<Built>)
      modifies this
      ensures (r, savePath) == Arguments(args, inputClasses, c, old(savePath))
    {
      var names := ClassNames(inputClasses);
      var entry := Lookup(args, c.name);
      if c.name in names && entry.Some? && entry.value.List? {
        var xs := InstantiateAll(inputClasses[FirstIndex(names, c.name)], entry.value.elems);
        r := if xs.Err? then Err(xs.exc) else Ok(Repeated(xs.value));
        return;
      }
      var fields: Items := [];
      var i := 0;
      while i < |c.attrs|
        invariant 0 <= i <= |c.attrs|
        invariant HandleAttrs(args, inputClasses, c.name, c.attrs[..i], old(savePath)) == Progress(Ok(fields), savePath)
      {
        var a := c.attrs[i];
        HandleAttrsSnoc(args, inputClasses, c.name, c.attrs, old(savePath), i);
        var v := AttrValue(args, inputClasses, c.name, a);
        if v.Err? {
          HandleAttrsStops(args, inputClasses, c.name, c.attrs, old(savePath), i + 1);
          return Err(v.exc);
        }
        if v.value.Some? {
          fields := Put(fields, a.name, v.value.value);
        }
        savePath := SaveStep(args, a, savePath);
        i := i + 1;
      }
      assert c.attrs[..i] == c.attrs;
      r := Ok(Fields(fields));
    }

    /** `_handle_late_defaults` on the fields of class `c`. */
    method HandleLateDefaults(args: Items, c: SpockClass, fields: Items) returns (r: Result<Items>)
      ensures r == LateDefaults(args, inputClasses, c.attrs, fields)
    {
      var out := fields;
      for i := 0 to |c.attrs|
        invariant LateDefaults(args, inputClasses, c.attrs[..i], fields) == Ok(out)
      {
        assert c.attrs[..i + 1][..i] == c.attrs[..i];
        var a := c.attrs[i];
        if !HasKey(fields, a.name) {
          var v := LateValue(args, inputClasses, a);
          if v.Err? {
            LateDefaultsStops(args, inputClasses, c.attrs, fields, i + 1);
            return Err(v.exc);
          }
          if v.value.Some? {
            out := Put(out, a.name, v.value.value);
          }
        }
      }
      assert c.attrs[..|c.attrs|] == c.attrs;
      return Ok(out);
    }

    /** `_auto_generate` */
    method AutoGenerate(args: Items, c: SpockClass) returns (r: Result<Value>)
      modifies this
      ensures (r, savePath) == AutoGenerated(args, inputClasses, c, old(savePath))
    {
      var b := HandleArguments(args, c);
      if b.Err? {
        return Err(b.exc);
      }
      if b.value.Repeated? {
        return Ok(List(b.value.instances));
      }
      var f := HandleLateDefaults(args, c, b.value.fields);
      if f.Err? {
        return Err(f.exc);
      }
      r := Instantiate(c, Dict(f.value));
    }

    /** `generate`: the namespace of all builds keyed by class name. */
    method Generate(args: Items) returns (r: Result<Items>)
      modifies this
      ensures (r, savePath) == Generated(args, inputClasses, inputClasses, old(savePath))
    {
      var auto: Items := [];
      for i := 0 to |inputClasses|
        invariant Generated(args, inputClasses, inputClasses[..i], old(savePath)) == (Ok(auto), savePath)
      {
        GeneratedSnoc(args, inputClasses, inputClasses, old(savePath), i);
        var b := AutoGenerate(args, inputClasses[i]);
        var rec := Record(auto, b);
        if rec.Err? {
          GeneratedStops(args, inputClasses, inputClasses, old(savePath), i + 1);
          return Err(rec.exc);
        }
        auto := rec.value;
      }
      assert inputClasses[..|inputClasses|] == inputClasses;
      return Ok(auto);
    }
  }
}

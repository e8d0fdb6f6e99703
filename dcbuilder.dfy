/** The builder of the dataclass backend: `DataClassBuilder` in
    spock/backend/dataclass/builder.py and its predecessor `ConfigArgBuilder` in
    spock/builder.py, whose field handling is the same code. A field's value is
    the class-level one, else the global one, else its default; it is then
    type-checked, ints are widened to floats where a float is wanted, and lists
    become tuples. */
module DcBuilder {
  import opened Results
  import opened Dicts
  import opened Values
  import opened Strs
  import opened Args
  import Builder

  /** The declared type of a dataclass field, as far as the builder inspects it. */
  datatype DcType =
    /** A plain argument class such as `IntArg`, with the name of its first base (`int`). */
    | Simple(name: string, base: string)
    /** A `ChoiceArg(...)` instance. */
    | Choice(arg: ChoiceArg)
    /** A generic such as `ListArg[float]`: the origin's name and the first type argument's name. */
    | Iterable(origin: string, elem: string)

  /** A dataclass field: its name, its type, its `default` and the value its
      `default_factory` produces (`None` when missing). */
  datatype DcField = DcField(name: string, typ: DcType, default: Option<Value>, factory: Option<Value>)

  datatype DataClass = DataClass(name: string, fields: seq<DcField>)

  /** The argument classes whose missing value is `None`. */
  const OptionalTypes: set<string> := {"FloatOptArg", "IntOptArg", "StrOptArg", "ListOptArg", "TupleOptArg", "SavePathOptArg"}

  /** `_int_to_float`: an exact `int` becomes a `float` when the target is `float`. */
  function IntToFloat(inst: Value, target: string): (r: Value)
    ensures r != inst <==> target == "float" && inst.Int?
    ensures Numeric(r) == Numeric(inst)
  {
    if target == "float" && inst.Int? then Float(inst.i as real) else inst
  }

  /** Widening makes ints instances of `float`; a bool stays a bool. */
  lemma WidenedFloat(inst: Value)
    ensures inst.Int? || inst.Float? ==> IsInstance(IntToFloat(inst, "float"), "float")
    ensures inst.Bool? || inst.Str? || inst.Null? ==> !IsInstance(IntToFloat(inst, "float"), "float")
  {
  }

  /** Widening a widened value changes nothing. */
  lemma IntToFloatIdempotent(inst: Value, target: string)
    ensures IntToFloat(IntToFloat(inst, target), target) == IntToFloat(inst, target)
  {
  }

  /** `_check_choice_type`: ValueError unless the value is one of the choices. */
  function CheckChoice(c: ChoiceArg, v: Value): (r: Result<Value>)
    ensures r.Ok? <==> PyIn(v, c.choiceSet)
    ensures r.Ok? ==> r.value == v
    ensures r.Err? ==> r.exc == ValueError
  {
    if PyIn(v, c.choiceSet) then Ok(v) else Err(ValueError)
  }

  /** The elements of an iterable value, each widened towards `elem`. */
  function WidenAll(es: seq<Value>, elem: string): (r: seq<Value>)
    ensures |r| == |es|
    ensures forall i :: 0 <= i < |es| ==> r[i] == IntToFloat(es[i], elem)
  {
    seq(|es|, i requires 0 <= i < |es| => IntToFloat(es[i], elem))
  }

  /** A list or tuple whose first element (if any), once widened, is a `elem`. */
  predicate FirstElementFits(x: Value, elem: string) {
    && (x.List? || x.Tuple?)
    && (|x.elems| > 0 ==> IsInstance(IntToFloat(x.elems[0], elem), elem))
  }

  /** `_check_valid_type`: the instance is checked against the first base of a
      plain type; a choice must be in the choice set and of its type; an iterable
      must be a list or a tuple, becomes a tuple of widened elements, and only its
      first element's type is checked. Every failure is a ValueError. */
  function CheckValidType(x: Value, t: DcType): (r: Result<Value>)
    ensures r.Err? ==> r.exc == ValueError
    ensures t.Simple? ==> (r.Ok? <==> IsInstance(IntToFloat(x, t.base), t.base))
    ensures t.Simple? && r.Ok? ==> r.value == IntToFloat(x, t.base)
    ensures t.Choice? ==> (r.Ok? <==> PyIn(x, t.arg.choiceSet) && IsInstance(x, t.arg.setType))
    ensures t.Choice? && r.Ok? ==> r.value == x
    ensures t.Iterable? ==> (r.Ok? <==> FirstElementFits(x, t.elem))
    ensures t.Iterable? && r.Ok? ==> r.value.Tuple? && r.value.elems == WidenAll(x.elems, t.elem)
  {
    match t
    case Simple(_, base) =>
      var y := IntToFloat(x, base);
      if IsInstance(y, base) then Ok(y) else Err(ValueError)
    case Choice(c) =>
      var y :- CheckChoice(c, x);
      if IsInstance(y, c.setType) then Ok(y) else Err(ValueError)
    case Iterable(_, elem) =>
      if !(x.List? || x.Tuple?) then Err(ValueError)
      else
        var es := WidenAll(x.elems, elem);
        if |es| > 0 && !IsInstance(es[0], elem) then Err(ValueError) else Ok(Tuple(es))
  }

  /** Only the first element of an iterable is checked: `[1, "a"]` passes as a list of ints. */
  lemma OnlyFirstChecked()
    ensures CheckValidType(List([Int(1), Str("a")]), Iterable("ListArg", "int")) == Ok(Tuple([Int(1), Str("a")]))
  {
    assert WidenAll([Int(1), Str("a")], "int") == [Int(1), Str("a")];
  }

  /** `cast`: a list becomes a tuple; anything else is unchanged. */
  function Cast(x: Value): (r: Value)
    ensures !r.List?
    ensures r.Tuple? || r.List? ==> x.List? || x.Tuple?
    ensures x.List? || x.Tuple? ==> r.Tuple? && r.elems == x.elems
    ensures !x.List? ==> r == x
  {
    if x.List? then Tuple(x.elems) else x
  }

  /** `_check_function`: the type check followed by the cast. */
  function CheckFunction(x: Value, t: DcType): (r: Result<Value>)
    ensures r.Ok? <==> CheckValidType(x, t).Ok?
    ensures r.Err? ==> r.exc == ValueError
    ensures r.Ok? ==> !r.value.List? && r.value == Cast(CheckValidType(x, t).value)
  {
    var y :- CheckValidType(x, t);
    Ok(Cast(y))
  }

  /** A value that passes the check as something other than a list passes it
      again unchanged. */
  lemma {:induction false} CheckFunctionIdempotent(x: Value, t: DcType)
    requires CheckValidType(x, t).Ok? && !CheckValidType(x, t).value.List?
    ensures CheckFunction(CheckFunction(x, t).value, t) == CheckFunction(x, t)
  {
    var y := CheckFunction(x, t).value;
    assert y == CheckValidType(x, t).value;
    match t
    case Simple(_, base) =>
      assert y == IntToFloat(x, base);
      IntToFloatIdempotent(x, base);
      assert CheckValidType(y, t) == Ok(y);
    case Choice(c) =>
      assert y == x;
    case Iterable(_, elem) =>
      var es := WidenAll(x.elems, elem);
      assert y == Tuple(es);
      forall i | 0 <= i < |es| ensures IntToFloat(es[i], elem) == es[i] {
        IntToFloatIdempotent(x.elems[i], elem);
      }
      assert WidenAll(es, elem) == es;
  }

  /** `check_for_defaults`: a ChoiceArg's own default (which must be a choice),
      else the field's default, else what its factory produces, else nothing. */
  function CheckForDefaults(f: DcField): (r: Result<Option<Value>>)
    ensures f.typ.Choice? ==> r == (if PyIn(f.typ.arg.default, f.typ.arg.choiceSet) then Ok(Some(f.typ.arg.default)) else Err(ValueError))
    ensures !f.typ.Choice? ==> r.Ok?
    ensures !f.typ.Choice? && f.default.Some? ==> r.value == f.default
    ensures !f.typ.Choice? && f.default.None? ==> r.value == f.factory
  {
    if f.typ.Choice? then
      var d :- CheckChoice(f.typ.arg, f.typ.arg.default);
      Ok(Some(d))
    else if f.default.Some? then Ok(f.default)
    else if f.factory.Some? then Ok(f.factory)
    else Ok(None)
  }

  /** `val.type.__name__`: a generic reports its origin's name. */
  function TypeNameOf(t: DcType): string {
    match t
    case Simple(n, _) => n
    case Choice(_) => "ChoiceArg"
    case Iterable(o, _) => o
  }

  /** The field's type is one of the optional argument classes. */
  predicate IsOptional(t: DcType) {
    (t.Simple? && t.name in OptionalTypes) || (t.Iterable? && t.origin in OptionalTypes)
  }

  /** The value `_handle_arguments` gives field `f` of the class named `cls`:
      class-level, then global, then the default, each type-checked; with none
      of those an optional type gives `None`, a `Bool` type gives `False`, and
      anything else is a ValueError. */
  function FieldValue(args: Items, cls: string, f: DcField): (r: Result<Value>)
    ensures r.Err? ==> r.exc in {ValueError, TypeError}
  {
    var local := if HasKey(args, cls) then Builder.ClassLevel(Lookup(args, cls).value, f.name) else Ok(None);
    if local.Err? then Err(local.exc)
    else if local.value.Some? then CheckFunction(local.value.value, f.typ)
    else if HasKey(args, f.name) then CheckFunction(Lookup(args, f.name).value, f.typ)
    else
      var d := CheckForDefaults(f);
      if d.Err? then Err(d.exc)
      else if d.value.Some? then CheckFunction(d.value.value, f.typ)
      else if IsOptional(f.typ) then Ok(Null)
      else if IsSubstring("Bool", TypeNameOf(f.typ)) then Ok(Bool(false))
      else Err(ValueError)
  }

  /** A class-level value wins over the global value of the same name. */
  lemma ClassLevelFirst(args: Items, cls: string, f: DcField, items: Items, g: Value)
    requires Lookup(args, cls) == Some(Dict(items)) && HasKey(items, f.name)
    requires cls != f.name
    ensures FieldValue(Put(args, f.name, g), cls, f) == CheckFunction(Lookup(items, f.name).value, f.typ)
    ensures FieldValue(args, cls, f) == FieldValue(Put(args, f.name, g), cls, f)
  {
    LookupPut(args, f.name, g, cls);
    PutHasKey(args, f.name, g, cls);
  }

  /** Without a class-level value the global value is used, whatever the default. */
  lemma GlobalBeforeDefault(args: Items, cls: string, f: DcField, g: Value)
    requires !HasKey(args, cls) && cls != f.name
    ensures FieldValue(Put(args, f.name, g), cls, f) == CheckFunction(g, f.typ)
  {
    PutHasKey(args, f.name, g, cls);
    PutHasKey(args, f.name, g, f.name);
    LookupPut(args, f.name, g, f.name);
  }

  /** With no value anywhere, the default decides, then optionality, then `Bool`. */
  lemma MissingValue(args: Items, cls: string, f: DcField)
    requires !HasKey(args, cls) && !HasKey(args, f.name) && !f.typ.Choice?
    ensures f.default.Some? ==> FieldValue(args, cls, f) == CheckFunction(f.default.value, f.typ)
    ensures f.default.None? && f.factory.Some? ==> FieldValue(args, cls, f) == CheckFunction(f.factory.value, f.typ)
    ensures f.default.None? && f.factory.None? ==>
      FieldValue(args, cls, f) == if IsOptional(f.typ) then Ok(Null)
        else if IsSubstring("Bool", TypeNameOf(f.typ)) then Ok(Bool(false)) else Err(ValueError)
  {
  }

  /** A required `IntArg` that appears nowhere is a ValueError. */
  lemma RequiredIntMissing(cls: string, name: string)
    ensures FieldValue([], cls, DcField(name, Simple("IntArg", "int"), None, None)) == Err(ValueError)
  {
    assert !IsSubstring("Bool", "IntArg") by {
      forall i | 0 <= i <= |"IntArg"| - |"Bool"| ensures !OccursAt("Bool", "IntArg", i) {
        assert "IntArg"[i] != 'B';
      }
    }
  }

  // ---------------------------------------------------------------------------
  // The field loop and the recorded save path

  /** `self.save_path = args.get(key)` for a `SavePathOptArg` field, before its value is computed. */
  function SaveStep(args: Items, f: DcField, sp: Value): Value {
    if f.typ.Simple? && f.typ.name == "SavePathOptArg" then
      (if HasKey(args, f.name) then Lookup(args, f.name).value else Null)
    else sp
  }

  /** `_handle_arguments` over the first fields: the fields dict (or the first
      error) and the save path recorded so far. */
  function HandleFields(args: Items, cls: string, fs: seq<DcField>, sp: Value): (Result<Items>, Value) {
    if fs == [] then (Ok([]), sp)
    else
      var n := |fs| - 1;
      var (p, sp1) := HandleFields(args, cls, fs[..n], sp);
      if p.Err? then (p, sp1)
      else
        var sp2 := SaveStep(args, fs[n], sp1);
        var v := FieldValue(args, cls, fs[n]);
        if v.Err? then (Err(v.exc), sp2) else (Ok(Put(p.value, fs[n].name, v.value)), sp2)
  }

  lemma HandleFieldsSnoc(args: Items, cls: string, fs: seq<DcField>, f: DcField, sp: Value)
    ensures HandleFields(args, cls, fs + [f], sp) ==
      var (p, sp1) := HandleFields(args, cls, fs, sp);
      if p.Err? then (p, sp1)
      else
        var v := FieldValue(args, cls, f);
        if v.Err? then (Err(v.exc), SaveStep(args, f, sp1)) else (Ok(Put(p.value, f.name, v.value)), SaveStep(args, f, sp1))
  {
    assert (fs + [f])[..|fs|] == fs;
  }

  /** The fields are built exactly when every field's value is. */
  lemma {:induction false} HandleFieldsOk(args: Items, cls: string, fs: seq<DcField>, sp: Value)
    ensures HandleFields(args, cls, fs, sp).0.Ok? <==> forall i :: 0 <= i < |fs| ==> FieldValue(args, cls, fs[i]).Ok?
  {
    if fs != [] {
      var n := |fs| - 1;
      HandleFieldsOk(args, cls, fs[..n], sp);
      assert forall i :: 0 <= i < n ==> fs[..n][i] == fs[i];
    }
  }

  /** The keys of the built fields are the field names. */
  lemma {:induction false} HandleFieldsKeys(args: Items, cls: string, fs: seq<DcField>, sp: Value, k: string)
    requires HandleFields(args, cls, fs, sp).0.Ok?
    ensures HasKey(HandleFields(args, cls, fs, sp).0.value, k) <==> exists i :: 0 <= i < |fs| && fs[i].name == k
  {
    if fs != [] {
      var n := |fs| - 1;
      var p := HandleFields(args, cls, fs[..n], sp).0;
      HandleFieldsKeys(args, cls, fs[..n], sp, k);
      PutHasKey(p.value, fs[n].name, FieldValue(args, cls, fs[n]).value, k);
      assert forall i :: 0 <= i < n ==> fs[..n][i] == fs[i];
    }
  }

  /** Field names are distinct. */
  predicate DistinctFields(fs: seq<DcField>) {
    forall i, j :: 0 <= i < j < |fs| ==> fs[i].name != fs[j].name
  }

  /** With distinct names, every field holds the value `FieldValue` gives it. */
  lemma {:induction false} HandleFieldsValues(args: Items, cls: string, fs: seq<DcField>, sp: Value, i: int)
    requires HandleFields(args, cls, fs, sp).0.Ok? && DistinctFields(fs) && 0 <= i < |fs|
    ensures FieldValue(args, cls, fs[i]).Ok?
    ensures Lookup(HandleFields(args, cls, fs, sp).0.value, fs[i].name) == Some(FieldValue(args, cls, fs[i]).value)
  {
    var n := |fs| - 1;
    var p := HandleFields(args, cls, fs[..n], sp).0;
    var v := FieldValue(args, cls, fs[n]);
    assert forall j :: 0 <= j < n ==> fs[..n][j] == fs[j];
    LookupPut(p.value, fs[n].name, v.value, fs[i].name);
    if i < n {
      HandleFieldsValues(args, cls, fs[..n], sp, i);
    }
  }

  /** The recorded save path is that of the last `SavePathOptArg` field, else the one before. */
  lemma {:induction false} HandleFieldsSavePath(args: Items, cls: string, fs: seq<DcField>, sp: Value, i: int)
    requires HandleFields(args, cls, fs, sp).0.Ok? && 0 <= i < |fs|
    requires fs[i].typ == Simple("SavePathOptArg", "str")
    requires forall j :: i < j < |fs| ==> !(fs[j].typ.Simple? && fs[j].typ.name == "SavePathOptArg")
    ensures HandleFields(args, cls, fs, sp).1 == if HasKey(args, fs[i].name) then Lookup(args, fs[i].name).value else Null
  {
    var n := |fs| - 1;
    if i < n {
      HandleFieldsSavePath(args, cls, fs[..n], sp, i);
    }
  }

  /** `save`: the user's path, else the recorded save path, else a ValueError. */
  function SaveTarget(user: Value, recorded: Value): (r: Result<Value>)
    ensures r.Err? <==> user == Null && recorded == Null
    ensures r.Err? ==> r.exc == ValueError
    ensures r.Ok? ==> r.value == if user != Null then user else recorded
  {
    if user != Null then Ok(user) else if recorded != Null then Ok(recorded) else Err(ValueError)
  }

  /** A `SavePathOptArg` value given in the config is where `save` writes when the user gives no path. */
  lemma ConfiguredSavePath(args: Items, cls: string, fs: seq<DcField>, sp: Value, i: int, p: Value)
    requires HandleFields(args, cls, fs, sp).0.Ok? && 0 <= i < |fs|
    requires fs[i].typ == Simple("SavePathOptArg", "str")
    requires forall j :: i < j < |fs| ==> !(fs[j].typ.Simple? && fs[j].typ.name == "SavePathOptArg")
    requires Lookup(args, fs[i].name) == Some(p) && p != Null
    ensures SaveTarget(Null, HandleFields(args, cls, fs, sp).1) == Ok(p)
  {
    HandleFieldsSavePath(args, cls, fs, sp, i);
  }

  // ---------------------------------------------------------------------------
  // The builder object

  class DataClassBuilder {
    const inputClasses: seq<DataClass>
    var savePath: Value

    constructor (inputClasses: seq<DataClass>)
      ensures this.inputClasses == inputClasses && savePath == Null
    {
      this.inputClasses := inputClasses;
      savePath := Null;
    }

    /** `_handle_arguments` (`_handle_basic_arguments` in spock/builder.py). */
    method HandleArguments(args: Items, c: DataClass) returns (r: Result<Items>)
      modifies this
      ensures (r, savePath) == HandleFields(args, c.name, c.fields, old(savePath))
    {
      var fields: Items := [];
      var i := 0;
      while i < |c.fields|
        invariant 0 <= i <= |c.fields|
        invariant HandleFields(args, c.name, c.fields[..i], old(savePath)) == (Ok(fields), savePath)
      {
        var f := c.fields[i];
        HandleFieldsSnoc(args, c.name, c.fields[..i], f, old(savePath));
        assert c.fields[..i + 1] == c.fields[..i] + [f];
        savePath := SaveStep(args, f, savePath);
        var v := FieldValue(args, c.name, f);
        if v.Err? {
          HandleFieldsStops(args, c.name, c.fields, i + 1, old(savePath));
          return Err(v.exc);
        }
        fields := Put(fields, f.name, v.value);
        i := i + 1;
      }
      assert c.fields[..i] == c.fields;
      return Ok(fields);
    }

    /** The path `save` writes to. */
    method SavePath(user: Value) returns (r: Result<Value>)
      ensures r == SaveTarget(user, savePath)
    {
      if user != Null {
        return Ok(user);
      }
      if savePath != Null {
        return Ok(savePath);
      }
      return Err(ValueError);
    }
  }

  /** The constructor's check: every input must be a dataclass. */
  method NewBuilder(inputs: seq<Builder.Input<DataClass>>) returns (r: Result<DataClassBuilder>)
    ensures r.Ok? <==> forall i :: 0 <= i < |inputs| ==> inputs[i].Decorated?
    ensures r.Err? ==> r.exc == TypeError
    ensures r.Ok? ==> fresh(r.value) && r.value.savePath == Null
    ensures r.Ok? ==> |r.value.inputClasses| == |inputs| && forall i :: 0 <= i < |inputs| ==> r.value.inputClasses[i] == inputs[i].c
  {
    var cs := Builder.VerifyInputs(inputs);
    if cs.Err? {
      return Err(cs.exc);
    }
    var b := new DataClassBuilder(cs.value);
    return Ok(b);
  }

  /** Once a prefix fails, the whole field loop gives that prefix's result. */
  lemma {:induction false} HandleFieldsStops(args: Items, cls: string, fs: seq<DcField>, k: int, sp: Value)
    requires 0 <= k <= |fs| && HandleFields(args, cls, fs[..k], sp).0.Err?
    ensures HandleFields(args, cls, fs, sp) == HandleFields(args, cls, fs[..k], sp)
    decreases |fs| - k
  {
    if k < |fs| {
      HandleFieldsSnoc(args, cls, fs[..k], fs[k], sp);
      assert fs[..k + 1] == fs[..k] + [fs[k]];
      HandleFieldsStops(args, cls, fs, k + 1, sp);
    } else {
      assert fs[..k] == fs;
    }
  }
}

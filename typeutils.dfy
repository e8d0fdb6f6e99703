/** The type tables built from spock classes, and the list/tuple normalisation and
    deep merge applied to payloads (spock/backend/utils.py, with the older variant
    in spock/backend/attr/utils.py). */
module TypeUtils {
  import opened Results
  import opened Dicts
  import opened Values
  import opened Types

  /** An entry of a type table: an attribute's `type` metadata (`None` when the
      attribute has none), or a nested table. */
  datatype TypeEntry = Leaf(t: Option<PyType>) | Nested(entries: Dict<TypeEntry>)

  type TypeDict = Dict<TypeEntry>

  /** `cs[i]` is the last class of its name: a later one would replace it in a dict. */
  predicate LastClass(cs: seq<SpockClass>, i: int)
    requires 0 <= i < |cs|
  {
    forall j :: i < j < |cs| ==> cs[j].name != cs[i].name
  }

  function FieldPairs(cs: seq<SpockClass>): (ps: Dict<seq<string>>)
    ensures |ps| == |cs|
    ensures forall i :: 0 <= i < |cs| ==> ps[i] == (cs[i].name, AttrNames(cs[i]))
  {
    seq(|cs|, i requires 0 <= i < |cs| => (cs[i].name, AttrNames(cs[i])))
  }

  /** `get_attr_fields`: a dict from each class name to its attribute names. */
  function AttrFields(cs: seq<SpockClass>): (r: Dict<seq<string>>)
    ensures UniqueKeys(r)
  {
    UpdateUnique([], FieldPairs(cs));
    Update([], FieldPairs(cs))
  }

  /** Each class name maps to its attribute names in declaration order. */
  lemma AttrFieldsLookup(cs: seq<SpockClass>, i: int)
    requires 0 <= i < |cs| && LastClass(cs, i)
    ensures Lookup(AttrFields(cs), cs[i].name) == Some(AttrNames(cs[i]))
  {
    var ps := FieldPairs(cs);
    LookupUpdate([], ps, cs[i].name);
    assert ps[i].0 == cs[i].name;
    assert LastIndex(ps, i) by {
      forall j | i < j < |ps| ensures ps[j].0 != ps[i].0 {
        assert ps[j].0 == cs[j].name;
      }
    }
    LastForLatest(ps, i);
  }

  /** The keys are exactly the class names. */
  lemma AttrFieldsKeys(cs: seq<SpockClass>, k: string)
    ensures HasKey(AttrFields(cs), k) <==> k in ClassNames(cs)
  {
    var ps := FieldPairs(cs);
    UpdateHasKey([], ps, k);
    if k in ClassNames(cs) {
      var i :| 0 <= i < |cs| && ClassNames(cs)[i] == k;
      assert ps[i].0 == k;
    }
    if HasKey(ps, k) {
      var i :| 0 <= i < |ps| && ps[i].0 == k;
      assert ClassNames(cs)[i] == k;
    }
  }

  function AttrTypePairs(c: SpockClass): (ps: TypeDict)
    ensures |ps| == |c.attrs|
    ensures forall j :: 0 <= j < |c.attrs| ==> ps[j] == (c.attrs[j].name, Leaf(c.attrs[j].metaType))
  {
    seq(|c.attrs|, j requires 0 <= j < |c.attrs| => (c.attrs[j].name, Leaf(c.attrs[j].metaType)))
  }

  /** The type table of one class: attribute name to its `type` metadata. */
  function AttrTypes(c: SpockClass): TypeDict {
    Update([], AttrTypePairs(c))
  }

  function ClassTypePairs(cs: seq<SpockClass>): (ps: TypeDict)
    ensures |ps| == |cs|
    ensures forall i :: 0 <= i < |cs| ==> ps[i] == (cs[i].name, Nested(AttrTypes(cs[i])))
  {
    seq(|cs|, i requires 0 <= i < |cs| => (cs[i].name, Nested(AttrTypes(cs[i]))))
  }

  /** The two-level table `get_type_fields` builds: class name, then attribute name. */
  function TypeTable(cs: seq<SpockClass>): (r: TypeDict)
    ensures UniqueKeys(r)
  {
    UpdateUnique([], ClassTypePairs(cs));
    Update([], ClassTypePairs(cs))
  }

  /** The keys of the type table are exactly the class names. */
  lemma TypeTableKeys(cs: seq<SpockClass>, k: string)
    ensures HasKey(TypeTable(cs), k) <==> k in ClassNames(cs)
  {
    var ps := ClassTypePairs(cs);
    UpdateHasKey([], ps, k);
    if k in ClassNames(cs) {
      var i :| 0 <= i < |cs| && ClassNames(cs)[i] == k;
      assert ps[i].0 == k;
    }
    if HasKey(ps, k) {
      var i :| 0 <= i < |ps| && ps[i].0 == k;
      assert ClassNames(cs)[i] == k;
    }
  }

  /** `get_type_fields` */
  method TypeFields(cs: seq<SpockClass>) returns (r: TypeDict)
    ensures r == TypeTable(cs)
  {
    r := [];
    var i := 0;
    while i < |cs|
      invariant 0 <= i <= |cs|
      invariant r == Update([], ClassTypePairs(cs)[..i])
    {
      var c := cs[i];
      var inner: TypeDict := [];
      var j := 0;
      while j < |c.attrs|
        invariant 0 <= j <= |c.attrs|
        invariant inner == Update([], AttrTypePairs(c)[..j])
      {
        var a := c.attrs[j];
        assert AttrTypePairs(c)[..j + 1] == AttrTypePairs(c)[..j] + [(a.name, Leaf(a.metaType))];
        UpdateSnoc([], AttrTypePairs(c)[..j], a.name, Leaf(a.metaType));
        inner := Put(inner, a.name, Leaf(a.metaType));
        j := j + 1;
      }
      assert AttrTypePairs(c)[..j] == AttrTypePairs(c);
      assert ClassTypePairs(cs)[..i + 1] == ClassTypePairs(cs)[..i] + [(c.name, Nested(inner))];
      UpdateSnoc([], ClassTypePairs(cs)[..i], c.name, Nested(inner));
      r := Put(r, c.name, Nested(inner));
      i := i + 1;
    }
    assert ClassTypePairs(cs)[..i] == ClassTypePairs(cs);
  }

  /** Every attribute of the last class of a name is found under that class name
      with its `type` metadata, or `None` when it has none. */
  lemma TypeTableLookup(cs: seq<SpockClass>, i: int, j: int)
    requires 0 <= i < |cs| && LastClass(cs, i)
    requires 0 <= j < |cs[i].attrs|
    requires forall m :: j < m < |cs[i].attrs| ==> cs[i].attrs[m].name != cs[i].attrs[j].name
    ensures Lookup(TypeTable(cs), cs[i].name) == Some(Nested(AttrTypes(cs[i])))
    ensures Lookup(AttrTypes(cs[i]), cs[i].attrs[j].name) == Some(Leaf(cs[i].attrs[j].metaType))
  {
    var ps := ClassTypePairs(cs);
    LookupUpdate([], ps, cs[i].name);
    assert LastIndex(ps, i) by {
      forall m | i < m < |ps| ensures ps[m].0 != ps[i].0 {
        assert ps[m].0 == cs[m].name;
      }
    }
    LastForLatest(ps, i);
    var qs := AttrTypePairs(cs[i]);
    LookupUpdate([], qs, cs[i].attrs[j].name);
    assert LastIndex(qs, j) by {
      forall m | j < m < |qs| ensures qs[m].0 != qs[j].0 {
        assert qs[m].0 == cs[i].attrs[m].name;
      }
    }
    LastForLatest(qs, j);
  }

  /** The leaves of a type table in depth-first order, each with the key it sits under. */
  function Leaves(td: TypeDict): seq<(string, Option<PyType>)> {
    LeavesIn(Nested(td), td)
  }

  function LeavesIn(ghost parent: TypeEntry, td: TypeDict): seq<(string, Option<PyType>)>
    requires forall i :: 0 <= i < |td| ==> td[i].1 < parent
    decreases parent, |td|
  {
    if td == [] then []
    else
      (match td[0].1
       case Leaf(t) => [(td[0].0, t)]
       case Nested(es) => LeavesIn(td[0].1, es))
      + LeavesIn(parent, td[1..])
  }

  /** `d` holds, for every key, the last value `ps` gives it. */
  ghost predicate Agrees(d: Dict<Option<PyType>>, ps: seq<(string, Option<PyType>)>) {
    forall k :: Lookup(d, k) == LastFor(ps, k)
  }

  lemma AgreesPut(d: Dict<Option<PyType>>, ps: seq<(string, Option<PyType>)>, k: string, t: Option<PyType>)
    requires Agrees(d, ps)
    ensures Agrees(Put(d, k, t), ps + [(k, t)])
  {
    forall k' ensures Lookup(Put(d, k, t), k') == LastFor(ps + [(k, t)], k') {
      LookupPut(d, k, t, k');
      LastForAppend(ps, [(k, t)], k');
    }
  }

  lemma AgreesUpdate(d: Dict<Option<PyType>>, ps: seq<(string, Option<PyType>)>,
                     sub: Dict<Option<PyType>>, qs: seq<(string, Option<PyType>)>)
    requires Agrees(d, ps) && Agrees(sub, qs) && UniqueKeys(sub)
    ensures Agrees(Update(d, sub), ps + qs)
  {
    forall k' ensures Lookup(Update(d, sub), k') == LastFor(ps + qs, k') {
      LookupUpdate(d, sub, k');
      UniqueLastFor(sub, k');
      LastForAppend(ps, qs, k');
    }
  }

  /** `flatten_type_dict`: nested tables are lifted to the top level, and a key
      takes the value of its last leaf in depth-first order. */
  method FlattenTypeDict(td: TypeDict) returns (r: Dict<Option<PyType>>)
    ensures UniqueKeys(r)
    ensures forall k :: Lookup(r, k) == LastFor(Leaves(td), k)
    decreases Nested(td)
  {
    r := [];
    ghost var done: seq<(string, Option<PyType>)> := [];
    var i := 0;
    while i < |td|
      invariant 0 <= i <= |td|
      invariant UniqueKeys(r)
      invariant done + LeavesIn(Nested(td), td[i..]) == Leaves(td)
      invariant Agrees(r, done)
      decreases |td| - i
    {
      var k := td[i].0;
      assert td[i..][1..] == td[i + 1..];
      match td[i].1 {
        case Leaf(t) =>
          AgreesPut(r, done, k, t);
          PutUnique(r, k, t);
          r := Put(r, k, t);
          done := done + [(k, t)];
        case Nested(es) =>
          var sub := FlattenTypeDict(es);
          AgreesUpdate(r, done, sub, Leaves(es));
          UpdateUnique(r, sub);
          r := Update(r, sub);
          done := done + Leaves(es);
      }
      i := i + 1;
    }
    assert td[i..] == [];
    assert LeavesIn(Nested(td), td[i..]) == [];
    assert done == Leaves(td);
  }

  /** The list/tuple normalisation is shared by two variants: the current one
      (spock/backend/utils.py) leaves strings naming a class alone and checks the
      length of tuple-typed values; the older one (spock/backend/attr/utils.py)
      does neither, which is `names == []` and `checkLen == false`. */
  predicate Untouched(v: Value, t: PyType, names: seq<string>) {
    !IsGeneric(t) || v.Tuple? || (v.Str? && v.s in names)
  }

  /** `_recursive_list_to_tuple(v, t)`: a list under a generic type has its
      elements converted against the first type argument, and becomes a tuple
      when the type's origin is `tuple`. */
  function ListToTuple(v: Value, t: PyType, names: seq<string>, checkLen: bool): (r: Result<Value>)
    ensures Untouched(v, t, names) ==> r == Ok(v)
    ensures (!Untouched(v, t, names) && checkLen && OriginName(t) == "tuple" && v.List?
             && |v.elems| != |Args(t)|) ==> r == Err(ValueError)
    ensures r.Ok? && v.List? && IsGeneric(t) ==>
              (r.value.List? || r.value.Tuple?) && |r.value.elems| == |v.elems|
              && (r.value.Tuple? <==> OriginName(t) == "tuple")
    ensures r.Ok? && !v.Dict? ==> !r.value.Dict?
    ensures v.Dict? && v.items != [] && IsGeneric(t) ==> r.Err?
    decreases v, 1
  {
    if Untouched(v, t, names) then Ok(v)
    else if checkLen && OriginName(t) == "tuple" && Len(v) != Some(|Args(t)|) then
      if Len(v).None? then Err(TypeError) else Err(ValueError)
    else
      match v
      case List(es) =>
        var es' :- ElemsToTuple(v, es, FirstArg(t), names, checkLen);
        Ok(if OriginName(t) == "tuple" then Tuple(es') else List(es'))
      case Str(s) => StrToTuple(s, t, names, checkLen)
      case Dict(items) =>
        // the first key is converted and stored under the new key `0`, and the
        // iteration over the dict that changed size raises RuntimeError
        if items == [] then Ok(v)
        else if FirstArg(t).None? then Err(IndexError)
        else
          var _ :- StrToTuple(items[0].0, FirstArg(t).value, names, checkLen);
          Err(RuntimeError)
      case _ => Err(TypeError)
  }

  /** `_recursive_list_to_tuple` on a string: it is left as it is, or the
      conversion fails, as storing the converted first character back into the
      string raises TypeError. */
  function StrToTuple(s: string, t: PyType, names: seq<string>, checkLen: bool): (r: Result<Value>)
    ensures r.Ok? ==> r == Ok(Str(s))
    ensures Untouched(Str(s), t, names) ==> r.Ok?
    ensures s != [] && !Untouched(Str(s), t, names) ==> r.Err?
  {
    if Untouched(Str(s), t, names) then Ok(Str(s))
    else if checkLen && OriginName(t) == "tuple" && |s| != |Args(t)| then Err(ValueError)
    else if s == "" then Ok(Str(s))
    else if FirstArg(t).None? then Err(IndexError)
    else if CharToTuple(s[0], FirstArg(t).value, names, checkLen).Fail? then
      Err(CharToTuple(s[0], FirstArg(t).value, names, checkLen).exc)
    else Err(TypeError)
  }

  /** The conversion of a one-character string `[c]` against `t`, which can only
      fail or leave the string as it is. */
  function CharToTuple(c: char, t: PyType, names: seq<string>, checkLen: bool): (r: Outcome)
    ensures r.Pass? <==> Untouched(Str([c]), t, names)
    decreases t
  {
    if Untouched(Str([c]), t, names) then Pass
    else if checkLen && OriginName(t) == "tuple" && |Args(t)| != 1 then Fail(ValueError)
    else if FirstArg(t).None? then Fail(IndexError)
    else if CharToTuple(c, FirstArg(t).value, names, checkLen).Fail? then
      CharToTuple(c, FirstArg(t).value, names, checkLen)
    else Fail(TypeError)
  }

  /** The `for idx, val in enumerate(value)` loop: elements converted in order
      against `a`, the first type argument; the first failure is raised. */
  function ElemsToTuple(ghost parent: Value, es: seq<Value>, a: Option<PyType>,
                        names: seq<string>, checkLen: bool): (r: Result<seq<Value>>)
    requires forall i :: 0 <= i < |es| ==> es[i] < parent
    ensures r.Ok? ==> |r.value| == |es|
    decreases parent, 0, |es|
  {
    if es == [] then Ok([])
    else if a.None? then Err(IndexError)
    else
      var x :- ListToTuple(es[0], a.value, names, checkLen);
      var xs :- ElemsToTuple(parent, es[1..], a, names, checkLen);
      Ok([x] + xs)
  }

  /** A non-empty dict under a generic type whose first argument is a plain
      class passes its first key and then raises RuntimeError. */
  lemma DictRuntimeError(items: Items, t: PyType, names: seq<string>, checkLen: bool)
    requires items != [] && IsGeneric(t) && FirstArg(t).Some? && !IsGeneric(FirstArg(t).value)
    requires !(checkLen && OriginName(t) == "tuple" && |items| != |Args(t)|)
    ensures ListToTuple(Dict(items), t, names, checkLen) == Err(RuntimeError)
  {
  }

  /** An element `{"a": 1}` of a value typed `List[Dict[str, int]]`: the
      conversion of the dict's first key succeeds, and the iteration over the
      dict it then grows raises RuntimeError. */
  lemma DictElementRuntimeError(names: seq<string>, checkLen: bool)
    ensures ListToTuple(List([Dict([("a", Int(1))])]), ListOf(DictOf(Prim("str"), Prim("int"))), names, checkLen)
            == Err(RuntimeError)
  {
  }

  /** A successful conversion is final: converting its result again changes
      nothing (a payload composed from several files is converted more than once). */
  lemma {:induction false} ListToTupleIdempotent(v: Value, t: PyType, names: seq<string>, checkLen: bool)
    requires ListToTuple(v, t, names, checkLen).Ok?
    ensures ListToTuple(ListToTuple(v, t, names, checkLen).value, t, names, checkLen)
            == ListToTuple(v, t, names, checkLen)
    decreases v, 1
  {
    var w := ListToTuple(v, t, names, checkLen).value;
    if !Untouched(v, t, names) && v.List? {
      var es' := ElemsToTuple(v, v.elems, FirstArg(t), names, checkLen).value;
      if OriginName(t) != "tuple" {
        assert w == List(es');
        ElemsIdempotent(v, v.elems, w, es', FirstArg(t), names, checkLen);
      }
    }
  }

  lemma {:induction false} ElemsIdempotent(parent: Value, es: seq<Value>, parent': Value,
                                           es': seq<Value>, a: Option<PyType>, names: seq<string>, checkLen: bool)
    requires forall i :: 0 <= i < |es| ==> es[i] < parent
    requires forall i :: 0 <= i < |es'| ==> es'[i] < parent'
    requires ElemsToTuple(parent, es, a, names, checkLen) == Ok(es')
    ensures ElemsToTuple(parent', es', a, names, checkLen) == Ok(es')
    decreases parent, 0, |es|
  {
    if es != [] {
      ListToTupleIdempotent(es[0], a.value, names, checkLen);
      ElemsIdempotent(parent, es[1..], parent', es'[1..], a, names, checkLen);
      assert es' == [es'[0]] + es'[1..];
    }
  }

  /** The older variant never raises the tuple-length error. */
  lemma {:induction false} LegacyNoLengthError(v: Value, t: PyType)
    ensures ListToTuple(v, t, [], false) != Err(ValueError)
    decreases v, 1
  {
    if !Untouched(v, t, []) {
      match v
      case List(es) => ElemsNoLengthError(v, es, FirstArg(t));
      case Str(s) => StrNoLengthError(s, t);
      case Dict(items) =>
        if items != [] && FirstArg(t).Some? {
          StrNoLengthError(items[0].0, FirstArg(t).value);
        }
      case _ =>
    }
  }

  lemma StrNoLengthError(s: string, t: PyType)
    ensures StrToTuple(s, t, [], false) != Err(ValueError)
  {
    if !Untouched(Str(s), t, []) && s != "" && FirstArg(t).Some? {
      CharNoLengthError(s[0], FirstArg(t).value);
    }
  }

  lemma {:induction false} CharNoLengthError(c: char, t: PyType)
    ensures CharToTuple(c, t, [], false) != Fail(ValueError)
    decreases t
  {
    if !Untouched(Str([c]), t, []) && FirstArg(t).Some? {
      CharNoLengthError(c, FirstArg(t).value);
    }
  }

  lemma {:induction false} ElemsNoLengthError(parent: Value, es: seq<Value>, a: Option<PyType>)
    requires forall i :: 0 <= i < |es| ==> es[i] < parent
    ensures ElemsToTuple(parent, es, a, [], false) != Err(ValueError)
    decreases parent, 0, |es|
  {
    if es != [] && a.Some? {
      LegacyNoLengthError(es[0], a.value);
      ElemsNoLengthError(parent, es[1..], a);
    }
  }

  /** `r` is `out` followed by the elements of `rest`, or the failure of `rest`. */
  function Prepend(out: seq<Value>, rest: Result<seq<Value>>): Result<seq<Value>> {
    match rest
    case Ok(xs) => Ok(out + xs)
    case Err(e) => Err(e)
  }

  lemma PrependNil(rest: Result<seq<Value>>)
    ensures Prepend([], rest) == rest
  {
    if rest.Ok? {
      assert [] + rest.value == rest.value;
    }
  }

  lemma PrependStep(out: seq<Value>, x: Value, rest: Result<seq<Value>>)
    ensures Prepend(out, Prepend([x], rest)) == Prepend(out + [x], rest)
  {
    if rest.Ok? {
      assert out + ([x] + rest.value) == (out + [x]) + rest.value;
    }
  }

  lemma ElemsStep(parent: Value, es: seq<Value>, i: int, a: Option<PyType>, names: seq<string>, checkLen: bool)
    requires forall j :: 0 <= j < |es| ==> es[j] < parent
    requires 0 <= i < |es| && a.Some?
    ensures ElemsToTuple(parent, es[i..], a, names, checkLen)
            == match ListToTuple(es[i], a.value, names, checkLen)
               case Ok(x) => Prepend([x], ElemsToTuple(parent, es[i + 1..], a, names, checkLen))
               case Err(e) => Err(e)
  {
    assert es[i..][1..] == es[i + 1..];
    assert es[i..][0] == es[i];
  }

  /** `_recursive_list_to_tuple`, rewriting the elements one by one as the source
      does in place. A string or a dict gets through one turn of the loop: its
      first character or key is converted, and storing it back fails. */
  method RecursiveListToTuple(v: Value, t: PyType, names: seq<string>, checkLen: bool) returns (r: Result<Value>)
    ensures r == ListToTuple(v, t, names, checkLen)
    decreases v, 1
  {
    if Untouched(v, t, names) {
      return Ok(v);
    }
    if checkLen && OriginName(t) == "tuple" && Len(v) != Some(|Args(t)|) {
      return if Len(v).None? then Err(TypeError) else Err(ValueError);
    }
    match v {
      case List(_) =>
      case Str(s) =>
        if s == "" {
          return Ok(v);
        }
        if FirstArg(t).None? {
          return Err(IndexError);
        }
        // the first character is converted; storing it back into the string raises TypeError
        var c := CharToTuple(s[0], FirstArg(t).value, names, checkLen);
        return if c.Fail? then Err(c.exc) else Err(TypeError);
      case Dict(items) =>
        if items == [] {
          return Ok(v);
        }
        if FirstArg(t).None? {
          return Err(IndexError);
        }
        // the first key is converted and stored under the new key `0`; the next
        // step of the iteration over the grown dict raises RuntimeError
        var k := StrToTuple(items[0].0, FirstArg(t).value, names, checkLen);
        return if k.Err? then Err(k.exc) else Err(RuntimeError);
      case _ =>
        return Err(TypeError);
    }
    var es := ConvertElems(v, v.elems, FirstArg(t), names, checkLen);
    if es.Err? {
      return Err(es.exc);
    }
    return Ok(if OriginName(t) == "tuple" then Tuple(es.value) else List(es.value));
  }

  /** The element loop of `_recursive_list_to_tuple`. */
  method ConvertElems(ghost parent: Value, es: seq<Value>, a: Option<PyType>, names: seq<string>, checkLen: bool)
    returns (r: Result<seq<Value>>)
    requires forall i :: 0 <= i < |es| ==> es[i] < parent
    ensures r == ElemsToTuple(parent, es, a, names, checkLen)
    decreases parent, 0
  {
    var out: seq<Value> := [];
    var i := 0;
    assert es[0..] == es;
    PrependNil(ElemsToTuple(parent, es, a, names, checkLen));
    while i < |es|
      invariant 0 <= i <= |es|
      invariant ElemsToTuple(parent, es, a, names, checkLen)
                == Prepend(out, ElemsToTuple(parent, es[i..], a, names, checkLen))
      decreases |es| - i
    {
      if a.None? {
        assert es[i..] != [];
        return Err(IndexError);
      }
      var x := RecursiveListToTuple(es[i], a.value, names, checkLen);
      ElemsStep(parent, es, i, a, names, checkLen);
      if x.Err? {
        return Err(x.exc);
      }
      PrependStep(out, x.value, ElemsToTuple(parent, es[i + 1..], a, names, checkLen));
      out := out + [x.value];
      i := i + 1;
    }
    assert es[i..] == [];
    assert out + [] == out;
    return Ok(out);
  }

  /** No value of `d` is an empty dict. */
  predicate NoEmptyDicts(d: Items) {
    forall j :: 0 <= j < |d| ==> d[j].1 != Dict([])
  }

  lemma {:induction false} PutNoEmpty(d: Items, k: string, x: Value)
    requires NoEmptyDicts(d) && x != Dict([])
    ensures NoEmptyDicts(Put(d, k, x))
  {
    if d != [] && d[0].0 != k {
      PutNoEmpty(d[1..], k, x);
      var r := Put(d, k, x);
      forall j | 0 <= j < |r| ensures r[j].1 != Dict([]) {
        if j > 0 { assert r[j] == Put(d[1..], k, x)[j - 1]; }
      }
    } else if d != [] {
      var r := Put(d, k, x);
      forall j | 0 <= j < |r| ensures r[j].1 != Dict([]) {
        if j > 0 { assert r[j] == d[j]; }
      }
    }
  }

  /** What a conversion may add to its output keeps the two properties the
      source promises: no `config` key, and no empty dict. */
  predicate Tidy(d: Items) {
    !HasKey(d, "config") && NoEmptyDicts(d)
  }

  lemma PutClean(d: Items, k: string, x: Value)
    ensures Tidy(d) && k != "config" && x != Dict([]) ==> Tidy(Put(d, k, x))
  {
    if Tidy(d) && k != "config" && x != Dict([]) {
      PutHasKey(d, k, x, "config");
      PutNoEmpty(d, k, x);
    }
  }

  /** `convert_to_tuples(input, named)`: the `config` key is skipped; a dict value
      is converted against the table under its key and kept only when the result
      is not empty; in the current variant each element of a list under a class
      name is converted likewise; any other value is normalised against its
      flattened type, and left out when that type is `None`. When the type table
      is missing, `flatten_type_dict` calls `.items()` on what stands in its place:
      on `None` or most types that is an AttributeError, and on `dict` or a
      subscripted `Dict` the unbound `dict.items` is called without its argument,
      a TypeError. A key absent from the flattened table raises KeyError. */
  function Convert(input: Value, named: Option<TypeEntry>, names: seq<string>, checkLen: bool): (r: Result<Items>)
    ensures r.Ok? ==> Tidy(r.value)
    ensures !(named.Some? && named.value.Nested?) ==> r == Err(NotATableError(named))
    ensures named.Some? && named.value.Nested? && !input.Dict? ==> r == Err(AttributeError)
    decreases input, 2
  {
    if !(named.Some? && named.value.Nested?) then Err(NotATableError(named))
    else if !input.Dict? then Err(AttributeError)
    else ConvertEntries(input, input.items, named.value.entries, names, checkLen, [])
  }

  /** Whether `t.items` is the unbound `dict.items`: for `dict` itself, and for a
      subscripted generic, whose attributes are those of its origin. */
  predicate ItemsIsUnbound(t: PyType) {
    t == Prim("dict") || (IsGeneric(t) && OriginName(t) == "dict")
  }

  /** The error of `flatten_type_dict` applied to something other than a type
      table: absent (`None`) or a type. */
  function NotATableError(named: Option<TypeEntry>): (e: Exc)
    ensures e == TypeError <==> named.Some? && named.value.Leaf? && named.value.t.Some? && ItemsIsUnbound(named.value.t.value)
    ensures e == TypeError || e == AttributeError
  {
    if named.Some? && named.value.Leaf? && named.value.t.Some? && ItemsIsUnbound(named.value.t.value) then TypeError
    else AttributeError
  }

  /** A class dict whose key is typed `Dict[str, int]`, converted against that
      type, fails with TypeError; without a type it is an AttributeError. */
  lemma ConvertDictTyped(input: Value, names: seq<string>, checkLen: bool)
    ensures Convert(input, Some(Leaf(Some(DictOf(Prim("str"), Prim("int"))))), names, checkLen) == Err(TypeError)
    ensures Convert(input, Some(Leaf(None)), names, checkLen) == Err(AttributeError)
    ensures Convert(input, None, names, checkLen) == Err(AttributeError)
  {
  }

  function ConvertEntries(ghost parent: Value, items: Items, td: TypeDict, names: seq<string>,
                          checkLen: bool, acc: Items): (r: Result<Items>)
    requires forall i :: 0 <= i < |items| ==> items[i].1 < parent
    ensures r.Ok? && Tidy(acc) ==> Tidy(r.value)
    decreases parent, 1, |items|
  {
    if items == [] then Ok(acc)
    else
      var k := items[0].0;
      var v := items[0].1;
      if k == "config" then ConvertEntries(parent, items[1..], td, names, checkLen, acc)
      else if v.Dict? then
        var u :- Convert(v, Lookup(td, k), names, checkLen);
        if u != [] then
          PutClean(acc, k, Dict(u));
          ConvertEntries(parent, items[1..], td, names, checkLen, Put(acc, k, Dict(u)))
        else ConvertEntries(parent, items[1..], td, names, checkLen, acc)
      else if v.List? && k in names then
        var acc' :- ConvertRepeated(v, k, v.elems, Lookup(td, k), names, checkLen, acc);
        ConvertEntries(parent, items[1..], td, names, checkLen, acc')
      else
        var ft := LastFor(Leaves(td), k);
        if ft.None? then Err(KeyError)
        else if ft.value.None? then ConvertEntries(parent, items[1..], td, names, checkLen, acc)
        else
          var u :- ListToTuple(v, ft.value.value, names, checkLen);
          PutClean(acc, k, u);
          ConvertEntries(parent, items[1..], td, names, checkLen, Put(acc, k, u))
  }

  /** The loop over the entries of a repeated class: each converted entry that is
      not empty replaces the previous one under `k`. */
  function ConvertRepeated(ghost parent: Value, k: string, es: seq<Value>, named: Option<TypeEntry>,
                           names: seq<string>, checkLen: bool, acc: Items): (r: Result<Items>)
    requires forall i :: 0 <= i < |es| ==> es[i] < parent
    requires k != "config"
    ensures r.Ok? && Tidy(acc) ==> Tidy(r.value)
    decreases parent, 0, |es|
  {
    if es == [] then Ok(acc)
    else
      var u :- Convert(es[0], named, names, checkLen);
      if u != [] then
        PutClean(acc, k, Dict(u));
        ConvertRepeated(parent, k, es[1..], named, names, checkLen, Put(acc, k, Dict(u)))
      else ConvertRepeated(parent, k, es[1..], named, names, checkLen, acc)
  }

  /** The conversion of `v` succeeds with a non-empty dict. */
  predicate NonEmptyConversion(v: Value, named: Option<TypeEntry>, names: seq<string>, checkLen: bool) {
    Convert(v, named, names, checkLen).Ok? && Convert(v, named, names, checkLen).value != []
  }

  /** The conversion of the last element of `es` that converts to a non-empty dict. */
  function LastNonEmpty(es: seq<Value>, named: Option<TypeEntry>, names: seq<string>, checkLen: bool): (r: Option<Items>)
    ensures r.Some? ==> exists i :: 0 <= i < |es| && Convert(es[i], named, names, checkLen) == Ok(r.value) && r.value != []
                          && forall j :: i < j < |es| ==> !NonEmptyConversion(es[j], named, names, checkLen)
    ensures r.None? ==> forall i :: 0 <= i < |es| ==> !NonEmptyConversion(es[i], named, names, checkLen)
    decreases |es|
  {
    if es == [] then None
    else
      var rest := LastNonEmpty(es[1..], named, names, checkLen);
      assert forall j :: 1 <= j < |es| ==> es[1..][j - 1] == es[j];
      if rest.Some? then
        var i :| 0 <= i < |es[1..]| && Convert(es[1..][i], named, names, checkLen) == Ok(rest.value) && rest.value != []
                 && forall j :: i < j < |es[1..]| ==> !NonEmptyConversion(es[1..][j], named, names, checkLen);
        assert Convert(es[i + 1], named, names, checkLen) == Ok(rest.value);
        rest
      else if NonEmptyConversion(es[0], named, names, checkLen) then
        Some(Convert(es[0], named, names, checkLen).value)
      else None
  }

  /** What the entry `(k, v)` leaves under `k` in the output, given what was there
      before: a nested dict's non-empty conversion, a repeated class's last
      non-empty conversion, or a typed value converted against its type. */
  function EntryValue(k: string, v: Value, td: TypeDict, names: seq<string>, checkLen: bool,
                      before: Option<Value>): Option<Value>
  {
    if v.Dict? then
      if NonEmptyConversion(v, Lookup(td, k), names, checkLen)
      then Some(Dict(Convert(v, Lookup(td, k), names, checkLen).value)) else before
    else if v.List? && k in names then
      match LastNonEmpty(v.elems, Lookup(td, k), names, checkLen)
      case Some(u) => Some(Dict(u))
      case None => before
    else
      var ft := LastFor(Leaves(td), k);
      if ft.Some? && ft.value.Some? && ListToTuple(v, ft.value.value, names, checkLen).Ok?
      then Some(ListToTuple(v, ft.value.value, names, checkLen).value) else before
  }

  /** The loop over a repeated class's entries leaves under `k` its last non-empty
      conversion, and touches no other key. */
  lemma {:induction false} RepeatedLookup(parent: Value, k: string, es: seq<Value>, named: Option<TypeEntry>,
                                          names: seq<string>, checkLen: bool, acc: Items, k': string)
    requires forall i :: 0 <= i < |es| ==> es[i] < parent
    requires k != "config"
    requires ConvertRepeated(parent, k, es, named, names, checkLen, acc).Ok?
    ensures Lookup(ConvertRepeated(parent, k, es, named, names, checkLen, acc).value, k')
            == if k' != k then Lookup(acc, k')
               else match LastNonEmpty(es, named, names, checkLen)
                    case Some(u) => Some(Dict(u))
                    case None => Lookup(acc, k')
    decreases |es|
  {
    if es != [] {
      var u := Convert(es[0], named, names, checkLen).value;
      var acc' := if u != [] then Put(acc, k, Dict(u)) else acc;
      assert ConvertRepeated(parent, k, es, named, names, checkLen, acc)
             == ConvertRepeated(parent, k, es[1..], named, names, checkLen, acc');
      RepeatedLookup(parent, k, es[1..], named, names, checkLen, acc', k');
      LookupPut(acc, k, Dict(u), k');
    }
  }

  /** The loop over the entries of a dict with distinct keys: every key other than
      `config` ends up with what its entry leaves there; every other key keeps its
      value in `acc`. */
  lemma {:induction false} EntriesLookup(parent: Value, items: Items, td: TypeDict, names: seq<string>,
                                         checkLen: bool, acc: Items, k: string)
    requires forall i :: 0 <= i < |items| ==> items[i].1 < parent
    requires UniqueKeys(items)
    requires ConvertEntries(parent, items, td, names, checkLen, acc).Ok?
    ensures Lookup(ConvertEntries(parent, items, td, names, checkLen, acc).value, k)
            == if k != "config" && HasKey(items, k)
               then EntryValue(k, Lookup(items, k).value, td, names, checkLen, Lookup(acc, k))
               else Lookup(acc, k)
    decreases |items|
  {
    if items != [] {
      var rest := items[1..];
      assert forall i :: 0 <= i < |rest| ==> rest[i] == items[i + 1];
      assert UniqueKeys(rest);
      assert !HasKey(rest, items[0].0);
      HasKeyCons(items, k);
      var acc' := EntriesRest(parent, items, td, names, checkLen, acc, k);
      EntriesLookup(parent, rest, td, names, checkLen, acc', k);
    }
  }

  /** A successful loop passed every entry: a nested dict converted, and a value
      that is neither a dict nor a repeated class has a type entry and, when
      that type is not `None`, converted against it. */
  lemma {:induction false} EntryOk(parent: Value, items: Items, td: TypeDict, names: seq<string>,
                                   checkLen: bool, acc: Items, i: int)
    requires forall j :: 0 <= j < |items| ==> items[j].1 < parent
    requires 0 <= i < |items| && items[i].0 != "config"
    requires ConvertEntries(parent, items, td, names, checkLen, acc).Ok?
    ensures items[i].1.Dict? ==> Convert(items[i].1, Lookup(td, items[i].0), names, checkLen).Ok?
    ensures !items[i].1.Dict? && !(items[i].1.List? && items[i].0 in names) ==>
              var ft := LastFor(Leaves(td), items[i].0);
              ft.Some? && (ft.value.Some? ==> ListToTuple(items[i].1, ft.value.value, names, checkLen).Ok?)
    decreases |items|
  {
    if i > 0 {
      var acc' := EntriesRest(parent, items, td, names, checkLen, acc, items[0].0);
      assert forall j :: 0 <= j < |items[1..]| ==> items[1..][j] == items[j + 1];
      EntryOk(parent, items[1..], td, names, checkLen, acc', i - 1);
    }
  }

  /** A successful loop over a non-empty dict continues, after its first entry,
      from some output. */
  lemma EntriesRest(parent: Value, items: Items, td: TypeDict, names: seq<string>,
                    checkLen: bool, acc: Items, k: string) returns (acc': Items)
    requires forall j :: 0 <= j < |items| ==> items[j].1 < parent
    requires items != []
    requires ConvertEntries(parent, items, td, names, checkLen, acc).Ok?
    ensures ConvertEntries(parent, items, td, names, checkLen, acc)
            == ConvertEntries(parent, items[1..], td, names, checkLen, acc')
    ensures Lookup(acc', k) == if k == items[0].0 && k != "config"
                               then EntryValue(k, items[0].1, td, names, checkLen, Lookup(acc, k))
                               else Lookup(acc, k)
  {
    var k0 := items[0].0;
    var v := items[0].1;
    if k0 == "config" {
      acc' := acc;
    } else if v.Dict? {
      var u := Convert(v, Lookup(td, k0), names, checkLen).value;
      acc' := if u != [] then Put(acc, k0, Dict(u)) else acc;
      LookupPut(acc, k0, Dict(u), k);
    } else if v.List? && k0 in names {
      acc' := ConvertRepeated(v, k0, v.elems, Lookup(td, k0), names, checkLen, acc).value;
      RepeatedLookup(v, k0, v.elems, Lookup(td, k0), names, checkLen, acc, k);
    } else if LastFor(Leaves(td), k0).value.None? {
      acc' := acc;
    } else {
      var u := ListToTuple(v, LastFor(Leaves(td), k0).value.value, names, checkLen).value;
      acc' := Put(acc, k0, u);
      LookupPut(acc, k0, u, k);
    }
  }

  /** `convert_to_tuples` on a dict (whose keys are distinct), key by key: a
      nested dict maps to its conversion when that is not empty, a repeated
      class to the conversion of its last element that is not empty, a typed
      value to its list-to-tuple conversion; a value typed `None` and a `config`
      key are dropped, and no other key appears. A value with no type at all
      makes the conversion fail. */
  lemma ConvertLookup(input: Value, named: Option<TypeEntry>, names: seq<string>, checkLen: bool, k: string)
    requires input.Dict? && named.Some? && named.value.Nested? && UniqueKeys(input.items)
    requires Convert(input, named, names, checkLen).Ok?
    ensures var r := Convert(input, named, names, checkLen).value;
            var td := named.value.entries;
            (HasKey(r, k) ==> HasKey(input.items, k) && k != "config")
            && (HasKey(input.items, k) && k != "config" ==>
                  var v := Lookup(input.items, k).value;
                  (v.Dict? ==> Lookup(r, k) == (if NonEmptyConversion(v, Lookup(td, k), names, checkLen)
                                              then Some(Dict(Convert(v, Lookup(td, k), names, checkLen).value)) else None))
                  && (v.List? && k in names ==>
                        Lookup(r, k) == match LastNonEmpty(v.elems, Lookup(td, k), names, checkLen)
                                        case Some(u) => Some(Dict(u))
                                        case None => None)
                  && (!v.Dict? && !(v.List? && k in names) ==>
                        HasKey(Leaves(td), k)
                        && (LastFor(Leaves(td), k).value.None? ==> Lookup(r, k).None?)
                        && (LastFor(Leaves(td), k).value.Some? ==>
                              ListToTuple(v, LastFor(Leaves(td), k).value.value, names, checkLen).Ok?
                              && Lookup(r, k) == Some(ListToTuple(v, LastFor(Leaves(td), k).value.value, names, checkLen).value))))
  {
    var td := named.value.entries;
    EntriesLookup(input, input.items, td, names, checkLen, [], k);
    if HasKey(input.items, k) && k != "config" {
      var v := Lookup(input.items, k).value;
      var i :| 0 <= i < |input.items| && input.items[i] == (k, v);
      EntryOk(input, input.items, td, names, checkLen, [], i);
    }
  }

  /** `all_typed_dict[k]` of a key with no type entry raises KeyError: a first
      entry that is neither a dict nor a repeated class and has no type fails
      the whole conversion. */
  lemma ConvertUntypedKeyError(input: Value, named: Option<TypeEntry>, names: seq<string>, checkLen: bool)
    requires input.Dict? && named.Some? && named.value.Nested? && input.items != []
    requires input.items[0].0 != "config" && !input.items[0].1.Dict?
    requires !(input.items[0].1.List? && input.items[0].0 in names)
    requires !HasKey(Leaves(named.value.entries), input.items[0].0)
    ensures Convert(input, named, names, checkLen) == Err(KeyError)
  {
  }

  /** `convert_to_tuples`, building the output dict in a loop. */
  method ConvertToTuples(input: Value, named: Option<TypeEntry>, names: seq<string>, checkLen: bool)
    returns (r: Result<Items>)
    ensures r == Convert(input, named, names, checkLen)
    decreases input, 2
  {
    if !(named.Some? && named.value.Nested?) {
      return Err(NotATableError(named));
    }
    if !input.Dict? {
      return Err(AttributeError);
    }
    var td := named.value.entries;
    var flat := FlattenTypeDict(td);
    var items := input.items;
    var out: Items := [];
    var i := 0;
    assert items[0..] == items;
    while i < |items|
      invariant 0 <= i <= |items|
      invariant Convert(input, named, names, checkLen) == ConvertEntries(input, items[i..], td, names, checkLen, out)
      decreases |items| - i
    {
      var k := items[i].0;
      var v := items[i].1;
      assert items[i..][0] == items[i] && items[i..][1..] == items[i + 1..];
      assert v < input;
      if k == "config" {
      } else if v.Dict? {
        var u := ConvertToTuples(v, Lookup(td, k), names, checkLen);
        if u.Err? {
          return Err(u.exc);
        }
        if u.value != [] {
          out := Put(out, k, Dict(u.value));
        }
      } else if v.List? && k in names {
        var o := RepeatedToTuples(v, k, v.elems, Lookup(td, k), names, checkLen, out);
        if o.Err? {
          return Err(o.exc);
        }
        out := o.value;
      } else {
        var ft := Lookup(flat, k);
        if ft.None? {
          return Err(KeyError);
        }
        if ft.value.Some? {
          var u := RecursiveListToTuple(v, ft.value.value, names, checkLen);
          if u.Err? {
            return Err(u.exc);
          }
          out := Put(out, k, u.value);
        }
      }
      i := i + 1;
    }
    assert items[i..] == [];
    return Ok(out);
  }

  /** The loop over the entries of a repeated class in `convert_to_tuples`. */
  method RepeatedToTuples(ghost parent: Value, k: string, es: seq<Value>, named: Option<TypeEntry>,
                          names: seq<string>, checkLen: bool, acc: Items) returns (r: Result<Items>)
    requires forall i :: 0 <= i < |es| ==> es[i] < parent
    requires k != "config"
    ensures r == ConvertRepeated(parent, k, es, named, names, checkLen, acc)
    decreases parent, 1
  {
    var out := acc;
    var j := 0;
    assert es[0..] == es;
    while j < |es|
      invariant 0 <= j <= |es|
      invariant ConvertRepeated(parent, k, es, named, names, checkLen, acc)
                == ConvertRepeated(parent, k, es[j..], named, names, checkLen, out)
      decreases |es| - j
    {
      assert es[j..][0] == es[j] && es[j..][1..] == es[j + 1..];
      var u := ConvertToTuples(es[j], named, names, checkLen);
      if u.Err? {
        return Err(u.exc);
      }
      if u.value != [] {
        out := Put(out, k, Dict(u.value));
      }
      j := j + 1;
    }
    assert es[j..] == [];
    return Ok(out);
  }

  /** `source.get(k)`, with Python's `None` for a missing key. */
  function GetOrNull(d: Items, k: string): Value {
    match Lookup(d, k)
    case Some(x) => x
    case None => Null
  }

  /** `deep_update(source, updates)`: a non-empty dict update merges into what
      `source` holds under its key; any other update value replaces it. Indexing
      a value that is not a dict fails: `.get` with AttributeError, assignment
      with TypeError. */
  function DeepMerge(source: Value, updates: Items): (r: Result<Value>)
    ensures updates == [] ==> r == Ok(source)
    ensures updates != [] && !source.Dict? ==> r.Err?
    ensures r.Ok? && updates != [] ==> r.value.Dict? && r.value.items != []
  {
    MergeIn(Dict(updates), source, updates)
  }

  /** The merge of `updates` into `source`; `parent` holds the updates and bounds
      the recursion. */
  function MergeIn(parent: Value, source: Value, updates: Items): (r: Result<Value>)
    requires forall i :: 0 <= i < |updates| ==> updates[i].1 < parent
    ensures updates == [] ==> r == Ok(source)
    ensures updates != [] && !source.Dict? ==> r.Err?
    ensures r.Ok? && updates != [] ==> r.value.Dict? && r.value.items != []
    decreases parent, |updates|
  {
    if updates == [] then Ok(source)
    else
      var k := updates[0].0;
      var v := updates[0].1;
      if v.Dict? && v.items != [] then
        if !source.Dict? then Err(AttributeError)
        else
          var w :- MergeIn(v, GetOrNull(source.items, k), v.items);
          MergeIn(parent, if Truthy(w) then Dict(Put(source.items, k, w)) else source, updates[1..])
      else if !source.Dict? then Err(TypeError)
      else MergeIn(parent, Dict(Put(source.items, k, v)), updates[1..])
  }

  /** Keys that `updates` does not mention keep their value. */
  lemma {:induction false} MergeKeeps(parent: Value, source: Value, updates: Items, k: string)
    requires forall i :: 0 <= i < |updates| ==> updates[i].1 < parent
    requires source.Dict? && MergeIn(parent, source, updates).Ok? && !HasKey(updates, k)
    ensures Lookup(MergeIn(parent, source, updates).value.items, k) == Lookup(source.items, k)
    decreases |updates|
  {
    if updates != [] {
      HasKeyCons(updates, k);
      var k0 := updates[0].0;
      var v := updates[0].1;
      if v.Dict? && v.items != [] {
        var w := MergeIn(v, GetOrNull(source.items, k0), v.items).value;
        LookupPut(source.items, k0, w, k);
        MergeKeeps(parent, if Truthy(w) then Dict(Put(source.items, k0, w)) else source, updates[1..], k);
      } else {
        LookupPut(source.items, k0, v, k);
        MergeKeeps(parent, Dict(Put(source.items, k0, v)), updates[1..], k);
      }
    }
  }

  lemma UniqueTail<V>(d: Dict<V>)
    requires UniqueKeys(d) && d != []
    ensures UniqueKeys(d[1..]) && !HasKey(d[1..], d[0].0)
  {
    forall i, j | 0 <= i < j < |d[1..]| ensures d[1..][i].0 != d[1..][j].0 {
      assert d[1..][i] == d[i + 1] && d[1..][j] == d[j + 1];
    }
    forall m | 0 <= m < |d[1..]| ensures d[1..][m].0 != d[0].0 {
      assert d[1..][m] == d[m + 1];
    }
  }

  /** An update value that is not a non-empty dict replaces the old value. */
  lemma {:induction false} MergeReplaces(parent: Value, source: Value, updates: Items, i: int)
    requires forall j :: 0 <= j < |updates| ==> updates[j].1 < parent
    requires UniqueKeys(updates) && 0 <= i < |updates|
    requires source.Dict? && MergeIn(parent, source, updates).Ok?
    requires !(updates[i].1.Dict? && updates[i].1.items != [])
    ensures Lookup(MergeIn(parent, source, updates).value.items, updates[i].0) == Some(updates[i].1)
    decreases |updates|
  {
    UniqueTail(updates);
    var k0 := updates[0].0;
    var v := updates[0].1;
    var next := if v.Dict? && v.items != [] then
                  var w := MergeIn(v, GetOrNull(source.items, k0), v.items).value;
                  if Truthy(w) then Dict(Put(source.items, k0, w)) else source
                else Dict(Put(source.items, k0, v));
    assert MergeIn(parent, source, updates) == MergeIn(parent, next, updates[1..]);
    if i == 0 {
      LookupPut(source.items, k0, v, k0);
      MergeKeeps(parent, next, updates[1..], k0);
    } else {
      assert updates[1..][i - 1] == updates[i];
      MergeReplaces(parent, next, updates[1..], i - 1);
    }
  }

  /** A non-empty dict update value is merged, recursively, into the old value. */
  lemma {:induction false} MergeMerges(parent: Value, source: Value, updates: Items, i: int)
    requires forall j :: 0 <= j < |updates| ==> updates[j].1 < parent
    requires UniqueKeys(updates) && 0 <= i < |updates|
    requires source.Dict? && MergeIn(parent, source, updates).Ok?
    requires updates[i].1.Dict? && updates[i].1.items != []
    ensures DeepMerge(GetOrNull(source.items, updates[i].0), updates[i].1.items).Ok?
    ensures Lookup(MergeIn(parent, source, updates).value.items, updates[i].0)
            == Some(DeepMerge(GetOrNull(source.items, updates[i].0), updates[i].1.items).value)
    decreases |updates|, 1
  {
    if i == 0 {
      MergeMergesHead(parent, source, updates);
    } else {
      UniqueTail(updates);
      var k0 := updates[0].0;
      var v := updates[0].1;
      var next := if v.Dict? && v.items != [] then
                    var w := MergeIn(v, GetOrNull(source.items, k0), v.items).value;
                    if Truthy(w) then Dict(Put(source.items, k0, w)) else source
                  else Dict(Put(source.items, k0, v));
      assert MergeIn(parent, source, updates) == MergeIn(parent, next, updates[1..]);
      var k := updates[i].0;
      assert updates[1..][i - 1] == updates[i];
      assert k != k0;
      if v.Dict? && v.items != [] {
        var w := MergeIn(v, GetOrNull(source.items, k0), v.items).value;
        LookupPut(source.items, k0, w, k);
      } else {
        LookupPut(source.items, k0, v, k);
      }
      MergeMergesTail(parent, source, next, updates, i);
    }
  }

  /** A later update, once the first one has been applied to give `next`. */
  lemma {:induction false} MergeMergesTail(parent: Value, source: Value, next: Value, updates: Items, i: int)
    requires forall j :: 0 <= j < |updates| ==> updates[j].1 < parent
    requires UniqueKeys(updates) && 0 < i < |updates|
    requires source.Dict? && next.Dict? && MergeIn(parent, next, updates[1..]).Ok?
    requires MergeIn(parent, source, updates) == MergeIn(parent, next, updates[1..])
    requires GetOrNull(next.items, updates[i].0) == GetOrNull(source.items, updates[i].0)
    requires updates[i].1.Dict? && updates[i].1.items != []
    ensures DeepMerge(GetOrNull(source.items, updates[i].0), updates[i].1.items).Ok?
    ensures Lookup(MergeIn(parent, source, updates).value.items, updates[i].0)
            == Some(DeepMerge(GetOrNull(source.items, updates[i].0), updates[i].1.items).value)
    decreases |updates|, 0
  {
    UniqueTail(updates);
    assert updates[1..][i - 1] == updates[i];
    MergeMerges(parent, next, updates[1..], i - 1);
  }

  /** The first update, when it is a non-empty dict, is merged into the old value. */
  lemma MergeMergesHead(parent: Value, source: Value, updates: Items)
    requires forall j :: 0 <= j < |updates| ==> updates[j].1 < parent
    requires UniqueKeys(updates) && updates != []
    requires source.Dict? && MergeIn(parent, source, updates).Ok?
    requires updates[0].1.Dict? && updates[0].1.items != []
    ensures DeepMerge(GetOrNull(source.items, updates[0].0), updates[0].1.items).Ok?
    ensures Lookup(MergeIn(parent, source, updates).value.items, updates[0].0)
            == Some(DeepMerge(GetOrNull(source.items, updates[0].0), updates[0].1.items).value)
  {
    UniqueTail(updates);
    var k0 := updates[0].0;
    var v := updates[0].1;
    assert Dict(v.items) == v;
    var m := MergeIn(v, GetOrNull(source.items, k0), v.items);
    assert m == DeepMerge(GetOrNull(source.items, k0), v.items);
    var w := m.value;
    assert Truthy(w);
    var next := Dict(Put(source.items, k0, w));
    assert MergeIn(parent, source, updates) == MergeIn(parent, next, updates[1..]);
    LookupPut(source.items, k0, w, k0);
    MergeKeeps(parent, next, updates[1..], k0);
  }

  /** `deep_update`, updating the source dict entry by entry. */
  method DeepUpdate(source: Value, updates: Items) returns (r: Result<Value>)
    ensures r == DeepMerge(source, updates)
    decreases Dict(updates)
  {
    var cur := source;
    var i := 0;
    assert updates[0..] == updates;
    while i < |updates|
      invariant 0 <= i <= |updates|
      invariant DeepMerge(source, updates) == MergeIn(Dict(updates), cur, updates[i..])
      decreases |updates| - i
    {
      var k := updates[i].0;
      var v := updates[i].1;
      assert updates[i..][0] == updates[i] && updates[i..][1..] == updates[i + 1..];
      if v.Dict? && v.items != [] {
        if !cur.Dict? {
          return Err(AttributeError);
        }
        assert v < Dict(updates);
        var w := DeepUpdate(GetOrNull(cur.items, k), v.items);
        if w.Err? {
          return Err(w.exc);
        }
        if Truthy(w.value) {
          cur := Dict(Put(cur.items, k, w.value));
        }
      } else {
        if !cur.Dict? {
          return Err(TypeError);
        }
        cur := Dict(Put(cur.items, k, v));
      }
      i := i + 1;
    }
    assert updates[i..] == [];
    return Ok(cur);
  }
}

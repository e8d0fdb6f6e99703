/** Output cleaning before a configuration is written. spock/backend/saver.py
    turns the built namespace into plain nested dicts: spock instances become
    dicts or class-name references, callables their dotted names, tuples lists,
    and None values disappear. spock/backend/base.py carries the same value
    conversion for the older savers, and spock/saver.py is the oldest saver,
    which prefixes the section names and flattens one level of tuples. The
    writers, the uuid generator and the run information of `add_info` are not
    modelled: the uuid and the success of the write are parameters. */
module Saver {
  import opened Results
  import opened Dicts
  import opened Values
  import opened Strs
  import opened Handler

  /** `cls.__module__` of a class, by the class's name. */
  type ModuleOf = string -> string

  // ---------------------------------------------------------------------------
  // Tuples to lists

  /** No tuple anywhere inside `v`. */
  predicate TupleFree(v: Value) {
    match v
    case Tuple(_) => false
    case List(es) => forall i :: 0 <= i < |es| ==> TupleFree(es[i])
    case Dict(items) => forall i :: 0 <= i < |items| ==> TupleFree(items[i].1)
    case Instance(_, attrs) => forall i :: 0 <= i < |attrs| ==> TupleFree(attrs[i].1)
    case _ => true
  }

  /** Every tuple inside `v` is reached through tuples only: the values whose
      tuples the tuple-to-list conversion can all reach. */
  predicate TuplesOnTop(v: Value) {
    match v
    case Tuple(es) => forall i :: 0 <= i < |es| ==> TuplesOnTop(es[i])
    case _ => TupleFree(v)
  }

  /** `_recursive_tuple_to_list(value)` on the elements `es` of a tuple: same
      length and order, every element that is a tuple converted to a list the
      same way, every other element kept as it is. */
  function TupleToList(ghost parent: Value, es: seq<Value>): (r: seq<Value>)
    requires forall i :: 0 <= i < |es| ==> es[i] < parent
    ensures |r| == |es|
    ensures forall i :: 0 <= i < |es| ==> !r[i].Tuple?
    ensures forall i :: 0 <= i < |es| && !es[i].Tuple? ==> r[i] == es[i]
    ensures forall i :: 0 <= i < |es| && es[i].Tuple? ==> r[i].List? && |r[i].elems| == |es[i].elems|
    decreases parent, |es|
  {
    if es == [] then []
    else
      var x := if es[0].Tuple? then List(TupleToList(es[0], es[0].elems)) else es[0];
      [x] + TupleToList(parent, es[1..])
  }

  /** When tuples sit only inside tuples, the conversion leaves no tuple at all;
      a tuple inside a list (or a dict) is not reached and stays. */
  lemma {:induction false} TupleToListTupleFree(parent: Value, es: seq<Value>)
    requires forall i :: 0 <= i < |es| ==> es[i] < parent
    requires forall i :: 0 <= i < |es| ==> TuplesOnTop(es[i])
    ensures forall i :: 0 <= i < |es| ==> TupleFree(TupleToList(parent, es)[i])
    decreases parent, |es|
  {
    if es != [] {
      var r := TupleToList(parent, es);
      if es[0].Tuple? {
        var xs := TupleToList(es[0], es[0].elems);
        TupleToListTupleFree(es[0], es[0].elems);
        assert r[0] == List(xs);
        assert forall j :: 0 <= j < |xs| ==> TupleFree(xs[j]);
      }
      TupleToListTupleFree(parent, es[1..]);
      assert r[1..] == TupleToList(parent, es[1..]);
      forall i | 0 <= i < |es| ensures TupleFree(r[i]) {
        if i > 0 {
          assert r[i] == r[1..][i - 1];
        }
      }
    }
  }

  lemma TupleToListAt(parent: Value, es: seq<Value>, i: int)
    requires forall j :: 0 <= j < |es| ==> es[j] < parent
    requires 0 <= i < |es|
    ensures TupleToList(parent, es[i..])
            == [if es[i].Tuple? then List(TupleToList(es[i], es[i].elems)) else es[i]] + TupleToList(parent, es[i + 1..])
  {
    assert es[i..][1..] == es[i + 1..];
    assert es[i..][0] == es[i];
  }

  lemma Reassociate(r: seq<Value>, x: Value, rest: seq<Value>)
    ensures r + ([x] + rest) == (r + [x]) + rest
  {
  }

  /** `_recursive_tuple_to_list`, appending to `list_v` element by element. */
  method RecursiveTupleToList(ghost parent: Value, es: seq<Value>) returns (r: seq<Value>)
    requires forall i :: 0 <= i < |es| ==> es[i] < parent
    ensures r == TupleToList(parent, es)
    decreases parent
  {
    r := [];
    var i := 0;
    assert es[0..] == es;
    while i < |es|
      invariant 0 <= i <= |es|
      invariant TupleToList(parent, es) == r + TupleToList(parent, es[i..])
      decreases |es| - i
    {
      TupleToListAt(parent, es, i);
      var x: Value;
      if es[i].Tuple? {
        var xs := RecursiveTupleToList(es[i], es[i].elems);
        x := List(xs);
      } else {
        x := es[i];
      }
      Reassociate(r, x, TupleToList(parent, es[i + 1..]));
      r := r + [x];
      i := i + 1;
    }
    assert es[i..] == [];
    assert r + [] == r;
  }

  // ---------------------------------------------------------------------------
  // The value conversion of `_clean_output`

  /** `_convert_tuples_2_lists` (`_convert` in base.py) on one value when `deep`,
      and the inner loop of spock/saver.py's `_clean_up_values` otherwise: None
      gives no entry, a tuple becomes a list (its nested tuples too when `deep`),
      and anything else is kept. */
  function CleanValue(v: Value, deep: bool): (r: Option<Value>)
    ensures r.None? <==> v.Null?
    ensures r.Some? ==> !r.value.Tuple?
    ensures v.Tuple? ==> r.value.List? && |r.value.elems| == |v.elems|
    ensures v.Tuple? && !deep ==> r == Some(List(v.elems))
    ensures !v.Null? && !v.Tuple? ==> r == Some(v)
  {
    match v
    case Null => None
    case Tuple(es) => Some(List(if deep then TupleToList(v, es) else es))
    case _ => Some(v)
  }

  /** The loop filling `clean_inner_dict` from the entries of one section, in
      order. */
  function ConvertItems(items: Items, deep: bool): (r: Items)
    ensures forall i :: 0 <= i < |r| ==> !r[i].1.Null? && !r[i].1.Tuple?
    ensures forall k :: HasKey(r, k) ==> HasKey(items, k)
    decreases |items|
  {
    if items == [] then []
    else
      var n := |items| - 1;
      var acc := ConvertItems(items[..n], deep);
      HasKeySnoc(items);
      match CleanValue(items[n].1, deep)
      case None => acc
      case Some(x) =>
        PutEntries(acc, items[n].0, x);
        PutHasKeys(acc, items[n].0, x);
        Put(acc, items[n].0, x)
  }

  /** On a dict, the conversion keeps exactly the keys whose value is not None,
      each with its converted value. */
  lemma {:induction false} ConvertItemsLookup(items: Items, deep: bool, k: string)
    requires UniqueKeys(items)
    ensures Lookup(ConvertItems(items, deep), k)
            == match Lookup(items, k) case None => None case Some(v) => CleanValue(v, deep)
    decreases |items|
  {
    if items != [] {
      var n := |items| - 1;
      var pre := items[..n];
      UniqueSnoc(items);
      ConvertItemsLookup(pre, deep, k);
      assert items == pre + [(items[n].0, items[n].1)];
      LookupSnoc(pre, items[n].0, items[n].1, k);
      var acc := ConvertItems(pre, deep);
      match CleanValue(items[n].1, deep)
      case None =>
        if k == items[n].0 {
          assert !HasKey(acc, k);
        }
      case Some(x) => LookupPut(acc, items[n].0, x, k);
    }
  }

  /** `ConvertItems`, the loop as written, calling `_recursive_tuple_to_list` on
      tuples. */
  method ConvertItemsLoop(items: Items, deep: bool) returns (r: Items)
    ensures r == ConvertItems(items, deep)
  {
    r := [];
    var i := 0;
    while i < |items|
      invariant 0 <= i <= |items|
      invariant r == ConvertItems(items[..i], deep)
    {
      assert items[..i + 1][..i] == items[..i];
      var k := items[i].0;
      var v := items[i].1;
      if v.Tuple? {
        var xs := v.elems;
        if deep {
          xs := RecursiveTupleToList(v, v.elems);
        }
        r := Put(r, k, List(xs));
      } else if !v.Null? {
        r := Put(r, k, v);
      }
      i := i + 1;
    }
    assert items[..i] == items;
  }

  /** The elements of a list value of `out_dict`: each must be a dict (`.items()`
      fails with AttributeError otherwise), and is replaced by its converted
      entries. */
  function CleanElems(es: seq<Value>): (r: Result<seq<Value>>)
    ensures r.Ok? <==> forall i :: 0 <= i < |es| ==> es[i].Dict?
    ensures r.Err? ==> r.exc == AttributeError
    ensures r.Ok? ==> |r.value| == |es|
    ensures r.Ok? ==> forall i :: 0 <= i < |es| ==> r.value[i] == Dict(ConvertItems(es[i].items, true))
    decreases |es|
  {
    if es == [] then Ok([])
    else if !es[0].Dict? then Err(AttributeError)
    else
      var xs :- CleanElems(es[1..]);
      Ok([Dict(ConvertItems(es[0].items, true))] + xs)
  }

  /** One value of `out_dict` in `_clean_output`: a list is cleaned element by
      element, a dict entry by entry, and anything else has no `items` and
      raises AttributeError. */
  function CleanEntry(v: Value): (r: Result<Value>)
    ensures r.Ok? <==> v.Dict? || (v.List? && forall i :: 0 <= i < |v.elems| ==> v.elems[i].Dict?)
    ensures r.Err? ==> r.exc == AttributeError
    ensures r.Ok? && v.Dict? ==> r.value == Dict(ConvertItems(v.items, true))
    ensures r.Ok? && v.List? ==> r.value.List? && |r.value.elems| == |v.elems|
    ensures r.Ok? && v.List? ==>
              forall i :: 0 <= i < |v.elems| ==> r.value.elems[i] == Dict(ConvertItems(v.elems[i].items, true))
  {
    match v
    case Dict(items) => Ok(Dict(ConvertItems(items, true)))
    case List(es) =>
      var xs :- CleanElems(es);
      Ok(List(xs))
    case _ => Err(AttributeError)
  }

  /** `_clean_output(out_dict)`: every value cleaned, in order; the first value
      that cannot be cleaned raises. */
  function CleanOutput(out: Items): (r: Result<Items>)
    ensures r.Ok? <==> forall i :: 0 <= i < |out| ==> CleanEntry(out[i].1).Ok?
    ensures r.Err? ==> r.exc == AttributeError
    ensures r.Ok? ==> forall i :: 0 <= i < |r.value| ==> r.value[i].1.Dict? || r.value[i].1.List?
    ensures r.Ok? ==> forall k :: HasKey(r.value, k) <==> HasKey(out, k)
    decreases |out|
  {
    if out == [] then Ok([])
    else
      var n := |out| - 1;
      HasKeySnoc(out);
      assert forall i :: 0 <= i < n ==> out[..n][i] == out[i];
      var acc :- CleanOutput(out[..n]);
      var x :- CleanEntry(out[n].1);
      PutEntries(acc, out[n].0, x);
      PutHasKeys(acc, out[n].0, x);
      Ok(Put(acc, out[n].0, x))
  }

  /** On a dict, every key keeps its place with its cleaned value. */
  lemma {:induction false} CleanOutputLookup(out: Items, k: string)
    requires UniqueKeys(out) && CleanOutput(out).Ok?
    ensures HasKey(out, k) ==> Lookup(CleanOutput(out).value, k) == Some(CleanEntry(Lookup(out, k).value).value)
    ensures !HasKey(out, k) ==> Lookup(CleanOutput(out).value, k) == None
    decreases |out|
  {
    if out != [] {
      var n := |out| - 1;
      var pre := out[..n];
      var key, val := out[n].0, out[n].1;
      UniqueSnoc(out);
      assert forall i :: 0 <= i < n ==> pre[i] == out[i];
      assert CleanOutput(pre).Ok?;
      CleanOutputLookup(pre, k);
      var acc, x := CleanOutput(pre).value, CleanEntry(val).value;
      assert CleanOutput(out).value == Put(acc, key, x);
      LookupPut(acc, key, x, k);
      assert out[n..] == [(key, val)];
      assert out == pre + out[n..];
      LookupSnoc(pre, key, val, k);
    }
  }

  /** A failure on the first `i` values is the failure of the whole loop. */
  lemma {:induction false} CleanOutputFailFrom(out: Items, i: int)
    requires 0 <= i <= |out| && CleanOutput(out[..i]).Err?
    ensures CleanOutput(out) == CleanOutput(out[..i])
    decreases |out|
  {
    if i < |out| {
      var n := |out| - 1;
      assert out[..n][..i] == out[..i];
      CleanOutputFailFrom(out[..n], i);
    } else {
      assert out[..i] == out;
    }
  }

  /** The loop over the elements of a list value in `_clean_output`. */
  method CleanElemsLoop(es: seq<Value>) returns (r: Result<seq<Value>>)
    ensures r == CleanElems(es)
  {
    var xs: seq<Value> := [];
    var j := 0;
    while j < |es|
      invariant 0 <= j <= |es| && |xs| == j
      invariant forall t :: 0 <= t < j ==> es[t].Dict? && xs[t] == Dict(ConvertItems(es[t].items, true))
    {
      if !es[j].Dict? {
        return Err(AttributeError);
      }
      var d := ConvertItemsLoop(es[j].items, true);
      xs := xs + [Dict(d)];
      j := j + 1;
    }
    assert CleanElems(es).value == xs;
    return Ok(xs);
  }

  /** The body of the outer loop of `_clean_output`: one value cleaned. */
  method CleanEntryLoop(v: Value) returns (r: Result<Value>)
    ensures r == CleanEntry(v)
  {
    if v.List? {
      var xs := CleanElemsLoop(v.elems);
      if xs.Err? {
        return Err(xs.exc);
      }
      r := Ok(List(xs.value));
    } else if v.Dict? {
      var d := ConvertItemsLoop(v.items, true);
      r := Ok(Dict(d));
    } else {
      r := Err(AttributeError);
    }
  }

  /** `_clean_output`, the nested loops as written (the list elements are
      rewritten in a copy rather than in place). */
  method CleanOutputLoop(out: Items) returns (r: Result<Items>)
    ensures r == CleanOutput(out)
  {
    var clean: Items := [];
    var i := 0;
    while i < |out|
      invariant 0 <= i <= |out|
      invariant CleanOutput(out[..i]) == Ok(clean)
    {
      assert out[..i + 1][..i] == out[..i];
      var x := CleanEntryLoop(out[i].1);
      if x.Err? {
        CleanOutputFailFrom(out, i + 1);
        return Err(x.exc);
      }
      clean := Put(clean, out[i].0, x.value);
      i := i + 1;
    }
    assert out[..i] == out;
    return Ok(clean);
  }

  // ---------------------------------------------------------------------------
  // `_recursively_handle_clean`

  /** No spock instance anywhere inside `v`. */
  predicate NoInstance(v: Value) {
    match v
    case Instance(_, _) => false
    case List(es) => forall i :: 0 <= i < |es| ==> NoInstance(es[i])
    case Tuple(es) => forall i :: 0 <= i < |es| ==> NoInstance(es[i])
    case Dict(items) => forall i :: 0 <= i < |items| ==> NoInstance(items[i].1)
    case _ => true
  }

  /** What `asdict` does below the instance it is called on: instances become
      dicts of their attributes, dict values and list elements are converted,
      and tuples become lists under `attr.asdict` (`keepTuples` false) but stay
      tuples under the dataclasses `asdict` (`keepTuples` true). */
  function AsDictValue(v: Value, keepTuples: bool): (r: Value)
    ensures NoInstance(r)
    ensures !keepTuples ==> TupleFree(r)
    ensures keepTuples ==> (r.Tuple? <==> v.Tuple?)
    ensures v.Instance? || v.Dict? <==> r.Dict?
    decreases v, 1
  {
    match v
    case Instance(_, attrs) => Dict(AsDictItems(v, attrs, keepTuples))
    case Dict(items) => Dict(AsDictItems(v, items, keepTuples))
    case List(es) => List(AsDictElems(v, es, keepTuples))
    case Tuple(es) =>
      var xs := AsDictElems(v, es, keepTuples);
      if keepTuples then Tuple(xs) else List(xs)
    case _ => v
  }

  function AsDictElems(ghost parent: Value, es: seq<Value>, keepTuples: bool): (r: seq<Value>)
    requires forall i :: 0 <= i < |es| ==> es[i] < parent
    ensures |r| == |es|
    ensures forall i :: 0 <= i < |r| ==> NoInstance(r[i]) && (!keepTuples ==> TupleFree(r[i]))
    decreases parent, 0, |es|
  {
    if es == [] then []
    else [AsDictValue(es[0], keepTuples)] + AsDictElems(parent, es[1..], keepTuples)
  }

  /** The attributes (or dict entries) `items`, each value converted and each key kept. */
  function AsDictItems(ghost parent: Value, items: Items, keepTuples: bool): (r: Items)
    requires forall i :: 0 <= i < |items| ==> items[i].1 < parent
    ensures |r| == |items|
    ensures forall i :: 0 <= i < |r| ==> r[i].0 == items[i].0
    ensures forall i :: 0 <= i < |r| ==> NoInstance(r[i].1) && (!keepTuples ==> TupleFree(r[i].1))
    decreases parent, 0, |items|
  {
    if items == [] then []
    else [(items[0].0, AsDictValue(items[0].1, keepTuples))] + AsDictItems(parent, items[1..], keepTuples)
  }

  /** `attr.asdict(v)` (`keepTuples` false) or the dataclasses `asdict(v)`
      (`keepTuples` true): the instance's attributes as a plain dict; anything
      but an instance is refused, by attrs with NotAnAttrsClassError (a
      ValueError), by dataclasses with TypeError. */
  function AsDict(v: Value, keepTuples: bool): (r: Result<Value>)
    ensures r.Ok? <==> v.Instance?
    ensures r.Err? ==> r.exc == (if keepTuples then TypeError else ValueError)
    ensures r.Ok? ==> r.value.Dict? && KeysOf(r.value.items) == KeysOf(v.attrs)
    ensures r.Ok? ==> NoInstance(r.value) && (!keepTuples ==> TupleFree(r.value))
  {
    if v.Instance? then Ok(AsDictValue(v, keepTuples))
    else Err(if keepTuples then TypeError else ValueError)
  }

  /** A value `set()` accepts: lists and dicts are unhashable, tuples and
      (frozen) spock instances are hashable when their parts are. */
  predicate Hashable(v: Value) {
    match v
    case List(_) => false
    case Dict(_) => false
    case Tuple(es) => forall i :: 0 <= i < |es| ==> Hashable(es[i])
    case Instance(_, attrs) => forall i :: 0 <= i < |attrs| ==> Hashable(attrs[i].1)
    case _ => true
  }

  /** One element `l` of a list under `key`: an instance of the class named by
      the key becomes a dict, an instance of another spock class its class
      name, and anything else is kept. */
  function CleanElem(key: string, l: Value, allCls: set<string>): Result<Value> {
    var c := TypeName(l);
    if c in allCls && c == key then AsDict(l, false)
    else if c in allCls then Ok(Str(c))
    else Ok(l)
  }

  /** Some element is an instance of a spock class other than the one the key names. */
  predicate RepeatFlag(key: string, es: seq<Value>, allCls: set<string>) {
    exists i | 0 <= i < |es| :: TypeName(es[i]) in allCls && TypeName(es[i]) != key
  }

  /** The `clean_val` list: every element cleaned, the first failure raised. */
  function CleanElemsOf(key: string, es: seq<Value>, allCls: set<string>): (r: Result<seq<Value>>)
    ensures r.Ok? <==> forall i :: 0 <= i < |es| ==> CleanElem(key, es[i], allCls).Ok?
    ensures r.Err? ==> r.exc == ValueError
    ensures r.Ok? ==> |r.value| == |es| && forall i :: 0 <= i < |es| ==> Ok(r.value[i]) == CleanElem(key, es[i], allCls)
    decreases |es|
  {
    if es == [] then Ok([])
    else
      var x :- CleanElem(key, es[0], allCls);
      var xs :- CleanElemsOf(key, es[1..], allCls);
      Ok([x] + xs)
  }

  /** The list branch of `_recursively_handle_clean`. Without a reference to
      another class the cleaned list is kept; with one, the list is collapsed
      to `list(set(clean_val))[-1]`, which fails for unhashable elements and
      otherwise picks an element in an order that depends on hashing: here the
      element at `pick` (modulo the length). */
  function CleanList(key: string, es: seq<Value>, allCls: set<string>, pick: nat): (r: Result<Value>)
    ensures !RepeatFlag(key, es, allCls) ==> (r.Ok? <==> forall i :: 0 <= i < |es| ==> CleanElem(key, es[i], allCls).Ok?)
    ensures r.Ok? && !RepeatFlag(key, es, allCls) ==>
              r.value.List? && |r.value.elems| == |es|
              && forall i :: 0 <= i < |es| ==> Ok(r.value.elems[i]) == CleanElem(key, es[i], allCls)
    ensures r.Ok? && RepeatFlag(key, es, allCls) ==>
              Hashable(r.value) && exists i | 0 <= i < |es| :: Ok(r.value) == CleanElem(key, es[i], allCls)
  {
    var xs :- CleanElemsOf(key, es, allCls);
    if RepeatFlag(key, es, allCls) then
      if forall i | 0 <= i < |xs| :: Hashable(xs[i]) then Ok(xs[pick % |xs|]) else Err(TypeError)
    else Ok(List(xs))
  }

  /** A list of references to one other spock class collapses to that class's
      name, whatever the hash order. */
  lemma RepeatedOneClass(key: string, es: seq<Value>, allCls: set<string>, pick: nat, c: string)
    requires es != [] && c in allCls && c != key
    requires forall i :: 0 <= i < |es| ==> TypeName(es[i]) == c
    ensures CleanList(key, es, allCls, pick) == Ok(Str(c))
  {
    assert TypeName(es[0]) in allCls && TypeName(es[0]) != key;
    var xs := CleanElemsOf(key, es, allCls).value;
    assert forall i :: 0 <= i < |xs| ==> xs[i] == Str(c);
  }

  /** Mixing instances of the key's own class with references to another class
      fails: the dicts made for the former cannot go into a set. */
  lemma RepeatedWithOwnClassFails(key: string, es: seq<Value>, allCls: set<string>, pick: nat, i: int, j: int)
    requires 0 <= i < |es| && 0 <= j < |es| && key in allCls
    requires es[i].Instance? && es[i].cls == key
    requires TypeName(es[j]) in allCls && TypeName(es[j]) != key
    requires forall t :: 0 <= t < |es| ==> CleanElem(key, es[t], allCls).Ok?
    ensures CleanList(key, es, allCls, pick) == Err(TypeError)
  {
    var xs := CleanElemsOf(key, es, allCls).value;
    assert Ok(xs[i]) == AsDict(es[i], false);
    assert !Hashable(xs[i]);
  }

  /** One attribute `key` with value `val` inside the namespace of class
      `parentName` (None at the top level), in the order of the source's
      branches: lists, callables (a function, or a class object, which is
      written with the module `moduleOf` gives for it), spock instances under a
      parent (their class name), spock instances at the top level (cleaned
      recursively; `vars` of anything but an instance raises TypeError), and
      everything else kept. */
  function CleanAttr(key: string, val: Value, parentName: Option<string>, allCls: set<string>,
                     pick: nat, moduleOf: ModuleOf): (r: Result<Value>)
    ensures r.Err? ==> r.exc == TypeError || r.exc == ValueError
    ensures val.Callable? || val.ClassRef? ==> r.Ok? && r.value.Str?
    ensures parentName.Some? && !val.List? && !val.Callable? && !val.ClassRef? && TypeName(val) in allCls ==> r == Ok(Str(TypeName(val)))
    ensures !val.List? && !val.Callable? && !val.ClassRef? && TypeName(val) !in allCls ==> r == Ok(val)
    decreases val, 2
  {
    if val.List? then CleanList(key, val.elems, allCls, pick)
    else if val.Callable? then Ok(Str(val.modName + "." + val.name))
    else if val.ClassRef? then Ok(Str(moduleOf(val.name) + "." + val.name))
    else if TypeName(val) in allCls && parentName.Some? then Ok(Str(TypeName(val)))
    else if TypeName(val) in allCls then
      if val.Instance? then
        var d :- HandleClean(val, val.attrs, Some(key), allCls, pick, moduleOf);
        Ok(Dict(d))
      else Err(TypeError)
    else Ok(val)
  }

  /** `_recursively_handle_clean(payload, out_dict, parent_name, all_cls)`:
      `out_dict` filled with every attribute, cleaned, in order. */
  function HandleClean(ghost parent: Value, items: Items, parentName: Option<string>, allCls: set<string>,
                       pick: nat, moduleOf: ModuleOf): (r: Result<Items>)
    requires forall i :: 0 <= i < |items| ==> items[i].1 < parent
    ensures r.Err? ==> r.exc == TypeError || r.exc == ValueError
    ensures r.Ok? ==> |r.value| <= |items|
    decreases parent, 1, |items|
  {
    if items == [] then Ok([])
    else
      var n := |items| - 1;
      var acc :- HandleClean(parent, items[..n], parentName, allCls, pick, moduleOf);
      var x :- CleanAttr(items[n].0, items[n].1, parentName, allCls, pick, moduleOf);
      Ok(Put(acc, items[n].0, x))
  }

  /** A cleaned namespace has the same attribute names. */
  lemma {:induction false} HandleCleanKeys(parent: Value, items: Items, parentName: Option<string>,
                                           allCls: set<string>, pick: nat, moduleOf: ModuleOf)
    requires forall i :: 0 <= i < |items| ==> items[i].1 < parent
    requires HandleClean(parent, items, parentName, allCls, pick, moduleOf).Ok?
    ensures forall k :: HasKey(HandleClean(parent, items, parentName, allCls, pick, moduleOf).value, k) <==> HasKey(items, k)
    decreases |items|
  {
    if items != [] {
      var n := |items| - 1;
      HasKeySnoc(items);
      HandleCleanKeys(parent, items[..n], parentName, allCls, pick, moduleOf);
      var acc := HandleClean(parent, items[..n], parentName, allCls, pick, moduleOf).value;
      var x := CleanAttr(items[n].0, items[n].1, parentName, allCls, pick, moduleOf).value;
      PutHasKeys(acc, items[n].0, x);
    }
  }

  /** On a namespace, every attribute keeps its name and gets its cleaned value. */
  lemma {:induction false} HandleCleanLookup(parent: Value, items: Items, parentName: Option<string>,
                                             allCls: set<string>, pick: nat, moduleOf: ModuleOf, k: string)
    requires forall i :: 0 <= i < |items| ==> items[i].1 < parent
    requires UniqueKeys(items) && HandleClean(parent, items, parentName, allCls, pick, moduleOf).Ok?
    requires HasKey(items, k)
    ensures CleanAttr(k, Lookup(items, k).value, parentName, allCls, pick, moduleOf).Ok?
    ensures Lookup(HandleClean(parent, items, parentName, allCls, pick, moduleOf).value, k)
            == Some(CleanAttr(k, Lookup(items, k).value, parentName, allCls, pick, moduleOf).value)
    decreases |items|
  {
    var n := |items| - 1;
    var pre := items[..n];
    UniqueSnoc(items);
    HasKeySnoc(items);
    assert items == pre + [(items[n].0, items[n].1)];
    LookupSnoc(pre, items[n].0, items[n].1, k);
    var acc := HandleClean(parent, pre, parentName, allCls, pick, moduleOf).value;
    var x := CleanAttr(items[n].0, items[n].1, parentName, allCls, pick, moduleOf).value;
    LookupPut(acc, items[n].0, x, k);
    if k != items[n].0 {
      HandleCleanLookup(parent, pre, parentName, allCls, pick, moduleOf, k);
    }
  }

  /** Inside a class, a callable attribute is written as `module.name` and an
      attribute holding another spock instance as that instance's class name. */
  lemma NestedAttributesByName(parent: Value, items: Items, p: string, allCls: set<string>,
                               pick: nat, moduleOf: ModuleOf, k: string)
    requires forall i :: 0 <= i < |items| ==> items[i].1 < parent
    requires UniqueKeys(items) && HandleClean(parent, items, Some(p), allCls, pick, moduleOf).Ok?
    ensures Lookup(items, k).Some? && Lookup(items, k).value.Callable? ==>
              Lookup(HandleClean(parent, items, Some(p), allCls, pick, moduleOf).value, k)
              == Some(Str(Lookup(items, k).value.modName + "." + Lookup(items, k).value.name))
    ensures Lookup(items, k).Some? && Lookup(items, k).value.Instance? && Lookup(items, k).value.cls in allCls ==>
              Lookup(HandleClean(parent, items, Some(p), allCls, pick, moduleOf).value, k)
              == Some(Str(Lookup(items, k).value.cls))
  {
    if HasKey(items, k) {
      HandleCleanLookup(parent, items, Some(p), allCls, pick, moduleOf, k);
    }
  }

  /** A failure on the first `i` attributes is the failure of the whole loop. */
  lemma {:induction false} HandleCleanFailFrom(parent: Value, items: Items, parentName: Option<string>,
                                               allCls: set<string>, pick: nat, moduleOf: ModuleOf, i: int)
    requires forall j :: 0 <= j < |items| ==> items[j].1 < parent
    requires 0 <= i <= |items| && HandleClean(parent, items[..i], parentName, allCls, pick, moduleOf).Err?
    ensures HandleClean(parent, items, parentName, allCls, pick, moduleOf)
            == HandleClean(parent, items[..i], parentName, allCls, pick, moduleOf)
    decreases |items| - i
  {
    if i < |items| {
      HandleCleanStep(parent, items, parentName, allCls, pick, moduleOf, i);
      HandleCleanFailFrom(parent, items, parentName, allCls, pick, moduleOf, i + 1);
    } else {
      assert items[..i] == items;
    }
  }

  lemma HandleCleanStep(parent: Value, items: Items, parentName: Option<string>,
                        allCls: set<string>, pick: nat, moduleOf: ModuleOf, i: int)
    requires forall j :: 0 <= j < |items| ==> items[j].1 < parent
    requires 0 <= i < |items|
    ensures HandleClean(parent, items[..i + 1], parentName, allCls, pick, moduleOf)
            == match HandleClean(parent, items[..i], parentName, allCls, pick, moduleOf)
               case Err(e) => Err(e)
               case Ok(acc) =>
                 match CleanAttr(items[i].0, items[i].1, parentName, allCls, pick, moduleOf)
                 case Err(e) => Err(e)
                 case Ok(x) => Ok(Put(acc, items[i].0, x))
  {
    assert items[..i + 1][..i] == items[..i];
  }

  /** The list branch as written: `clean_val` appended to and `repeat_flag` set
      element by element. */
  method CleanListLoop(key: string, es: seq<Value>, allCls: set<string>, pick: nat) returns (r: Result<Value>)
    ensures r == CleanList(key, es, allCls, pick)
  {
    var xs: seq<Value> := [];
    var flag := false;
    var j := 0;
    while j < |es|
      invariant 0 <= j <= |es| && |xs| == j
      invariant forall t :: 0 <= t < j ==> Ok(xs[t]) == CleanElem(key, es[t], allCls)
      invariant flag <==> exists t | 0 <= t < j :: TypeName(es[t]) in allCls && TypeName(es[t]) != key
    {
      var c := TypeName(es[j]);
      var x: Value;
      if c in allCls && c == key {
        var d := AsDict(es[j], false);
        if d.Err? {
          assert CleanElemsOf(key, es, allCls).Err?;
          return Err(d.exc);
        }
        x := d.value;
      } else if c in allCls {
        flag := true;
        x := Str(c);
      } else {
        x := es[j];
      }
      xs := xs + [x];
      j := j + 1;
    }
    assert CleanElemsOf(key, es, allCls).value == xs;
    if flag {
      if forall t | 0 <= t < |xs| :: Hashable(xs[t]) {
        return Ok(xs[pick % |xs|]);
      }
      return Err(TypeError);
    }
    return Ok(List(xs));
  }

  /** `_recursively_handle_clean` as written: a loop updating `out_dict`, with a
      recursive call for the top-level instances. */
  method RecursivelyHandleClean(ghost parent: Value, items: Items, parentName: Option<string>, allCls: set<string>,
                                pick: nat, moduleOf: ModuleOf) returns (r: Result<Items>)
    requires forall i :: 0 <= i < |items| ==> items[i].1 < parent
    ensures r == HandleClean(parent, items, parentName, allCls, pick, moduleOf)
    decreases parent, 1
  {
    var out: Items := [];
    var i := 0;
    while i < |items|
      invariant 0 <= i <= |items|
      invariant HandleClean(parent, items[..i], parentName, allCls, pick, moduleOf) == Ok(out)
    {
      var key := items[i].0;
      var val := items[i].1;
      var x := CleanAttrStep(key, val, parentName, allCls, pick, moduleOf);
      HandleCleanStep(parent, items, parentName, allCls, pick, moduleOf, i);
      if x.Err? {
        HandleCleanFailFrom(parent, items, parentName, allCls, pick, moduleOf, i + 1);
        return Err(x.exc);
      }
      out := Put(out, key, x.value);
      i := i + 1;
    }
    assert items[..i] == items;
    return Ok(out);
  }

  /** The branches of `_recursively_handle_clean` for one attribute. */
  method CleanAttrStep(key: string, val: Value, parentName: Option<string>, allCls: set<string>,
                       pick: nat, moduleOf: ModuleOf) returns (x: Result<Value>)
    ensures x == CleanAttr(key, val, parentName, allCls, pick, moduleOf)
    decreases val, 2
  {
    if val.List? {
      x := CleanListLoop(key, val.elems, allCls, pick);
    } else if val.Callable? {
      x := Ok(Str(val.modName + "." + val.name));
    } else if val.ClassRef? {
      x := Ok(Str(moduleOf(val.name) + "." + val.name));
    } else if TypeName(val) in allCls && parentName.Some? {
      x := Ok(Str(TypeName(val)));
    } else if TypeName(val) in allCls {
      if val.Instance? {
        var d := RecursivelyHandleClean(val, val.attrs, Some(key), allCls, pick, moduleOf);
        x := if d.Ok? then Ok(Dict(d.value)) else Err(d.exc);
      } else {
        x := Err(TypeError);
      }
    } else {
      x := Ok(val);
    }
  }

  // ---------------------------------------------------------------------------
  // `AttrSaver._clean_up_values`, `_clean_tuner_values` and `BaseSaver.save`

  /** The class names of a namespace: the keys of `vars(payload)`. */
  function KeySet(items: Items): set<string> {
    set i | 0 <= i < |items| :: items[i].0
  }

  /** The comprehension keeping the sections whose cleaned value is not empty. */
  function Clip(d: Items): (r: Items)
    requires forall i :: 0 <= i < |d| ==> Len(d[i].1).Some?
    ensures forall e :: e in r <==> e in d && Len(e.1) != Some(0)
    decreases |d|
  {
    if d == [] then []
    else
      assert forall e :: e in d <==> e == d[0] || e in d[1..];
      (if Len(d[0].1) != Some(0) then [d[0]] else []) + Clip(d[1..])
  }

  /** `AttrSaver._clean_up_values(payload)`: the namespace cleaned with the
      top-level classes as the spock classes, the values converted, and the
      empty sections dropped. */
  function CleanUpValues(payload: Items, pick: nat, moduleOf: ModuleOf): (r: Result<Items>)
    ensures r.Ok? ==> forall i :: 0 <= i < |r.value| ==> HasKey(payload, r.value[i].0)
    ensures r.Ok? ==> forall i :: 0 <= i < |r.value| ==>
                        (r.value[i].1.Dict? || r.value[i].1.List?) && Len(r.value[i].1) != Some(0)
  {
    var out :- HandleClean(Dict(payload), payload, None, KeySet(payload), pick, moduleOf);
    HandleCleanKeys(Dict(payload), payload, None, KeySet(payload), pick, moduleOf);
    var clean :- CleanOutput(out);
    var r := Clip(clean);
    assert forall i :: 0 <= i < |r| ==> r[i] in clean && HasKey(clean, r[i].0);
    Ok(r)
  }

  /** `{ik: vars(iv) for ik, iv in vars(v).items()}` on the attributes of one
      tuner class. */
  function TunerSection(attrs: Items): (r: Result<Items>)
    ensures r.Ok? <==> forall i :: 0 <= i < |attrs| ==> HasVars(attrs[i].1)
    ensures r.Ok? ==> forall i :: 0 <= i < |r.value| ==> r.value[i].1.Dict?
    ensures r.Ok? ==> forall k :: HasKey(r.value, k) <==> HasKey(attrs, k)
    decreases |attrs|
  {
    if attrs == [] then Ok([])
    else
      var n := |attrs| - 1;
      HasKeySnoc(attrs);
      assert forall i :: 0 <= i < n ==> attrs[..n][i] == attrs[i];
      var acc :- TunerSection(attrs[..n]);
      var inner :- Vars(attrs[n].1);
      PutEntries(acc, attrs[n].0, Dict(inner));
      PutHasKeys(acc, attrs[n].0, Dict(inner));
      Ok(Put(acc, attrs[n].0, Dict(inner)))
  }

  /** The outer comprehension of `_clean_tuner_values`. */
  function TunerTable(payload: Items): (r: Result<Items>)
    ensures r.Ok? ==> forall i :: 0 <= i < |r.value| ==> r.value[i].1.Dict?
    ensures r.Ok? ==> forall k :: HasKey(r.value, k) <==> HasKey(payload, k)
    decreases |payload|
  {
    if payload == [] then Ok([])
    else
      var n := |payload| - 1;
      HasKeySnoc(payload);
      var acc :- TunerTable(payload[..n]);
      var attrs :- Vars(payload[n].1);
      var section :- TunerSection(attrs);
      PutEntries(acc, payload[n].0, Dict(section));
      PutHasKeys(acc, payload[n].0, Dict(section));
      Ok(Put(acc, payload[n].0, Dict(section)))
  }

  /** `AttrSaver._clean_tuner_values(payload)`: the unsampled tuner namespace
      unrolled into nested dicts and converted; once unrolled, the conversion
      cannot fail. */
  function CleanTunerValues(tuner: Items): (r: Result<Items>)
    ensures TunerTable(tuner).Ok? ==> r.Ok?
    ensures r.Ok? ==> forall k :: HasKey(r.value, k) <==> HasKey(tuner, k)
  {
    var t :- TunerTable(tuner);
    CleanOutput(t)
  }

  /** What a save produces: the file name, the dict handed to the writer, and
      whether the file was written. */
  datatype Written = Written(name: string, out: Items, written: bool)

  /** The name `BaseSaver.save` gives the file: the file name, a dot, the uuid,
      `.spock.cfg` and the extension; without a file name, the uuid first. */
  function FileName(fileName: Option<string>, uuid: string, ext: string): string {
    (if fileName.Some? then fileName.value + "." else "") + uuid + ".spock.cfg" + ext
  }

  /** The name spock/saver.py gives the file. */
  function LegacyFileName(uuid: string, ext: string): string {
    uuid + ".spck.cfg" + ext
  }

  lemma {:induction false} AfterLastAppend(a: string, b: string, c: char)
    requires c !in b
    ensures AfterLast(a + b, c) == AfterLast(a, c)
    decreases |b|
  {
    if b == [] {
      assert a + b == a;
    } else {
      var s := a + b;
      assert s[..|s| - 1] == a + b[..|b| - 1];
      assert s[|s| - 1] == b[|b| - 1];
      assert forall x :: x in b[..|b| - 1] ==> x in b;
      AfterLastAppend(a, b[..|b| - 1], c);
    }
  }

  /** A name without slashes is its own last path component. */
  lemma NoSlashPathName(s: string)
    requires '/' !in s
    ensures PathName(s) == s
  {
    if s != [] {
      assert s[|s| - 1] in s;
    }
    assert DropTrailingSlashes(s) == s;
  }

  lemma AfterLastDot(stem: string, ext: string)
    requires |ext| >= 1 && ext[0] == '.' && '.' !in ext[1..]
    ensures AfterLast(stem + ext, '.') == |stem| + 1
  {
    var tail := ext[1..];
    assert stem + ext == (stem + ['.']) + tail;
    AfterLastAppend(stem + ['.'], tail, '.');
  }

  /** A slash-free name whose last dot is neither its first nor its last
      character has the text from that dot on as its suffix. */
  lemma DotSuffix(stem: string, ext: string)
    requires stem != [] && '/' !in stem
    requires |ext| >= 2 && ext[0] == '.' && '.' !in ext[1..] && '/' !in ext
    ensures Suffix(stem + ext) == ext
  {
    var s := stem + ext;
    assert '/' !in s by {
      assert forall x :: x in s ==> x in stem || x in ext;
    }
    NoSlashPathName(s);
    AfterLastDot(stem, ext);
    assert s[|stem|..] == ext;
  }

  /** A slash-free stem followed by a supported extension has that extension as
      its path suffix. */
  lemma StemSuffix(stem: string, ext: string)
    requires stem != [] && '/' !in stem && ext in SupportedExtensions
    ensures Suffix(stem + ext) == ext
  {
    assert ext == ".yaml" || ext == ".toml" || ext == ".json";
    assert '.' !in ext[1..] && '/' !in ext;
    DotSuffix(stem, ext);
  }

  /** Every saver names its file so that the file's suffix is the requested
      extension, which is how the loader picks the reader again. */
  lemma SaveNameSuffix(fileName: Option<string>, uuid: string, ext: string)
    requires ext in SupportedExtensions && '/' !in uuid
    requires fileName.Some? ==> '/' !in fileName.value
    ensures Suffix(FileName(fileName, uuid, ext)) == ext
    ensures Suffix(LegacyFileName(uuid, ext)) == ext
  {
    var pre: string := if fileName.Some? then fileName.value + "." else "";
    var stem := pre + uuid + ".spock.cfg";
    assert forall x :: x in stem ==> x in pre || x in uuid || x in ".spock.cfg";
    assert FileName(fileName, uuid, ext) == stem + ext;
    StemSuffix(stem, ext);
    var stem' := uuid + ".spck.cfg";
    assert forall x :: x in stem' ==> x in uuid || x in ".spck.cfg";
    StemSuffix(stem', ext);
  }

  /** `BaseSaver.save` in spock/backend/saver.py: the extension is checked
      before anything else, the uuid is the fixed one when given, the cleaned
      tuner sections are merged over the cleaned payload, and a failed write
      re-raises its OSError. */
  function BackendSave(h: BaseHandler, payload: Items, fileName: Option<string>, ext: string,
                       tuner: Option<Items>, fixedUuid: Option<string>, freshUuid: string, writeOk: bool,
                       pick: nat, moduleOf: ModuleOf): (r: Result<Written>)
    ensures ext !in h.supportedExtensions ==> r == Err(TypeError)
    ensures ext in h.supportedExtensions && CleanUpValues(payload, pick, moduleOf).Err? ==>
              r == Err(CleanUpValues(payload, pick, moduleOf).exc)
    ensures r.Ok? ==> writeOk && r.value.written
    ensures r.Ok? ==> r.value.name == FileName(fileName, if fixedUuid.Some? then fixedUuid.value else freshUuid, ext)
    ensures r.Ok? && tuner.None? ==> r.value.out == CleanUpValues(payload, pick, moduleOf).value
  {
    var check := CheckExtension(h, ext);
    if check.Fail? then Err(check.exc)
    else
      var name := FileName(fileName, if fixedUuid.Some? then fixedUuid.value else freshUuid, ext);
      var out :- CleanUpValues(payload, pick, moduleOf);
      var tuned :- if tuner.Some? then CleanTunerValues(tuner.value) else Ok([]);
      if !writeOk then Err(OSError)
      else Ok(Written(name, Update(out, tuned), true))
  }

  /** A tuner section replaces the payload section of the same name; the other
      payload sections are kept. */
  lemma TunerSectionsWin(h: BaseHandler, payload: Items, fileName: Option<string>, ext: string,
                         t: Items, fixedUuid: Option<string>, freshUuid: string, writeOk: bool,
                         pick: nat, moduleOf: ModuleOf, k: string)
    requires BackendSave(h, payload, fileName, ext, Some(t), fixedUuid, freshUuid, writeOk, pick, moduleOf).Ok?
    ensures CleanTunerValues(t).Ok? && CleanUpValues(payload, pick, moduleOf).Ok?
    ensures HasKey(t, k) ==>
              Lookup(BackendSave(h, payload, fileName, ext, Some(t), fixedUuid, freshUuid, writeOk, pick, moduleOf).value.out, k)
              == LastFor(CleanTunerValues(t).value, k)
    ensures !HasKey(t, k) ==>
              Lookup(BackendSave(h, payload, fileName, ext, Some(t), fixedUuid, freshUuid, writeOk, pick, moduleOf).value.out, k)
              == Lookup(CleanUpValues(payload, pick, moduleOf).value, k)
  {
    LookupUpdate(CleanUpValues(payload, pick, moduleOf).value, CleanTunerValues(t).value, k);
  }

  /** `BaseSaver.save` in spock/backend/base.py, given the result of the
      backend's `_clean_up_values`: an extension without a writer raises
      ValueError before the payload is cleaned, and a failed write re-raises. */
  function BaseSave(ext: string, uuid: string, cleaned: Result<Items>, writeOk: bool): (r: Result<Written>)
    ensures ext !in SupportedExtensions ==> r == Err(ValueError)
    ensures r.Ok? ==> cleaned.Ok? && writeOk && r.value == Written(FileName(None, uuid, ext), cleaned.value, true)
    ensures ext in SupportedExtensions && cleaned.Ok? && !writeOk ==> r == Err(OSError)
  {
    if ext !in SupportedExtensions then Err(ValueError)
    else
      var out :- cleaned;
      if writeOk then Ok(Written(uuid + ".spock.cfg" + ext, out, true)) else Err(OSError)
  }

  // ---------------------------------------------------------------------------
  // spock/saver.py

  /** The section name under which spock/saver.py writes class `key`:
      prefixed with `# ` except in JSON. */
  function SectionKey(key: string, ext: string): string {
    if ext == ".json" then key else "# " + key
  }

  /** The section names of a list of class names. */
  function SectionKeys(ks: seq<string>, ext: string): (r: seq<string>)
    ensures |r| == |ks|
    ensures forall i :: 0 <= i < |ks| ==> r[i] == SectionKey(ks[i], ext)
  {
    seq(|ks|, i requires 0 <= i < |ks| => SectionKey(ks[i], ext))
  }

  lemma SectionKeysSnoc(ks: seq<string>, k: string, ext: string)
    ensures SectionKeys(ks + [k], ext) == SectionKeys(ks, ext) + [SectionKey(k, ext)]
  {
  }

  lemma SectionKeyInjective(a: string, b: string, ext: string)
    requires SectionKey(a, ext) == SectionKey(b, ext)
    ensures a == b
  {
    if ext != ".json" {
      assert ("# " + a)[2..] == a;
      assert ("# " + b)[2..] == b;
    }
  }

  /** The first loop of `_clean_up_values`: every class converted by the
      dataclasses `asdict` under its section name. */
  function LegacySections(payload: Items, ext: string): (r: Result<Items>)
    ensures r.Ok? <==> forall i :: 0 <= i < |payload| ==> payload[i].1.Instance?
    ensures r.Err? ==> r.exc == TypeError
    ensures r.Ok? ==> forall i :: 0 <= i < |r.value| ==> r.value[i].1.Dict?
    decreases |payload|
  {
    if payload == [] then Ok([])
    else
      var n := |payload| - 1;
      assert forall i :: 0 <= i < n ==> payload[..n][i] == payload[i];
      var acc :- LegacySections(payload[..n], ext);
      var d :- AsDict(payload[n].1, true);
      PutEntries(acc, SectionKey(payload[n].0, ext), d);
      Ok(Put(acc, SectionKey(payload[n].0, ext), d))
  }

  /** The second loop: each section's entries with tuples made lists (one
      level only) and None values dropped. */
  function LegacyClean(out: Items): (r: Items)
    requires forall i :: 0 <= i < |out| ==> out[i].1.Dict?
    ensures forall k :: HasKey(r, k) <==> HasKey(out, k)
    ensures forall i :: 0 <= i < |r| ==> r[i].1.Dict?
    decreases |out|
  {
    if out == [] then []
    else
      var n := |out| - 1;
      HasKeySnoc(out);
      var acc := LegacyClean(out[..n]);
      var x := Dict(ConvertItems(out[n].1.items, false));
      PutEntries(acc, out[n].0, x);
      PutHasKeys(acc, out[n].0, x);
      Put(acc, out[n].0, x)
  }

  /** `Saver._clean_up_values(payload, extra_info, file_extension)` before the
      run information is added. */
  function LegacyCleanUpValues(payload: Items, ext: string): (r: Result<Items>)
    ensures r.Ok? <==> forall i :: 0 <= i < |payload| ==> payload[i].1.Instance?
  {
    var out :- LegacySections(payload, ext);
    Ok(LegacyClean(out))
  }

  lemma LegacySectionsStep(payload: Items, ext: string)
    requires payload != [] && LegacySections(payload, ext).Ok?
    ensures LegacySections(payload[..|payload| - 1], ext).Ok?
    ensures AsDict(payload[|payload| - 1].1, true).Ok?
    ensures LegacySections(payload, ext).value
            == Put(LegacySections(payload[..|payload| - 1], ext).value,
                   SectionKey(payload[|payload| - 1].0, ext), AsDict(payload[|payload| - 1].1, true).value)
  {
  }

  /** One section per class, in the classes' order, under its section name. */
  lemma {:induction false} LegacySectionsKeys(payload: Items, ext: string)
    requires UniqueKeys(payload) && LegacySections(payload, ext).Ok?
    ensures KeysOf(LegacySections(payload, ext).value) == SectionKeys(KeysOf(payload), ext)
    decreases |payload|
  {
    if payload != [] {
      var n := |payload| - 1;
      var pre := payload[..n];
      UniqueSnoc(payload);
      LegacySectionsStep(payload, ext);
      LegacySectionsKeys(pre, ext);
      var acc := LegacySections(pre, ext).value;
      var key := SectionKey(payload[n].0, ext);
      if HasKey(acc, key) {
        var j :| 0 <= j < |acc| && acc[j].0 == key;
        assert KeysOf(acc)[j] == key;
        SectionKeyInjective(pre[j].0, payload[n].0, ext);
        assert false;
      }
      PutKeys(acc, key, AsDict(payload[n].1, true).value);
      KeysOfSnoc(payload);
      SectionKeysSnoc(KeysOf(pre), payload[n].0, ext);
    }
  }

  /** The second loop keeps every section in place. */
  lemma {:induction false} LegacyCleanKeys(out: Items)
    requires forall i :: 0 <= i < |out| ==> out[i].1.Dict?
    requires UniqueKeys(out)
    ensures KeysOf(LegacyClean(out)) == KeysOf(out)
    decreases |out|
  {
    if out != [] {
      var n := |out| - 1;
      var pre := out[..n];
      UniqueSnoc(out);
      LegacyCleanKeys(pre);
      var x := Dict(ConvertItems(out[n].1.items, false));
      PutKeys(LegacyClean(pre), out[n].0, x);
      KeysOfSnoc(out);
    }
  }

  /** Distinct class names give distinct section names. */
  lemma SectionKeysUnique(out: Items, payload: Items, ext: string)
    requires UniqueKeys(payload) && KeysOf(out) == SectionKeys(KeysOf(payload), ext)
    ensures UniqueKeys(out)
  {
    if !UniqueKeys(out) {
      var i, j :| 0 <= i < j < |out| && out[i].0 == out[j].0;
      assert KeysOf(out)[i] == KeysOf(out)[j];
      SectionKeyInjective(payload[i].0, payload[j].0, ext);
      assert false;
    }
  }

  /** The output has one section per payload class, in the classes' order,
      named with `SectionKey`. */
  lemma LegacyOneSectionPerClass(payload: Items, ext: string)
    requires UniqueKeys(payload) && LegacyCleanUpValues(payload, ext).Ok?
    ensures KeysOf(LegacyCleanUpValues(payload, ext).value) == SectionKeys(KeysOf(payload), ext)
  {
    var out := LegacySections(payload, ext).value;
    LegacySectionsKeys(payload, ext);
    SectionKeysUnique(out, payload, ext);
    LegacyCleanKeys(out);
  }

  /** `_clean_up_values` as written: the two loops over `out_dict` and
      `clean_dict`. */
  method LegacyCleanUpValuesLoop(payload: Items, ext: string) returns (r: Result<Items>)
    ensures r == LegacyCleanUpValues(payload, ext)
  {
    var out: Items := [];
    var i := 0;
    while i < |payload|
      invariant 0 <= i <= |payload|
      invariant LegacySections(payload[..i], ext) == Ok(out)
    {
      assert payload[..i + 1][..i] == payload[..i];
      var d := AsDict(payload[i].1, true);
      if d.Err? {
        return Err(d.exc);
      }
      out := Put(out, SectionKey(payload[i].0, ext), d.value);
      i := i + 1;
    }
    assert payload[..i] == payload;
    var clean: Items := [];
    var j := 0;
    while j < |out|
      invariant 0 <= j <= |out|
      invariant clean == LegacyClean(out[..j])
    {
      assert out[..j + 1][..j] == out[..j];
      var inner := ConvertItemsLoop(out[j].1.items, false);
      clean := Put(clean, out[j].0, Dict(inner));
      j := j + 1;
    }
    assert out[..j] == out;
    return Ok(clean);
  }

  /** `Saver.save` in spock/saver.py: an extension without a writer raises
      ValueError, the name is the uuid, `.spck.cfg` and the extension, and a failed write is
      reported on stdout and swallowed, so the outcome does not depend on it. */
  function LegacySave(payload: Items, ext: string, uuid: string, writeOk: bool): (r: Result<Written>)
    ensures ext !in SupportedExtensions ==> r == Err(ValueError)
    ensures r.Ok? <==> ext in SupportedExtensions && LegacyCleanUpValues(payload, ext).Ok?
    ensures r.Ok? ==> r.value.name == LegacyFileName(uuid, ext) && r.value.written == writeOk
  {
    if ext !in SupportedExtensions then Err(ValueError)
    else
      var out :- LegacyCleanUpValues(payload, ext);
      Ok(Written(uuid + ".spck.cfg" + ext, out, writeOk))
  }
}

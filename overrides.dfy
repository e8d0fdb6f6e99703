/** Command-line overrides applied to a payload: the walk down nested dicts in
    `AttrPayload._handle_payload_override` (spock/backend/payload.py) and
    `TunerPayload._handle_payload_override` (spock/addons/tune/payload.py), and
    the older dict-level override of spock/backend/base.py.

    The source walks a reference `curr_ref` into the payload and assigns
    through it. Here the reference is the path of dict keys from the payload
    to the value it denotes: the walk never changes the payload, and the one
    assignment at its end rebuilds the dicts along that path. */
module Overrides {
  import opened Results
  import opened Dicts
  import opened Values
  import opened Types
  import opened Strs

  /** `cur[k]` on a payload value: a dict lookup, KeyError for a missing key,
      TypeError for a value that cannot be indexed by a string. */
  function Step(cur: Value, k: string): (r: Result<Value>)
    ensures r.Ok? <==> cur.Dict? && HasKey(cur.items, k)
    ensures r.Ok? ==> Lookup(cur.items, k) == Some(r.value)
    ensures !cur.Dict? ==> r == Err(TypeError)
  {
    if !cur.Dict? then Err(TypeError)
    else match Lookup(cur.items, k)
      case None => Err(KeyError)
      case Some(c) => Ok(c)
  }

  /** The value a chain of subscripts `root[p0][p1]...` denotes. */
  function ValueAt(root: Value, p: seq<string>): (r: Result<Value>)
    ensures p == [] ==> r == Ok(root)
    decreases |p|
  {
    if p == [] then Ok(root)
    else
      var c :- Step(root, p[0]);
      ValueAt(c, p[1..])
  }

  function Then(r: Result<Value>, k: string): Result<Value> {
    match r
    case Err(e) => Err(e)
    case Ok(c) => Step(c, k)
  }

  /** One more subscript at the end of a chain. */
  lemma {:induction false} ValueAtSnoc(root: Value, p: seq<string>, k: string)
    ensures ValueAt(root, p + [k]) == Then(ValueAt(root, p), k)
    decreases |p|
  {
    if p == [] {
      assert [k][1..] == [];
    } else {
      assert (p + [k])[1..] == p[1..] + [k];
      match Step(root, p[0])
      case Err(e) =>
      case Ok(c) => ValueAtSnoc(c, p[1..], k);
    }
  }

  /** `root` with the value that `p` denotes replaced by `v`; every dict on the
      way keeps its other entries and its order. */
  function SetAt(root: Value, p: seq<string>, v: Value): (r: Value)
    ensures root.Dict? && (p != [] || v.Dict?) ==> r.Dict?
    decreases |p|
  {
    if p == [] then v
    else if !root.Dict? then root
    else match Lookup(root.items, p[0])
      case None => root
      case Some(c) => Dict(Put(root.items, p[0], SetAt(c, p[1..], v)))
  }

  /** After the replacement the path denotes the new value. */
  lemma {:induction false} SetAtValueAt(root: Value, p: seq<string>, v: Value)
    requires ValueAt(root, p).Ok?
    ensures ValueAt(SetAt(root, p, v), p) == Ok(v)
    decreases |p|
  {
    if p != [] {
      var c := Lookup(root.items, p[0]).value;
      LookupPut(root.items, p[0], SetAt(c, p[1..], v), p[0]);
      SetAtValueAt(c, p[1..], v);
    }
  }

  /** An assignment through the reference at path `p` of the payload. */
  function Assign(payload: Items, p: seq<string>, v: Value): Items
    requires p != [] || v.Dict?
  {
    SetAt(Dict(payload), p, v).items
  }

  /** The special names `__n__` of a Python `dict` object (Python 3.11), by their `n`. */
  const DictDunders: set<string> := {
    "class", "class_getitem", "contains", "delattr", "delitem", "dir", "doc", "eq", "format",
    "ge", "getattribute", "getitem", "getstate", "gt", "hash", "init", "init_subclass", "ior",
    "iter", "le", "len", "lt", "ne", "new", "or", "reduce", "reduce_ex", "repr", "reversed",
    "ror", "setattr", "setitem", "sizeof", "str", "subclasshook"}

  /** The public methods of a Python `dict` object. */
  const DictMethods: set<string> := {
    "clear", "copy", "fromkeys", "get", "items", "keys", "pop", "popitem", "setdefault",
    "update", "values"}

  /** The attribute names of a dict, for which `hasattr` on a dict holds. */
  const DictAttributes: set<string> := (set n | n in DictDunders :: "__" + n + "__") + DictMethods

  // ---------------------------------------------------------------------------
  // spock/addons/tune/payload.py

  /** The end of the tuner's walk: on a dict, `False` is a no-op and any other
      value is assigned; anything else is a ValueError. */
  function TuneLast(payload: Items, p: seq<string>, cur: Value, k: string, value: Value): (r: Result<Items>)
    requires ValueAt(Dict(payload), p) == Ok(cur)
    ensures !cur.Dict? ==> r == Err(ValueError)
    ensures cur.Dict? && value == Bool(false) ==> r == Ok(payload)
    ensures cur.Dict? && value != Bool(false) ==> r.Ok? && ValueAt(Dict(r.value), p + [k]) == Ok(value)
  {
    if cur.Dict? && value.Bool? then
      if value.b then AssignKey(payload, p, cur, k, value) else Ok(payload)
    else if cur.Dict? then AssignKey(payload, p, cur, k, value)
    else Err(ValueError)
  }

  /** `curr_ref[k] = value` on the dict `cur` at path `p`. */
  function AssignKey(payload: Items, p: seq<string>, cur: Value, k: string, value: Value): (r: Result<Items>)
    requires cur.Dict? && ValueAt(Dict(payload), p) == Ok(cur)
    ensures r.Ok? && ValueAt(Dict(r.value), p + [k]) == Ok(value)
  {
    var d := Dict(Put(cur.items, k, value));
    SetAtValueAt(Dict(payload), p, d);
    ValueAtSnoc(Dict(Assign(payload, p, d)), p, k);
    LookupPut(cur.items, k, value, k);
    Ok(Assign(payload, p, d))
  }

  /** The payload after the tuner's first step: a missing first key gets an empty dict. */
  function TuneRoot(payload: Items, first: string): (r: Items)
    ensures HasKey(r, first)
    ensures HasKey(payload, first) ==> r == payload
  {
    if HasKey(payload, first) then payload
    else
      LookupPut(payload, first, Dict([]), first);
      Put(payload, first, Dict([]))
  }

  /** `TunerPayload._handle_payload_override`: the key's dot-separated segments
      but the last are subscripts from the payload down, and the last one is
      set on the dict they reach. */
  function TuneOverride(payload: Items, key: string, value: Value): (r: Result<Items>) {
    var ks := Split(key, '.');
    var p0 := TuneRoot(payload, ks[0]);
    var n := |ks|;
    var cur :- ValueAt(Dict(p0), ks[..n - 1]);
    TuneLast(p0, ks[..n - 1], cur, ks[n - 1], value)
  }

  /** `curr_ref = curr_ref[k]` for each segment `k` of `q` in turn. */
  method WalkRef(root: Value, q: seq<string>) returns (r: Result<Value>)
    ensures r == ValueAt(root, q)
  {
    var cur := root;
    var idx := 0;
    assert q[..0] == [];
    while idx < |q|
      invariant 0 <= idx <= |q|
      invariant ValueAt(root, q[..idx]) == Ok(cur)
    {
      var next := Step(cur, q[idx]);
      ValueAtNext(root, q, idx, cur);
      if next.Err? {
        return Err(next.exc);
      }
      cur := next.value;
      idx := idx + 1;
    }
    assert q[..idx] == q;
    return Ok(cur);
  }

  /** The tuner's override, walking `curr_ref` segment by segment. */
  method TuneHandlePayloadOverride(payload: Items, key: string, value: Value) returns (r: Result<Items>)
    ensures r == TuneOverride(payload, key, value)
  {
    var ks := Split(key, '.');
    var p := payload;
    if !HasKey(p, ks[0]) {
      p := Put(p, ks[0], Dict([]));
    }
    assert p == TuneRoot(payload, ks[0]);
    var q := ks[..|ks| - 1];
    var cur := WalkRef(Dict(p), q);
    if cur.Err? {
      return Err(cur.exc);
    }
    r := TuneLast(p, q, cur.value, ks[|ks| - 1], value);
  }

  /** One step of the walk along `p`: the next prefix denotes the next value,
      and an error at a prefix is the error of the whole chain. */
  lemma ValueAtNext(root: Value, p: seq<string>, i: int, cur: Value)
    requires 0 <= i < |p| && ValueAt(root, p[..i]) == Ok(cur)
    ensures ValueAt(root, p[..i + 1]) == Step(cur, p[i])
    ensures Step(cur, p[i]).Err? ==> ValueAt(root, p) == Step(cur, p[i])
  {
    ValueAtSnoc(root, p[..i], p[i]);
    assert p[..i + 1] == p[..i] + [p[i]];
    if Step(cur, p[i]).Err? {
      PrefixFails(root, p, i + 1);
    }
  }

  /** A chain that fails on a prefix fails with the same error. */
  lemma {:induction false} PrefixFails(root: Value, p: seq<string>, i: int)
    requires 0 <= i <= |p| && ValueAt(root, p[..i]).Err?
    ensures ValueAt(root, p) == ValueAt(root, p[..i])
    decreases |p|
  {
    if i > 0 {
      assert p[..i][0] == p[0] && p[..i][1..] == p[1..][..i - 1];
      match Step(root, p[0])
      case Err(e) =>
      case Ok(c) => PrefixFails(c, p[1..], i - 1);
    }
  }

  /** A two-segment key whose class is missing from the payload creates the
      class dict holding just the new value. */
  lemma TuneNewClass(payload: Items, cls: string, field: string, value: Value)
    requires '.' !in cls && '.' !in field && !HasKey(payload, cls) && value != Bool(false)
    ensures TuneOverride(payload, cls + "." + field, value)
            == Ok(Put(payload, cls, Dict([(field, value)])))
  {
    var key := cls + "." + field;
    assert Join([cls, field], '.') == key;
    SplitJoin([cls, field], '.');
    var p0 := Put(payload, cls, Dict([]));
    LookupPut(payload, cls, Dict([]), cls);
    assert TuneRoot(payload, cls) == p0;
    assert [cls, field][..1] == [cls];
    assert ValueAt(Dict(p0), [cls]) == Ok(Dict([])) by {
      assert [cls][1..] == [];
    }
    var dd := Dict([(field, value)]);
    assert Put([], field, value) == [(field, value)];
    assert SetAt(Dict(p0), [cls], dd) == Dict(Put(p0, cls, dd)) by {
      assert [cls][1..] == [];
    }
    PutPut(payload, cls, Dict([]), dd);
    assert TuneLast(p0, [cls], Dict([]), field, value) == Ok(Put(payload, cls, dd));
  }

  // ---------------------------------------------------------------------------
  // spock/backend/payload.py, AttrPayload._handle_payload_override

  /** The names for which `hasattr(sys.modules["spock"].backend.config, name)`
      holds, and the attrs attributes of those that are spock classes. */
  datatype Registry = Registry(names: set<string>, classes: map<string, seq<Attribute>>)

  function FindAttr(attrs: seq<Attribute>, name: string): (r: Option<Attribute>)
    ensures r.Some? ==> r.value in attrs && r.value.name == name
    ensures r.None? ==> forall a :: a in attrs ==> a.name != name
  {
    if attrs == [] then None
    else if attrs[0].name == name then Some(attrs[0])
    else FindAttr(attrs[1..], name)
  }

  /** `getattr(getattr(config, cls).__attrs_attrs__, name).type` */
  function AttrTypeOf(reg: Registry, cls: string, name: string): (r: Result<PyType>)
    ensures r.Err? ==> r.exc == AttributeError
  {
    if cls !in reg.classes then Err(AttributeError)
    else match FindAttr(reg.classes[cls], name)
      case None => Err(AttributeError)
      case Some(a) => Ok(a.typ)
  }

  /** `payload[first][prev] = cls`: records in the first class which class a
      later segment refers to. */
  function LinkRef(payload: Items, first: string, prev: string, cls: string): (r: Result<Items>)
    ensures r.Ok? ==> forall k :: HasKey(r.value, k) <==> HasKey(payload, k)
  {
    match Lookup(payload, first)
    case None => Err(KeyError)
    case Some(d) =>
      if d.Dict? then
        PutHasKeys(payload, first, Dict(Put(d.items, prev, Str(cls))));
        Ok(Put(payload, first, Dict(Put(d.items, prev, Str(cls)))))
      else Err(TypeError)
  }

  /** `val.update({name: None})` for each element of a repeated class's list;
      elements that are not dicts raise AttributeError. */
  function BlankEach(es: seq<Value>, name: string): (r: Result<seq<Value>>)
    ensures r.Ok? ==> |r.value| == |es|
    ensures r.Ok? ==> forall i :: 0 <= i < |es| ==> es[i].Dict? && r.value[i] == Dict(Put(es[i].items, name, Null))
    ensures r.Err? ==> r.exc == AttributeError && exists i :: 0 <= i < |es| && !es[i].Dict?
  {
    if es == [] then Ok([])
    else if !es[0].Dict? then Err(AttributeError)
    else
      var rest :- BlankEach(es[1..], name);
      Ok([Dict(Put(es[0].items, name, Null))] + rest)
  }

  /** The repeated-class set-up of the prelude: an empty entry for `cls` becomes
      a list of `n` dicts `{name: None}`; a non-empty list or tuple of dicts
      gains the key `name` in each dict. */
  function Replicate(payload: Items, cls: string, name: string, n: nat): (r: Result<Items>)
    ensures r.Ok? ==> forall k :: HasKey(r.value, k) <==> HasKey(payload, k)
  {
    match Lookup(payload, cls)
    case None => Err(KeyError)
    case Some(cur) =>
      match Len(cur)
      case None => Err(TypeError)
      case Some(m) =>
        if m == 0 then
          PutHasKeys(payload, cls, List(seq(n, _ => Dict([(name, Null)]))));
          Ok(Put(payload, cls, List(seq(n, _ => Dict([(name, Null)])))))
        else if cur.List? || cur.Tuple? then
          var es :- BlankEach(cur.elems, name);
          PutHasKeys(payload, cls, if cur.List? then List(es) else Tuple(es));
          Ok(Put(payload, cls, if cur.List? then List(es) else Tuple(es)))
        else Err(AttributeError)
  }

  /** The prelude loop over the segments that name registered classes, from
      segment `idx` on. */
  function Prelude(payload: Items, ks: seq<string>, value: Value, reg: Registry, idx: nat): (r: Result<Items>)
    requires |ks| >= 1
    ensures r.Ok? ==> forall k :: HasKey(payload, k) ==> HasKey(r.value, k)
    decreases |ks| - idx
  {
    if idx >= |ks| then Ok(payload)
    else if ks[idx] !in reg.names then Prelude(payload, ks, value, reg, idx + 1)
    else
      var p1 := if HasKey(payload, ks[idx]) then payload else Put(payload, ks[idx], Dict([]));
      PutHasKeys(payload, ks[idx], Dict([]));
      if idx == 0 then Prelude(p1, ks, value, reg, idx + 1)
      else
        var p2 :- LinkRef(p1, ks[0], ks[idx - 1], ks[idx]);
        var t :- AttrTypeOf(reg, ks[idx], ks[|ks| - 1]);
        var p3 :- if value.List? && t != Prim("list") then Replicate(p2, ks[idx], ks[|ks| - 1], |value.elems|)
                  else Ok(p2);
        Prelude(p3, ks, value, reg, idx + 1)
  }

  /** `value[i]` for a command-line value of length at least `i + 1`. */
  function ElemAt(value: Value, i: nat): (r: Result<Value>)
    requires Len(value).Some? && i < Len(value).value
  {
    match value
    case List(es) => Ok(es[i])
    case Tuple(es) => Ok(es[i])
    case Str(s) => Ok(Str([s[i]]))
    case Dict(_) => Err(KeyError)
  }

  /** `split in val`, then `val[split] = value[ref_idx]`, for element `val`. */
  function SetElem(val: Value, k: string, x: Result<Value>): (r: Result<Value>)
    ensures r.Ok? ==> val.Dict? && HasKey(val.items, k) && x.Ok? && r.value == Dict(Put(val.items, k, x.value))
    ensures val.Dict? && !HasKey(val.items, k) ==> r == Err(ValueError)
  {
    match val
    case Dict(items) =>
      if !HasKey(items, k) then Err(ValueError)
      else var y :- x; Ok(Dict(Put(items, k, y)))
    case Str(s) => if IsSubstring(k, s) then Err(TypeError) else Err(ValueError)
    case List(es) => if Str(k) in es then Err(TypeError) else Err(ValueError)
    case Tuple(es) => if Str(k) in es then Err(TypeError) else Err(ValueError)
    case _ => Err(TypeError)
  }

  /** The loop over a list of dicts at the end of the walk: element `i` gets
      `value[i]` under `k`. */
  function SetEach(es: seq<Value>, k: string, value: Value, i: nat): (r: Result<seq<Value>>)
    requires Len(value).Some? && i + |es| == Len(value).value
    ensures r.Ok? ==> |r.value| == |es|
    ensures r.Ok? ==> forall j :: 0 <= j < |es| ==>
              (es[j].Dict? && HasKey(es[j].items, k) && ElemAt(value, i + j).Ok?
               && r.value[j] == Dict(Put(es[j].items, k, ElemAt(value, i + j).value)))
    decreases |es|
  {
    if es == [] then Ok([])
    else
      var e :- SetElem(es[0], k, ElemAt(value, i));
      var rest :- SetEach(es[1..], k, value, i + 1);
      Ok([e] + rest)
  }

  /** The end of the walk, on the value `cur` at path `p`: on a dict a `False`
      flag is a no-op and any other value is assigned; on a list of dicts each
      element is set from the matching element of the value, whose length must
      agree; anything else is a ValueError. */
  function AttrLast(payload: Items, p: seq<string>, cur: Value, k: string, value: Value): (r: Result<Items>)
    requires ValueAt(Dict(payload), p) == Ok(cur)
    ensures cur.Dict? && value == Bool(false) ==> r == Ok(payload)
    ensures cur.Dict? && value != Bool(false) ==> r.Ok? && ValueAt(Dict(r.value), p + [k]) == Ok(value)
    ensures cur.List? && Len(value).Some? && Len(value).value != |cur.elems| ==> r == Err(ValueError)
    ensures cur.List? && Len(value).None? ==> r == Err(TypeError)
    ensures !cur.Dict? && !cur.List? ==> r == Err(ValueError)
  {
    if cur.Dict? && value.Bool? then
      if value.b then AssignKey(payload, p, cur, k, value) else Ok(payload)
    else if cur.Dict? then AssignKey(payload, p, cur, k, value)
    else if cur.List? then
      match Len(value)
      case None => Err(TypeError)
      case Some(n) =>
        if n == |cur.elems| then
          var es :- SetEach(cur.elems, k, value, 0);
          Ok(Assign(payload, p, List(es)))
        else Err(ValueError)
    else Err(ValueError)
  }

  /** The walk from segment `i`, with `curr_ref` the value `cur` at path `p`. A
      segment that names a registered class present in the payload switches the
      reference to that class's entry, when the reference is a string or when
      the entry is a string naming a registered class; otherwise the last
      segment ends the walk, and any other segment is a subscript. */
  function Walk(payload: Items, ks: seq<string>, i: nat, p: seq<string>, cur: Value, value: Value, reg: Registry): (r: Result<Items>)
    requires i < |ks| && ValueAt(Dict(payload), p) == Ok(cur)
    decreases |ks| - i
  {
    var k := ks[i];
    var entry := Lookup(payload, k);
    if i != 0 && entry.Some? && ((cur.Str? && k in reg.names) || (entry.value.Str? && entry.value.s in reg.names)) then
      if i + 1 == |ks| then Ok(payload) else Walk(payload, ks, i + 1, [k], entry.value, value, reg)
    else if i == |ks| - 1 then AttrLast(payload, p, cur, k, value)
    else
      ValueAtSnoc(Dict(payload), p, k);
      var c :- Step(cur, k);
      Walk(payload, ks, i + 1, p + [k], c, value, reg)
  }

  /** `AttrPayload._handle_payload_override`: the prelude, then the walk. */
  function AttrOverride(payload: Items, key: string, value: Value, reg: Registry): (r: Result<Items>) {
    var ks := Split(key, '.');
    var p1 :- Prelude(payload, ks, value, reg, 0);
    Walk(p1, ks, 0, [], Dict(p1), value, reg)
  }

  /** One pass of the prelude loop of `_handle_payload_override`, on segment `idx`. */
  method PreludeStep(p: Items, ks: seq<string>, value: Value, reg: Registry, idx: nat) returns (r: Result<Items>)
    requires idx < |ks|
    ensures r.Err? ==> Prelude(p, ks, value, reg, idx) == r
    ensures r.Ok? ==> Prelude(p, ks, value, reg, idx) == Prelude(r.value, ks, value, reg, idx + 1)
  {
    if ks[idx] !in reg.names {
      return Ok(p);
    }
    var q := p;
    if !HasKey(q, ks[idx]) {
      q := Put(q, ks[idx], Dict([]));
    }
    if idx == 0 {
      return Ok(q);
    }
    var linked := LinkRef(q, ks[0], ks[idx - 1], ks[idx]);
    if linked.Err? {
      return Err(linked.exc);
    }
    q := linked.value;
    var t := AttrTypeOf(reg, ks[idx], ks[|ks| - 1]);
    if t.Err? {
      return Err(t.exc);
    }
    if value.List? && t.value != Prim("list") {
      var blanked := Replicate(q, ks[idx], ks[|ks| - 1], |value.elems|);
      if blanked.Err? {
        return Err(blanked.exc);
      }
      q := blanked.value;
    }
    return Ok(q);
  }

  /** `AttrPayload._handle_payload_override`, as the two loops of the source:
      the prelude over the segments naming registered classes, then the walk of
      `curr_ref` down the payload. */
  method HandlePayloadOverride(payload: Items, key: string, value: Value, reg: Registry) returns (r: Result<Items>)
    ensures r == AttrOverride(payload, key, value, reg)
  {
    var ks := Split(key, '.');
    var p := payload;
    var idx := 0;
    while idx < |ks|
      invariant 0 <= idx <= |ks|
      invariant Prelude(payload, ks, value, reg, 0) == Prelude(p, ks, value, reg, idx)
    {
      var next := PreludeStep(p, ks, value, reg, idx);
      if next.Err? {
        return Err(next.exc);
      }
      p := next.value;
      idx := idx + 1;
    }
    r := WalkPayload(p, ks, value, reg);
  }

  /** The walk loop of `_handle_payload_override`. */
  method WalkPayload(payload: Items, ks: seq<string>, value: Value, reg: Registry) returns (r: Result<Items>)
    requires |ks| >= 1
    ensures r == Walk(payload, ks, 0, [], Dict(payload), value, reg)
  {
    var path: seq<string> := [];
    var cur := Dict(payload);
    var i := 0;
    while true
      invariant 0 <= i < |ks|
      invariant ValueAt(Dict(payload), path) == Ok(cur)
      invariant Walk(payload, ks, 0, [], Dict(payload), value, reg) == Walk(payload, ks, i, path, cur, value, reg)
      decreases |ks| - i
    {
      var k := ks[i];
      var entry := Lookup(payload, k);
      if i != 0 && entry.Some? && ((cur.Str? && k in reg.names) || (entry.value.Str? && entry.value.s in reg.names)) {
        if i + 1 == |ks| {
          return Ok(payload);
        }
        path, cur := [k], entry.value;
      } else if i == |ks| - 1 {
        r := HandleLast(payload, path, cur, k, value);
        return;
      } else {
        var next := Step(cur, k);
        if next.Err? {
          return Err(next.exc);
        }
        ValueAtSnoc(Dict(payload), path, k);
        path, cur := path + [k], next.value;
      }
      i := i + 1;
    }
  }

  /** The last segment of the walk, with the loop over a list of repeated classes. */
  method HandleLast(payload: Items, p: seq<string>, cur: Value, k: string, value: Value) returns (r: Result<Items>)
    requires ValueAt(Dict(payload), p) == Ok(cur)
    ensures r == AttrLast(payload, p, cur, k, value)
  {
    if cur.Dict? {
      if value == Bool(false) {
        r := Ok(payload);
      } else {
        r := AssignKey(payload, p, cur, k, value);
      }
    } else if cur.List? {
      var n := Len(value);
      if n.None? {
        r := Err(TypeError);
      } else if n.value != |cur.elems| {
        r := Err(ValueError);
      } else {
        var es := UpdateEach(cur.elems, k, value);
        r := if es.Ok? then Ok(Assign(payload, p, List(es.value))) else Err(es.exc);
      }
    } else {
      r := Err(ValueError);
    }
  }

  /** `SetEach` from element `j` on, after the elements before `j` became `acc`. */
  function Prepend(acc: seq<Value>, rest: Result<seq<Value>>): Result<seq<Value>> {
    match rest
    case Err(e) => Err(e)
    case Ok(vs) => Ok(acc + vs)
  }

  /** `for ref_idx, val in enumerate(curr_ref): val[split] = value[ref_idx]`. */
  method UpdateEach(es: seq<Value>, k: string, value: Value) returns (r: Result<seq<Value>>)
    requires Len(value) == Some(|es|)
    ensures r == SetEach(es, k, value, 0)
  {
    var acc: seq<Value> := [];
    var j := 0;
    PrependNone(es, k, value);
    while j < |es|
      invariant 0 <= j <= |es|
      invariant SetEach(es, k, value, 0) == Prepend(acc, SetEach(es[j..], k, value, j))
    {
      var e := SetElem(es[j], k, ElemAt(value, j));
      SetEachStep(es, k, value, j, acc);
      if e.Err? {
        return Err(e.exc);
      }
      acc := acc + [e.value];
      j := j + 1;
    }
    assert es[j..] == [];
    assert SetEach(es[j..], k, value, j) == Ok([]);
    assert acc + [] == acc;
    r := Ok(acc);
  }

  lemma PrependNone(es: seq<Value>, k: string, value: Value)
    requires Len(value) == Some(|es|)
    ensures SetEach(es, k, value, 0) == Prepend([], SetEach(es[0..], k, value, 0))
  {
    assert es[0..] == es;
    match SetEach(es, k, value, 0)
    case Err(_) =>
    case Ok(vs) => assert [] + vs == vs;
  }

  /** One element of the loop: an error ends it, a result joins the prefix. */
  lemma SetEachStep(es: seq<Value>, k: string, value: Value, j: nat, acc: seq<Value>)
    requires Len(value) == Some(|es|) && j < |es|
    ensures var e := SetElem(es[j], k, ElemAt(value, j));
            Prepend(acc, SetEach(es[j..], k, value, j))
            == if e.Err? then Err(e.exc) else Prepend(acc + [e.value], SetEach(es[j + 1..], k, value, j + 1))
  {
    assert es[j..][0] == es[j] && es[j..][1..] == es[j + 1..];
    var e := SetElem(es[j], k, ElemAt(value, j));
    if e.Ok? {
      match SetEach(es[j + 1..], k, value, j + 1)
      case Err(_) =>
      case Ok(vs) => assert acc + ([e.value] + vs) == (acc + [e.value]) + vs;
    }
  }

  /** A dot-free key that is not a registered class name sets a top-level entry. */
  lemma AttrOverrideGlobal(payload: Items, key: string, value: Value, reg: Registry)
    requires '.' !in key && key !in reg.names
    ensures AttrOverride(payload, key, value, reg)
            == if value == Bool(false) then Ok(payload) else Ok(Put(payload, key, value))
  {
    SplitNoSep(key, '.');
    assert Split(key, '.') == [key];
    assert Prelude(payload, [key], value, reg, 0) == Ok(payload);
    assert ([] + [key]) == [key];
    if value != Bool(false) {
      AssignKeyTop(payload, key, value);
    }
  }

  lemma AssignKeyTop(payload: Items, k: string, value: Value)
    ensures AssignKey(payload, [], Dict(payload), k, value) == Ok(Put(payload, k, value))
  {
  }

  /** `Class.field` with an unregistered field name assigns into the class's
      dict, creating it when the class is registered but absent. */
  lemma AttrOverrideField(payload: Items, cls: string, field: string, value: Value, reg: Registry)
    requires '.' !in cls && '.' !in field && cls in reg.names && field !in reg.names
    requires value != Bool(false)
    requires match Lookup(payload, cls) case None => true case Some(d) => d.Dict?
    requires var e := Lookup(payload, field); !(e.Some? && e.value.Str? && e.value.s in reg.names)
    ensures var r := AttrOverride(payload, cls + "." + field, value, reg);
            r.Ok? && ValueAt(Dict(r.value), [cls, field]) == Ok(value)
  {
    assert Join([cls, field], '.') == cls + "." + field;
    SplitJoin([cls, field], '.');
    var p1 := PreludeClassField(payload, cls, field, value, reg);
    var d := WalkClassField(p1, cls, field, value, reg);
    assert [cls] + [field] == [cls, field];
  }

  /** The prelude of `Class.field` only makes sure the class has a dict. */
  lemma PreludeClassField(payload: Items, cls: string, field: string, value: Value, reg: Registry)
      returns (p1: Items)
    requires cls in reg.names && field !in reg.names
    requires match Lookup(payload, cls) case None => true case Some(d) => d.Dict?
    ensures Prelude(payload, [cls, field], value, reg, 0) == Ok(p1)
    ensures Lookup(p1, cls).Some? && Lookup(p1, cls).value.Dict?
    ensures Lookup(p1, field) == Lookup(payload, field)
  {
    p1 := if HasKey(payload, cls) then payload else Put(payload, cls, Dict([]));
    LookupPut(payload, cls, Dict([]), cls);
    LookupPut(payload, cls, Dict([]), field);
    assert Prelude(p1, [cls, field], value, reg, 1) == Ok(p1);
  }

  /** The walk of `Class.field` steps into the class dict and ends there. */
  lemma WalkClassField(p1: Items, cls: string, field: string, value: Value, reg: Registry)
      returns (d: Value)
    requires Lookup(p1, cls).Some? && Lookup(p1, cls).value.Dict?
    requires var e := Lookup(p1, field); !(e.Some? && e.value.Str? && e.value.s in reg.names)
    ensures d.Dict? && ValueAt(Dict(p1), [cls]) == Ok(d)
    ensures Walk(p1, [cls, field], 0, [], Dict(p1), value, reg) == AttrLast(p1, [cls], d, field, value)
  {
    d := Lookup(p1, cls).value;
    assert ValueAt(Dict(p1), [cls]) == Ok(d) by {
      assert [cls][1..] == [];
    }
    assert [] + [cls] == [cls];
    assert Walk(p1, [cls, field], 0, [], Dict(p1), value, reg) == Walk(p1, [cls, field], 1, [cls], d, value, reg);
  }

  /** At the end of the walk on a list of repeated classes, a value of another
      length is refused. */
  lemma AttrListLengthMismatch(payload: Items, p: seq<string>, es: seq<Value>, k: string, value: Value)
    requires ValueAt(Dict(payload), p) == Ok(List(es))
    requires Len(value).Some? && Len(value).value != |es|
    ensures AttrLast(payload, p, List(es), k, value) == Err(ValueError)
  {
  }

  // ---------------------------------------------------------------------------
  // spock/backend/base.py, the older dict-level override

  /** `_dict_payload_override` as written: `hasattr(payload, dict_key)` asks
      for an attribute of the dict object, not a key, so unless the class name
      happens to name a dict method the class entry is reset to `{}` first. */
  function DictPayloadOverride(payload: Items, dictKey: string, valName: string, value: Value): (r: Result<Items>)
    ensures dictKey !in DictAttributes ==> r == Ok(Put(payload, dictKey, Dict([(valName, value)])))
  {
    var p1 := if dictKey in DictAttributes then payload else Put(payload, dictKey, Dict([]));
    LookupPut(payload, dictKey, Dict([]), dictKey);
    PutPut(payload, dictKey, Dict([]), Dict([(valName, value)]));
    match Lookup(p1, dictKey)
    case None => Err(KeyError)
    case Some(d) =>
      if d.Dict? then Ok(Put(p1, dictKey, Dict(Put(d.items, valName, value)))) else Err(AttributeError)
  }

  /** It loses what the class's dict held: an override of `A.y` drops `A.x`. */
  lemma DictPayloadOverrideDropsEntries()
    ensures DictPayloadOverride([("A", Dict([("x", Int(1))]))], "A", "y", Int(2))
            == Ok([("A", Dict([("y", Int(2))]))])
  {
    CapitalisedNotDictAttribute("A");
    var p: Items := [("A", Dict([("x", Int(1))]))];
    assert Put(p, "A", Dict([("y", Int(2))])) == [("A", Dict([("y", Int(2))]))];
  }

  /** Every attribute name of a dict starts with an underscore or a lower-case
      letter, so a capitalised class name is never one. */
  lemma CapitalisedNotDictAttribute(name: string)
    requires |name| > 0 && 'A' <= name[0] <= 'Z'
    ensures name !in DictAttributes
  {
    forall n | n in DictDunders ensures name != "__" + n + "__" {
      assert ("__" + n + "__")[0] == '_';
    }
    forall m | m in DictMethods ensures name != m {
      assert 'a' <= m[0] <= 'z';
    }
  }

  /** `_dict_payload_override` as its documentation describes it: the class
      dict is created only when the payload does not have one. */
  function DictPayloadOverrideIntended(payload: Items, dictKey: string, valName: string, value: Value): (r: Result<Items>)
  {
    var p1 := if HasKey(payload, dictKey) then payload else Put(payload, dictKey, Dict([]));
    LookupPut(payload, dictKey, Dict([]), dictKey);
    match Lookup(p1, dictKey)
    case None => Err(KeyError)
    case Some(d) =>
      if d.Dict? then Ok(Put(p1, dictKey, Dict(Put(d.items, valName, value)))) else Err(AttributeError)
  }

  /** The intended override sets the one value and keeps every other entry of
      an existing class dict. */
  lemma DictPayloadOverrideKeeps(payload: Items, dictKey: string, d: Items, valName: string, value: Value, other: string)
    requires Lookup(payload, dictKey) == Some(Dict(d))
    ensures var r := DictPayloadOverrideIntended(payload, dictKey, valName, value);
            r.Ok? && Lookup(r.value, dictKey) == Some(Dict(Put(d, valName, value)))
            && ValueAt(Dict(r.value), [dictKey, valName]) == Ok(value)
            && (other != valName ==> ValueAt(Dict(r.value), [dictKey, other]) == ValueAt(Dict(payload), [dictKey, other]))
  {
    var inner := Put(d, valName, value);
    LookupPut(payload, dictKey, Dict(inner), dictKey);
    LookupPut(d, valName, value, valName);
    LookupPut(d, valName, value, other);
    assert [dictKey, valName][1..] == [valName];
    assert [dictKey, other][1..] == [other];
    assert [valName][1..] == [] && [other][1..] == [];
  }

  /** Without a class dict, the intended override creates one holding the value. */
  lemma DictPayloadOverrideCreates(payload: Items, dictKey: string, valName: string, value: Value)
    requires !HasKey(payload, dictKey)
    ensures DictPayloadOverrideIntended(payload, dictKey, valName, value)
            == Ok(Put(payload, dictKey, Dict([(valName, value)])))
  {
    LookupPut(payload, dictKey, Dict([]), dictKey);
    PutPut(payload, dictKey, Dict([]), Dict([(valName, value)]));
  }

  /** A value of `None` and the names `config` and `help` are never applied. */
  predicate SkippedArg(k: string, v: Value) {
    k == "config" || k == "help" || v == Null
  }

  /** One command-line value in the older `_handle_overrides`: a dotted name
      overrides inside its class's dict (two segments are used), a plain name
      sets a top-level entry; a `False` flag changes nothing. */
  function BaseOverrideOne(payload: Items, k: string, v: Value): (r: Result<Items>)
    ensures SkippedArg(k, v) || v == Bool(false) ==> r == Ok(payload)
    ensures !SkippedArg(k, v) && v != Bool(false) && |Split(k, '.')| > 1 && Split(k, '.')[0] !in DictAttributes
            ==> r == Ok(Put(payload, Split(k, '.')[0], Dict([(Split(k, '.')[1], v)])))
    ensures !SkippedArg(k, v) && v != Bool(false) && |Split(k, '.')| == 1 ==> r.Ok? && Lookup(r.value, k) == Some(v)
  {
    var parts := Split(k, '.');
    LookupPut(payload, k, v, k);
    if SkippedArg(k, v) || v == Bool(false) then Ok(payload)
    else if |parts| > 1 then DictPayloadOverride(payload, parts[0], parts[1], v)
    else Ok(Put(payload, k, v))
  }

  /** One command-line value as the older `_handle_overrides` intends it: a
      dotted name sets the value inside its class's dict and keeps the rest. */
  function BaseOverrideOneIntended(payload: Items, k: string, v: Value): (r: Result<Items>)
    ensures SkippedArg(k, v) || v == Bool(false) ==> r == Ok(payload)
    ensures !SkippedArg(k, v) && v != Bool(false) && |Split(k, '.')| > 1
            ==> r == DictPayloadOverrideIntended(payload, Split(k, '.')[0], Split(k, '.')[1], v)
    ensures !SkippedArg(k, v) && v != Bool(false) && |Split(k, '.')| == 1 ==> r.Ok? && Lookup(r.value, k) == Some(v)
  {
    var parts := Split(k, '.');
    LookupPut(payload, k, v, k);
    if SkippedArg(k, v) || v == Bool(false) then Ok(payload)
    else if |parts| > 1 then DictPayloadOverrideIntended(payload, parts[0], parts[1], v)
    else Ok(Put(payload, k, v))
  }

  /** As written, overriding `A.y` from the command line drops `A.x`. */
  lemma BaseOverrideOneDropsEntries()
    ensures BaseOverrideOne([("A", Dict([("x", Int(1))]))], "A.y", Int(2)) == Ok([("A", Dict([("y", Int(2))]))])
  {
    SplitClassField();
    DictPayloadOverrideDropsEntries();
  }

  /** As intended, the same override keeps `A.x` and adds `A.y`. */
  lemma BaseOverrideOneIntendedKeepsEntries()
    ensures BaseOverrideOneIntended([("A", Dict([("x", Int(1))]))], "A.y", Int(2)) == Ok([("A", Dict([("x", Int(1)), ("y", Int(2))]))])
  {
    SplitClassField();
    var d: Items := [("x", Int(1))];
    var p: Items := [("A", Dict(d))];
    var inner: Items := [("x", Int(1)), ("y", Int(2))];
    assert p[0].0 == "A" && HasKey(p, "A");
    assert Put(d, "y", Int(2)) == inner;
    assert Put(p, "A", Dict(inner)) == [("A", Dict(inner))];
    assert DictPayloadOverrideIntended(p, "A", "y", Int(2)) == Ok([("A", Dict(inner))]);
  }

  lemma SplitClassField()
    ensures Split("A.y", '.') == ["A", "y"]
  {
    SplitNoSep("y", '.');
    SplitSep("y", '.');
    assert ['.'] + "y" == ".y";
    SplitCons('A', ".y", '.');
    assert ['A'] + ".y" == "A.y";
    assert Split(".y", '.') == ["", "y"];
    assert ['A'] + "" == "A";
  }

  function BaseOverrides(payload: Items, args: Items): (r: Result<Items>)
    decreases |args|
  {
    if args == [] then Ok(payload)
    else
      var p :- BaseOverrideOne(payload, args[0].0, args[0].1);
      BaseOverrides(p, args[1..])
  }

  /** The overrides applied one by one as intended. */
  function BaseOverridesIntended(payload: Items, args: Items): (r: Result<Items>)
    decreases |args|
  {
    if args == [] then Ok(payload)
    else
      var p :- BaseOverrideOneIntended(payload, args[0].0, args[0].1);
      BaseOverridesIntended(p, args[1..])
  }

  /** As intended, a single `Class.field` override of an existing class dict
      keeps the class's other fields. */
  lemma BaseOverridesIntendedKeeps(payload: Items, k: string, v: Value, d: Items, other: string)
    requires !SkippedArg(k, v) && v != Bool(false) && |Split(k, '.')| > 1
    requires Lookup(payload, Split(k, '.')[0]) == Some(Dict(d)) && other != Split(k, '.')[1]
    ensures var r := BaseOverridesIntended(payload, [(k, v)]);
            r.Ok? && ValueAt(Dict(r.value), Split(k, '.')[..2]) == Ok(v)
            && ValueAt(Dict(r.value), [Split(k, '.')[0], other]) == ValueAt(Dict(payload), [Split(k, '.')[0], other])
  {
    var parts := Split(k, '.');
    DictPayloadOverrideKeeps(payload, parts[0], d, parts[1], v, other);
    assert parts[..2] == [parts[0], parts[1]];
    assert [(k, v)][1..] == [];
  }

  /** Skipped entries can be dropped from the arguments without changing the result. */
  lemma {:induction false} BaseOverridesSkip(payload: Items, a: Items, k: string, v: Value, b: Items)
    requires SkippedArg(k, v)
    ensures BaseOverrides(payload, a + [(k, v)] + b) == BaseOverrides(payload, a + b)
    decreases |a|
  {
    if a == [] {
      assert ([] + [(k, v)] + b)[1..] == b;
      assert [] + b == b;
    } else {
      assert (a + [(k, v)] + b)[0] == a[0] && (a + [(k, v)] + b)[1..] == a[1..] + [(k, v)] + b;
      assert (a + b)[0] == a[0] && (a + b)[1..] == a[1..] + b;
      match BaseOverrideOne(payload, a[0].0, a[0].1)
      case Err(e) =>
      case Ok(p) => BaseOverridesSkip(p, a[1..], k, v, b);
    }
  }

  /** The older `_handle_overrides`, looping over the command-line namespace. */
  method BaseHandleOverrides(payload: Items, args: Items) returns (r: Result<Items>)
    ensures r == BaseOverrides(payload, args)
  {
    var p := payload;
    var i := 0;
    assert args[0..] == args;
    while i < |args|
      invariant 0 <= i <= |args|
      invariant BaseOverrides(payload, args) == BaseOverrides(p, args[i..])
    {
      assert args[i..][0] == args[i] && args[i..][1..] == args[i + 1..];
      var k := args[i].0;
      var v := args[i].1;
      var parts := Split(k, '.');
      if |parts| > 1 {
        if !SkippedArg(k, v) && v != Bool(false) {
          var q := DictPayloadOverride(p, parts[0], parts[1], v);
          if q.Err? {
            return Err(q.exc);
          }
          p := q.value;
        }
      } else if !SkippedArg(k, v) && v != Bool(false) {
        p := Put(p, k, v);
      }
      i := i + 1;
    }
    assert args[i..] == [];
    return Ok(p);
  }
}

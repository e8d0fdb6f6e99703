/** Payload assembly (spock/backend/payload.py, with the older variants in
    spock/backend/base.py, spock/backend/attr/payload.py,
    spock/backend/dataclass/payload.py and spock/addons/tune/payload.py): the
    chain of included config files, the validation and merge of each file's
    entries into the payload, and the command-line overrides applied on top. */
module Payload {
  import opened Results
  import opened Dicts
  import opened Values
  import opened Types
  import opened Strs
  import opened Handler
  import TypeUtils
  import opened Overrides

  // ---------------------------------------------------------------------------
  // Config-file dependencies

  /** Why `_handle_dependencies` refuses a path; both are ValueErrors. */
  datatype DepsError = DuplicateRead | CyclicDependency

  /** The refusal `_handle_dependencies` raises for `path`, if any. */
  function DependencyError(paths: seq<string>, relPaths: seq<string>, path: string, root: bool): (r: Option<DepsError>)
    ensures r == Some(DuplicateRead) <==> root && path in paths
    ensures r == None <==> path !in paths && path !in relPaths
  {
    if root && path in paths then Some(DuplicateRead)
    else if path in paths || path in relPaths then Some(CyclicDependency)
    else None
  }

  /** The `deps` dictionary shared by the recursive loads: every path read so
      far, the base name of each, and the root files among them. */
  class Deps {
    var paths: seq<string>
    var relPaths: seq<string>
    var roots: seq<string>

    /** `relPaths` follows `paths` entry by entry, no file is recorded twice and
        every root is a recorded file. */
    ghost predicate Valid()
      reads this
    {
      |relPaths| == |paths|
      && (forall i :: 0 <= i < |paths| ==> relPaths[i] == Basename(paths[i]))
      && (forall i, j :: 0 <= i < j < |paths| ==> paths[i] != paths[j])
      && (forall x :: x in roots ==> x in paths)
    }

    constructor ()
      ensures Valid() && paths == [] && relPaths == [] && roots == []
    {
      paths, relPaths, roots := [], [], [];
    }

    /** `_handle_dependencies`: refuses a path read before (a duplicate when
        reading a root file, a cycle otherwise, which includes a path equal to
        the base name of one read before); otherwise records it. */
    method HandleDependencies(path: string, root: bool) returns (r: Option<DepsError>)
      requires Valid()
      modifies this
      ensures Valid()
      ensures r == DependencyError(old(paths), old(relPaths), path, root)
      ensures r.Some? ==> unchanged(this)
      ensures r.None? ==> paths == old(paths) + [path] && relPaths == old(relPaths) + [Basename(path)]
                          && roots == (if root then old(roots) + [path] else old(roots))
    {
      r := DependencyError(paths, relPaths, path, root);
      if r.None? {
        paths := paths + [path];
        relPaths := relPaths + [Basename(path)];
        if root {
          roots := roots + [path];
        }
      }
    }
  }

  /** Once recorded, a path is refused on every later read, as a root or not. */
  lemma RecordedRefused(paths: seq<string>, relPaths: seq<string>, path: string, root: bool, again: bool)
    requires DependencyError(paths, relPaths, path, root) == None
    ensures DependencyError(paths + [path], relPaths + [Basename(path)], path, again)
            == Some(if again then DuplicateRead else CyclicDependency)
  {
    assert (paths + [path])[|paths|] == path;
  }

  // ---------------------------------------------------------------------------
  // Command-line overrides

  /** `_prune_args`: the arguments whose first dot-separated segment is not the
      name of an ignored class, in their order. */
  function PruneArgs(args: Items, ignored: seq<string>): (r: Items)
    ensures |r| <= |args|
    ensures forall k :: Lookup(r, k) == if Split(k, '.')[0] in ignored then None else Lookup(args, k)
    decreases |args|
  {
    if args == [] then []
    else
      var rest := PruneArgs(args[1..], ignored);
      if Split(args[0].0, '.')[0] in ignored then rest else [args[0]] + rest
  }

  /** The override loop of `_handle_overrides` over the pruned arguments: each
      entry that is not skipped goes through `_handle_payload_override`. */
  function ApplyOverrides(payload: Items, args: Items, reg: Registry): (r: Result<Items>)
    ensures (forall i :: 0 <= i < |args| ==> SkippedArg(args[i].0, args[i].1)) ==> r == Ok(payload)
    decreases |args|
  {
    if args == [] then Ok(payload)
    else if SkippedArg(args[0].0, args[0].1) then ApplyOverrides(payload, args[1..], reg)
    else
      var p :- AttrOverride(payload, args[0].0, args[0].1, reg);
      ApplyOverrides(p, args[1..], reg)
  }

  /** `_handle_overrides` */
  function HandleOverrides(payload: Items, ignored: seq<string>, args: Items, reg: Registry): Result<Items> {
    ApplyOverrides(payload, PruneArgs(args, ignored), reg)
  }

  /** `config`, `help` and `None` entries can be dropped from the arguments
      without changing the result. */
  lemma {:induction false} OverridesSkip(payload: Items, a: Items, k: string, v: Value, b: Items, reg: Registry)
    requires SkippedArg(k, v)
    ensures ApplyOverrides(payload, a + [(k, v)] + b, reg) == ApplyOverrides(payload, a + b, reg)
    decreases |a|
  {
    if a == [] {
      assert ([] + [(k, v)] + b)[1..] == b;
      assert [] + b == b;
    } else {
      assert (a + [(k, v)] + b)[0] == a[0] && (a + [(k, v)] + b)[1..] == a[1..] + [(k, v)] + b;
      assert (a + b)[0] == a[0] && (a + b)[1..] == a[1..] + b;
      if SkippedArg(a[0].0, a[0].1) {
        OverridesSkip(payload, a[1..], k, v, b, reg);
      } else {
        match AttrOverride(payload, a[0].0, a[0].1, reg)
        case Err(e) =>
        case Ok(p) => OverridesSkip(p, a[1..], k, v, b, reg);
      }
    }
  }

  /** `_handle_overrides`, looping over the pruned arguments. */
  method HandleOverridesLoop(payload: Items, ignored: seq<string>, args: Items, reg: Registry) returns (r: Result<Items>)
    ensures r == HandleOverrides(payload, ignored, args, reg)
  {
    var pruned := PruneArgs(args, ignored);
    var p := payload;
    var i := 0;
    assert pruned[0..] == pruned;
    while i < |pruned|
      invariant 0 <= i <= |pruned|
      invariant HandleOverrides(payload, ignored, args, reg) == ApplyOverrides(p, pruned[i..], reg)
    {
      assert pruned[i..][0] == pruned[i] && pruned[i..][1..] == pruned[i + 1..];
      var k := pruned[i].0;
      var v := pruned[i].1;
      if !SkippedArg(k, v) {
        var q := HandlePayloadOverride(p, k, v, reg);
        if q.Err? {
          return Err(q.exc);
        }
        p := q.value;
      }
      i := i + 1;
    }
    assert pruned[i..] == [];
    return Ok(p);
  }

  // ---------------------------------------------------------------------------
  // Validation and merge of one file's entries

  /** `keys in list(chain(*attr_fields.values()))`: `k` is a field of some class. */
  predicate IsField(fields: Dict<seq<string>>, k: string) {
    exists i | 0 <= i < |fields| :: k in fields[i].1
  }

  /** Every key of the dict `d` is among `allowed`. */
  predicate KeysWithin(d: Items, allowed: seq<string>) {
    forall i | 0 <= i < |d| :: d[i].0 in allowed
  }

  /** The key-set check on a list of repeated classes: every element must have
      `.keys()` (AttributeError otherwise, raised before any key is checked),
      and every key must be a field of the class. */
  function CheckRepeated(es: seq<Value>, allowed: seq<string>): (r: Outcome)
    ensures r == Fail(AttributeError) <==> exists j :: 0 <= j < |es| && !es[j].Dict?
    ensures r == Pass <==> forall j :: 0 <= j < |es| ==> es[j].Dict? && KeysWithin(es[j].items, allowed)
    ensures r.Fail? ==> r.exc == AttributeError || r.exc == ValueError
  {
    if exists j | 0 <= j < |es| :: !es[j].Dict? then Fail(AttributeError)
    else if forall j | 0 <= j < |es| :: KeysWithin(es[j].items, allowed) then Pass
    else Fail(ValueError)
  }

  /** The validation of one entry `k: v` of a config file other than `config`,
      against the class-to-fields table and the class names. A dict is a class
      namespace: its key must be a class and its keys that class's fields. A
      list under a class name is a repeated class, checked key by key (a class
      missing from the table raises `listError`: ValueError in
      spock/backend/payload.py, TypeError in spock/backend/attr/payload.py).
      Any other value must be a field of some class. */
  function CheckEntry(k: string, v: Value, fields: Dict<seq<string>>, classNames: seq<string>, listError: Exc): (r: Outcome)
    ensures v.Dict? ==> (r == Fail(TypeError) <==> !HasKey(fields, k))
    ensures v.Dict? && HasKey(fields, k) ==>
              (r == Pass <==> forall ik :: HasKey(v.items, ik) ==> ik in Lookup(fields, k).value)
    ensures !v.Dict? && !(k in classNames && v.List?) ==> (r == Pass <==> IsField(fields, k))
    ensures !v.Dict? && !(k in classNames && v.List?) && r.Fail? ==> r.exc == ValueError
    ensures v.List? && k in classNames && HasKey(fields, k) ==> r == CheckRepeated(v.elems, Lookup(fields, k).value)
    ensures v.List? && k in classNames && !HasKey(fields, k) ==> r == Fail(listError)
  {
    if v.Dict? then
      match Lookup(fields, k)
      case None => Fail(TypeError)
      case Some(allowed) =>
        assert (forall ik :: HasKey(v.items, ik) ==> ik in allowed) <==> KeysWithin(v.items, allowed) by {
          if KeysWithin(v.items, allowed) {
            forall ik | HasKey(v.items, ik) ensures ik in allowed {
              var i :| 0 <= i < |v.items| && v.items[i].0 == ik;
            }
          }
        }
        if KeysWithin(v.items, allowed) then Pass else Fail(ValueError)
    else if k in classNames && v.List? then
      match Lookup(fields, k)
      case None => Fail(listError)
      case Some(allowed) => CheckRepeated(v.elems, allowed)
    else if IsField(fields, k) then Pass
    else Fail(ValueError)
  }

  /** `payload[k].update(v)` for a dict value whose key is already present
      (AttributeError when the present value is not a dict); `payload[k] = v`
      otherwise. */
  function MergeEntry(payload: Items, k: string, v: Value): (r: Result<Items>)
    ensures v.Dict? && HasKey(payload, k) && Lookup(payload, k).value.Dict? ==>
              r == Ok(Put(payload, k, Dict(Update(Lookup(payload, k).value.items, v.items))))
    ensures v.Dict? && HasKey(payload, k) && !Lookup(payload, k).value.Dict? ==> r == Err(AttributeError)
    ensures !(v.Dict? && HasKey(payload, k)) ==> r == Ok(Put(payload, k, v))
  {
    match Lookup(payload, k)
    case Some(prev) =>
      if !v.Dict? then Ok(Put(payload, k, v))
      else if prev.Dict? then Ok(Put(payload, k, Dict(Update(prev.items, v.items))))
      else Err(AttributeError)
    case None => Ok(Put(payload, k, v))
  }

  /** Merging a class dict into the one already there keeps the fields the new
      file does not mention and takes the new file's value for the others. */
  lemma MergeEntryFields(payload: Items, k: string, d: Items, e: Items, ik: string)
    requires Lookup(payload, k) == Some(Dict(d))
    ensures var r := MergeEntry(payload, k, Dict(e));
            r.Ok? && Lookup(r.value, k) == Some(Dict(Update(d, e)))
            && Lookup(Update(d, e), ik) == if HasKey(e, ik) then LastFor(e, ik) else Lookup(d, ik)
  {
    LookupPut(payload, k, Dict(Update(d, e)), k);
    LookupUpdate(d, e, ik);
  }

  /** Which `_update_payload` is meant. */
  datatype Backend =
    /** `AttrPayload` in spock/backend/payload.py */
    | Current
    /** `AttrPayload` in spock/backend/attr/payload.py */
    | Legacy
    /** `DataClassPayload` in spock/backend/dataclass/payload.py */
    | DataClasses

  /** The entries of ignored classes, which only the current backend skips. */
  predicate Ignored(backend: Backend, ignore: seq<SpockClass>, k: string) {
    backend == Current && HasKey(TypeUtils.AttrFields(ignore), k)
  }

  /** Class names that make a list a repeated class; dataclasses have none. */
  function ListClassNames(backend: Backend, classes: seq<SpockClass>): seq<string> {
    if backend == DataClasses then [] else ClassNames(classes)
  }

  function ListError(backend: Backend): Exc {
    if backend == Legacy then TypeError else ValueError
  }

  /** One iteration of the loop of `_update_payload`: an ignored entry is
      skipped, every other one is checked (except `config`) and merged. */
  function UpdateEntry(backend: Backend, classes: seq<SpockClass>, ignore: seq<SpockClass>,
                       payload: Items, k: string, v: Value): (r: Result<Items>)
    ensures Ignored(backend, ignore, k) ==> r == Ok(payload)
    ensures !Ignored(backend, ignore, k) && k == "config" ==> r == MergeEntry(payload, k, v)
    ensures (!Ignored(backend, ignore, k) && k != "config" && v.Dict?
             && !HasKey(TypeUtils.AttrFields(classes), k)) ==> r == Err(TypeError)
    ensures (!Ignored(backend, ignore, k) && k != "config" && !v.Dict? && !v.List?
             && !IsField(TypeUtils.AttrFields(classes), k)) ==> r == Err(ValueError)
    ensures !Ignored(backend, ignore, k) && r.Ok? ==> r == MergeEntry(payload, k, v)
  {
    if Ignored(backend, ignore, k) then Ok(payload)
    else
      var check := if k == "config" then Pass
                   else CheckEntry(k, v, TypeUtils.AttrFields(classes), ListClassNames(backend, classes), ListError(backend));
      if check.Fail? then Err(check.exc) else MergeEntry(payload, k, v)
  }

  /** The loop of `_update_payload` over the entries of one file. */
  function UpdateEntries(backend: Backend, classes: seq<SpockClass>, ignore: seq<SpockClass>,
                         payload: Items, entries: Items): (r: Result<Items>)
    decreases |entries|
  {
    if entries == [] then Ok(payload)
    else
      var p :- UpdateEntry(backend, classes, ignore, payload, entries[0].0, entries[0].1);
      UpdateEntries(backend, classes, ignore, p, entries[1..])
  }

  /** The loop is the entries of the file, in order: one more entry is one more step. */
  lemma {:induction false} UpdateEntriesSnoc(backend: Backend, classes: seq<SpockClass>, ignore: seq<SpockClass>,
                                             payload: Items, entries: Items, k: string, v: Value)
    ensures UpdateEntries(backend, classes, ignore, payload, entries + [(k, v)])
            == match UpdateEntries(backend, classes, ignore, payload, entries)
               case Err(e) => Err(e)
               case Ok(p) => UpdateEntry(backend, classes, ignore, p, k, v)
    decreases |entries|
  {
    if entries == [] {
      assert [] + [(k, v)] == [(k, v)];
    } else {
      assert (entries + [(k, v)])[1..] == entries[1..] + [(k, v)];
      match UpdateEntry(backend, classes, ignore, payload, entries[0].0, entries[0].1)
      case Err(e) =>
      case Ok(p) => UpdateEntriesSnoc(backend, classes, ignore, p, entries[1..], k, v);
    }
  }

  /** The current `_update_payload`: the merged payload is converted to
      tuples against the classes' type table and that conversion deep-merged
      back; the older attrs variant does the same with the older conversion
      (no class names, no tuple-length check); the dataclass variant stops
      after the merge. */
  function UpdatePayload(backend: Backend, base: Items, classes: seq<SpockClass>, ignore: seq<SpockClass>,
                         payload: Items): (r: Result<Items>)
  {
    var merged :- UpdateEntries(backend, classes, ignore, payload, base);
    Converted(backend, classes, merged)
  }

  /** The merged payload with its lists turned into tuples where the type table
      says so; the dataclasses backend leaves that to the builder. */
  function Converted(backend: Backend, classes: seq<SpockClass>, merged: Items): (r: Result<Items>)
  {
    if backend == DataClasses then Ok(merged)
    else
      var names := if backend == Current then ClassNames(classes) else [];
      var tuples :- TypeUtils.Convert(Dict(merged), Some(TypeUtils.Nested(TypeUtils.TypeTable(classes))), names, backend == Current);
      var m :- TypeUtils.DeepMerge(Dict(merged), tuples);
      Ok(m.items)
  }

  /** `_update_payload`, looping over the file's entries. */
  method UpdatePayloadLoop(backend: Backend, base: Items, classes: seq<SpockClass>, ignore: seq<SpockClass>,
                           payload: Items) returns (r: Result<Items>)
    ensures r == UpdatePayload(backend, base, classes, ignore, payload)
  {
    var p := payload;
    var i := 0;
    while i < |base|
      invariant 0 <= i <= |base|
      invariant UpdateEntries(backend, classes, ignore, payload, base) == UpdateEntries(backend, classes, ignore, p, base[i..])
    {
      assert base[i..][1..] == base[i + 1..];
      var q := UpdateEntry(backend, classes, ignore, p, base[i].0, base[i].1);
      if q.Err? {
        return Err(q.exc);
      }
      p := q.value;
      i := i + 1;
    }
    r := ConvertMerged(backend, classes, p);
  }

  /** The end of `_update_payload`: the tuple conversion and the merge of its
      result back into the payload. */
  method ConvertMerged(backend: Backend, classes: seq<SpockClass>, merged: Items) returns (r: Result<Items>)
    ensures r == Converted(backend, classes, merged)
  {
    if backend == DataClasses {
      return Ok(merged);
    }
    var names := if backend == Current then ClassNames(classes) else [];
    var tuples := TypeUtils.ConvertToTuples(Dict(merged), Some(TypeUtils.Nested(TypeUtils.TypeTable(classes))), names, backend == Current);
    if tuples.Err? {
      return Err(tuples.exc);
    }
    var m := TypeUtils.DeepUpdate(Dict(merged), tuples.value);
    if m.Err? {
      return Err(m.exc);
    }
    return Ok(m.value.items);
  }

  /** A failure on the first `i` entries is the failure of the whole loop. */
  lemma {:induction false} EntriesFailFrom(backend: Backend, classes: seq<SpockClass>, ignore: seq<SpockClass>,
                                           payload: Items, entries: Items, i: int)
    requires 0 <= i <= |entries| && UpdateEntries(backend, classes, ignore, payload, entries[..i]).Err?
    ensures UpdateEntries(backend, classes, ignore, payload, entries)
            == UpdateEntries(backend, classes, ignore, payload, entries[..i])
    decreases |entries|
  {
    if i > 0 {
      assert entries[..i][0] == entries[0] && entries[..i][1..] == entries[1..][..i - 1];
      match UpdateEntry(backend, classes, ignore, payload, entries[0].0, entries[0].1)
      case Err(e) =>
      case Ok(p) => EntriesFailFrom(backend, classes, ignore, p, entries[1..], i - 1);
    }
  }

  // ---------------------------------------------------------------------------
  // spock/addons/tune/payload.py

  /** `tuple(v)` */
  function ToTuple(v: Value): (r: Result<Value>)
    ensures v.List? || v.Tuple? ==> r == Ok(Tuple(v.elems))
    ensures r.Ok? ==> r.value.Tuple? && Len(r.value) == Len(v)
    ensures !(v.List? || v.Tuple? || v.Str? || v.Dict?) ==> r == Err(TypeError)
  {
    match v
    case List(es) => Ok(Tuple(es))
    case Tuple(es) => Ok(Tuple(es))
    case Str(s) => Ok(Tuple(seq(|s|, i requires 0 <= i < |s| => Str([s[i]]))))
    case Dict(items) => Ok(Tuple(seq(|items|, i requires 0 <= i < |items| => Str(items[i].0))))
    case _ => Err(TypeError)
  }

  /** `if 'bounds' in iv: iv['bounds'] = tuple(iv['bounds'])` for one attribute
      entry; only a dict can be subscripted by the key. */
  function TuneBounds(iv: Value): (r: Result<Value>)
    ensures iv.Dict? && !HasKey(iv.items, "bounds") ==> r == Ok(iv)
    ensures iv.Dict? && HasKey(iv.items, "bounds") ==>
              r == match ToTuple(Lookup(iv.items, "bounds").value)
                   case Err(e) => Err(e)
                   case Ok(t) => Ok(Dict(Put(iv.items, "bounds", t)))
    ensures r.Ok? ==> r.value == iv || iv.Dict?
  {
    match iv
    case Dict(items) =>
      (match Lookup(items, "bounds")
       case None => Ok(iv)
       case Some(b) =>
         var t :- ToTuple(b);
         Ok(Dict(Put(items, "bounds", t))))
    case Str(s) => if IsSubstring("bounds", s) then Err(TypeError) else Ok(iv)
    case List(es) => if Str("bounds") in es then Err(TypeError) else Ok(iv)
    case Tuple(es) => if Str("bounds") in es then Err(TypeError) else Ok(iv)
    case _ => Err(TypeError)
  }

  /** The inner loop over one class's entries (AttributeError for a class
      value that is not a dict). */
  function TuneClass(v: Value): (r: Result<Value>)
    ensures !v.Dict? ==> r == Err(AttributeError)
    ensures r.Ok? ==> r.value.Dict? && |r.value.items| == |v.items|
    ensures r.Ok? ==> forall i :: 0 <= i < |v.items| ==>
              r.value.items[i].0 == v.items[i].0 && TuneBounds(v.items[i].1) == Ok(r.value.items[i].1)
  {
    if !v.Dict? then Err(AttributeError)
    else
      var es :- TuneEntries(v.items);
      Ok(Dict(es))
  }

  function TuneEntries(items: Items): (r: Result<Items>)
    ensures r.Ok? ==> |r.value| == |items|
    ensures r.Ok? ==> forall i :: 0 <= i < |items| ==>
              r.value[i].0 == items[i].0 && TuneBounds(items[i].1) == Ok(r.value[i].1)
    decreases |items|
  {
    if items == [] then Ok([])
    else
      var x :- TuneBounds(items[0].1);
      var rest :- TuneEntries(items[1..]);
      Ok([(items[0].0, x)] + rest)
  }

  /** `TunerPayload._update_payload`: every class entry has its attributes'
      `bounds` turned into tuples, with keys and order kept. */
  function TuneSections(base: Items): (r: Result<Items>)
    ensures r.Ok? ==> |r.value| == |base|
    ensures r.Ok? ==> forall i :: 0 <= i < |base| ==>
              r.value[i].0 == base[i].0 && TuneClass(base[i].1) == Ok(r.value[i].1)
    decreases |base|
  {
    if base == [] then Ok([])
    else
      var x :- TuneClass(base[0].1);
      var rest :- TuneSections(base[1..]);
      Ok([(base[0].0, x)] + rest)
  }

  /** A `bounds` list of an attribute becomes a tuple with the same elements. */
  lemma TuneBoundsList(base: Items, i: int, j: int, bounds: seq<Value>)
    requires 0 <= i < |base| && base[i].1.Dict? && 0 <= j < |base[i].1.items|
    requires base[i].1.items[j].1.Dict? && Lookup(base[i].1.items[j].1.items, "bounds") == Some(List(bounds))
    requires TuneSections(base).Ok?
    ensures var e := TuneSections(base).value[i].1.items[j].1;
            e.Dict? && Lookup(e.items, "bounds") == Some(Tuple(bounds))
  {
    var d := base[i].1.items[j].1.items;
    LookupPut(d, "bounds", Tuple(bounds), "bounds");
  }

  /** `TunerPayload._update_payload`, looping over the classes; the payload
      built from the included files is discarded. */
  method TuneUpdatePayload(base: Items, payload: Items) returns (r: Result<Items>)
    ensures r == TuneSections(base)
  {
    var out: Items := [];
    var i := 0;
    assert base[0..] == base;
    ConcatNil(TuneSections(base));
    while i < |base|
      invariant 0 <= i <= |base|
      invariant TuneSections(base) == Concat(out, TuneSections(base[i..]))
      invariant |out| == i
    {
      TuneSectionsStep(base, i, out);
      var x := TuneClass(base[i].1);
      if x.Err? {
        return Err(x.exc);
      }
      out := out + [(base[i].0, x.value)];
      i := i + 1;
    }
    assert base[i..] == [];
    assert out + [] == out;
    r := Ok(out);
  }

  function Concat(out: Items, rest: Result<Items>): Result<Items> {
    match rest
    case Err(e) => Err(e)
    case Ok(vs) => Ok(out + vs)
  }

  lemma ConcatNil(rest: Result<Items>)
    ensures Concat([], rest) == rest
  {
    match rest
    case Err(_) =>
    case Ok(vs) => assert [] + vs == vs;
  }

  lemma TuneSectionsStep(base: Items, i: int, out: Items)
    requires 0 <= i < |base|
    ensures var x := TuneClass(base[i].1);
            Concat(out, TuneSections(base[i..]))
            == if x.Err? then Err(x.exc) else Concat(out + [(base[i].0, x.value)], TuneSections(base[i + 1..]))
  {
    assert base[i..][0] == base[i] && base[i..][1..] == base[i + 1..];
    var x := TuneClass(base[i].1);
    if x.Ok? {
      match TuneSections(base[i + 1..])
      case Err(_) =>
      case Ok(vs) => assert out + ([(base[i].0, x.value)] + vs) == (out + [(base[i].0, x.value)]) + vs;
    }
  }

  // ---------------------------------------------------------------------------
  // Loading a config file and the files it includes

  /** `b` extends `a`. */
  predicate Grows(a: seq<string>, b: seq<string>) {
    |a| <= |b| && b[..|a|] == a
  }

  /** The number of available files not read yet. */
  function Unread(files: map<string, Items>, paths: seq<string>): nat {
    |files.Keys - (set x | x in paths)|
  }

  lemma UnreadMono(files: map<string, Items>, a: seq<string>, b: seq<string>)
    requires Grows(a, b)
    ensures Unread(files, b) <= Unread(files, a)
  {
    assert forall x :: x in a ==> x in b by {
      forall x | x in a ensures x in b {
        var i :| 0 <= i < |a| && a[i] == x;
        assert b[i] == x;
      }
    }
    SubsetCard(files.Keys - (set x | x in b), files.Keys - (set x | x in a));
  }

  lemma SubsetCard<T>(a: set<T>, b: set<T>)
    requires a <= b
    ensures |a| <= |b|
  {
    assert b == a + (b - a);
  }

  lemma UnreadShrinks(files: map<string, Items>, a: seq<string>, p: string)
    requires p in files && p !in a
    ensures Unread(files, a + [p]) < Unread(files, a)
  {
    var before := files.Keys - (set x | x in a);
    var after := files.Keys - (set x | x in a + [p]);
    assert after == before - {p};
    assert p in before;
    assert before == after + {p};
  }

  /** What `for inc_path in base_payload["config"]` iterates: the elements of
      a list or tuple, the characters of a string, the keys of a dict. Any
      other value cannot be iterated, which is a TypeError before any include
      is looked at. The elements are not checked here: the loop meets a
      non-string only when it reaches it. */
  function IncludeElems(v: Value): (r: Result<seq<Value>>)
    ensures (v.List? || v.Tuple?) ==> r == Ok(v.elems)
    ensures v.Str? ==> r.Ok? && |r.value| == |v.s| && forall i :: 0 <= i < |v.s| ==> r.value[i] == Str([v.s[i]])
    ensures v.Dict? ==> r.Ok? && |r.value| == |v.items| && forall i :: 0 <= i < |v.items| ==> r.value[i] == Str(v.items[i].0)
    ensures r.Err? <==> !(v.List? || v.Tuple? || v.Str? || v.Dict?)
    ensures r.Err? ==> r.exc == TypeError
  {
    match v
    case List(es) => Ok(es)
    case Tuple(es) => Ok(es)
    case Str(s) => Ok(seq(|s|, i requires 0 <= i < |s| => Str([s[i]])))
    case Dict(items) => Ok(seq(|items|, i requires 0 <= i < |items| => Str(items[i].0)))
    case _ => Err(TypeError)
  }

  /** An include that fails before anything is read: a non-string, which
      `check_path_s3` refuses, a path with an unsupported extension, or a
      file that does not exist. */
  predicate FailsUnread(h: BaseHandler, files: map<string, Items>, x: Value) {
    !x.Str? || CheckExtension(h, Lower(Suffix(x.s))).Fail? || x.s !in files
  }

  /** The error such an include raises: TypeError from `check_path_s3` or
      `_check_extension`, OSError from the loader. */
  function UnreadError(h: BaseHandler, x: Value): (e: Exc)
    ensures e == OSError <==> x.Str? && CheckExtension(h, Lower(Suffix(x.s))).Pass?
    ensures e != OSError ==> e == TypeError
  {
    if x.Str? && CheckExtension(h, Lower(Suffix(x.s))).Pass? then OSError else TypeError
  }

  /** `_payload`: no path gives the empty payload; otherwise the extension is
      checked (lower-cased), the file is read (`files` holds what each path
      loads to; a missing one is an OSError), the dependency record refuses a
      repeated read, the included files are loaded into the payload first, and
      the file's own entries are validated and merged on top. */
  method LoadPayload(deps: Deps, h: BaseHandler, files: map<string, Items>, classes: seq<SpockClass>,
                     ignore: seq<SpockClass>, path: Option<string>, root: bool) returns (r: Result<Items>)
    requires deps.Valid()
    modifies deps
    ensures deps.Valid() && Grows(old(deps.paths), deps.paths)
    ensures path.None? ==> r == Ok([]) && unchanged(deps)
    ensures path.Some? && FailsUnread(h, files, Str(path.value)) ==> r == Err(UnreadError(h, Str(path.value))) && unchanged(deps)
    ensures r.Ok? && path.Some? ==> path.value in files && path.value in deps.paths && FromFile(r.value, files[path.value], classes, ignore)
    decreases 4 * Unread(files, deps.paths)
  {
    if path.None? {
      return Ok([]);
    }
    var p := path.value;
    var ok := CheckExtension(h, Lower(Suffix(p)));
    if ok.Fail? {
      return Err(ok.exc);
    }
    if p !in files {
      return Err(OSError);
    }
    ghost var start := deps.paths;
    var refused := deps.HandleDependencies(p, root);
    if refused.Some? {
      return Err(ValueError);
    }
    assert deps.paths == start + [p];
    UnreadShrinks(files, start, p);
    ghost var subs;
    r, subs := LoadRecorded(deps, h, files, classes, ignore, p);
    GrowsTrans(start, start + [p], deps.paths);
  }

  /** `out` is what the entries of `file` merge to over some included payload. */
  ghost predicate FromFile(out: Items, file: Items, classes: seq<SpockClass>, ignore: seq<SpockClass>) {
    exists included: Items :: UpdatePayload(Current, file, classes, ignore, included) == Ok(out)
  }

  /** The rest of `_payload` once the file `p` is recorded: its includes, then
      its own entries. `subs` are the payloads the includes loaded, in order. */
  method LoadRecorded(deps: Deps, h: BaseHandler, files: map<string, Items>, classes: seq<SpockClass>,
                      ignore: seq<SpockClass>, p: string) returns (r: Result<Items>, ghost subs: seq<Items>)
    requires deps.Valid() && p in files && p in deps.paths
    modifies deps
    ensures deps.Valid() && Grows(old(deps.paths), deps.paths) && p in deps.paths
    ensures Lookup(files[p], "config").None? ==> r == UpdatePayload(Current, files[p], classes, ignore, []) && unchanged(deps)
    ensures r.Ok? ==> FromFile(r.value, files[p], classes, ignore)
    ensures r.Ok? && Lookup(files[p], "config").Some? ==>
              Included(files, deps.paths, Lookup(files[p], "config").value) &&
              Contributed(IncludeElems(Lookup(files[p], "config").value).value, subs, files, classes, ignore) &&
              r == UpdatePayload(Current, files[p], classes, ignore, Update([], UpdateFold(subs)))
    decreases 4 * Unread(files, deps.paths) + 3
  {
    var base := files[p];
    var payload: Items := [];
    var conf := Lookup(base, "config");
    subs := [];
    if conf.Some? {
      ghost var start := deps.paths;
      ghost var incs, stop;
      var included;
      included, incs, stop, subs := HandleIncludes(deps, h, files, classes, ignore, conf.value);
      GrowsIn(start, deps.paths, p);
      if included.Err? {
        return Err(included.exc), subs;
      }
      payload := included.value;
      r := UpdatePayloadLoop(Current, base, classes, ignore, payload);
    } else {
      r := UpdatePayloadLoop(Current, base, classes, ignore, payload);
    }
    if r.Ok? {
      assert UpdatePayload(Current, base, classes, ignore, payload) == Ok(r.value);
    }
  }

  lemma GrowsIn(a: seq<string>, b: seq<string>, p: string)
    requires Grows(a, b) && p in a
    ensures p in b
  {
    var i :| 0 <= i < |a| && a[i] == p;
    assert b[i] == p;
  }

  /** Every file the `config` entry `conf` includes is available and recorded. */
  ghost predicate Included(files: map<string, Items>, paths: seq<string>, conf: Value) {
    IncludeElems(conf).Ok? && AllIn(IncludeElems(conf).value, files, paths)
  }

  /** Every include of `xs` is a path of an available file recorded in
      `paths`. It is written recursively rather than with a quantifier so that
      the proofs about the dependency record unfold it only on demand. */
  ghost predicate AllIn(xs: seq<Value>, files: map<string, Items>, paths: seq<string>)
    decreases |xs|
  {
    var n := |xs| - 1;
    xs == [] || (AllIn(xs[..n], files, paths) && xs[n].Str? && xs[n].s in files && xs[n].s in paths)
  }

  lemma {:induction false} AllInMeans(xs: seq<Value>, files: map<string, Items>, paths: seq<string>)
    ensures AllIn(xs, files, paths) <==> forall x :: x in xs ==> x.Str? && x.s in files && x.s in paths
    decreases |xs|
  {
    if xs != [] {
      var n := |xs| - 1;
      AllInMeans(xs[..n], files, paths);
      assert xs == xs[..n] + [xs[n]];
    }
  }

  /** The includes loaded so far stay recorded when the record grows, and the
      one just loaded joins them. */
  lemma AllInStep(xs: seq<Value>, i: int, files: map<string, Items>, a: seq<string>, b: seq<string>)
    requires 0 <= i < |xs| && AllIn(xs[..i], files, a) && Grows(a, b)
    requires xs[i].Str? && xs[i].s in files && xs[i].s in b
    ensures AllIn(xs[..i + 1], files, b)
  {
    AllInMeans(xs[..i], files, a);
    AllInMeans(xs[..i], files, b);
    forall x | x in xs[..i] ensures x.s in b {
      GrowsIn(a, b, x.s);
    }
    assert xs[..i + 1][..i] == xs[..i];
  }

  /** `subs[k]` is what the include `xs[k]` loaded: the entries of that file
      over some payload of its own includes. */
  ghost predicate Contributed(xs: seq<Value>, subs: seq<Items>, files: map<string, Items>,
                              classes: seq<SpockClass>, ignore: seq<SpockClass>)
    decreases |xs|
  {
    var n := |xs| - 1;
    |xs| == |subs| &&
    (xs == [] ||
     (Contributed(xs[..n], subs[..n], files, classes, ignore) &&
      xs[n].Str? && xs[n].s in files && FromFile(subs[n], files[xs[n].s], classes, ignore)))
  }

  lemma ContributedStep(xs: seq<Value>, i: int, subs: seq<Items>, sub: Items, files: map<string, Items>,
                        classes: seq<SpockClass>, ignore: seq<SpockClass>)
    requires 0 <= i < |xs| && Contributed(xs[..i], subs, files, classes, ignore)
    requires xs[i].Str? && xs[i].s in files && FromFile(sub, files[xs[i].s], classes, ignore)
    ensures Contributed(xs[..i + 1], subs + [sub], files, classes, ignore)
  {
    assert xs[..i + 1][..i] == xs[..i];
    assert (subs + [sub])[..i] == subs;
  }

  /** `included_params.update(...)` over the loaded payloads, in order. */
  function UpdateFold(subs: seq<Items>): (r: Items)
    decreases |subs|
  {
    if subs == [] then [] else Update(UpdateFold(subs[..|subs| - 1]), subs[|subs| - 1])
  }

  lemma UpdateFoldSnoc(subs: seq<Items>, sub: Items)
    ensures UpdateFold(subs + [sub]) == Update(UpdateFold(subs), sub)
  {
    assert (subs + [sub])[..|subs|] == subs;
  }

  /** `_handle_includes`: each included file is loaded in turn and its payload
      put over those before it. `incs` are the iterated elements, `stop` is
      where the loop ended and `subs` the payloads loaded before it. */
  method HandleIncludes(deps: Deps, h: BaseHandler, files: map<string, Items>, classes: seq<SpockClass>,
                        ignore: seq<SpockClass>, conf: Value)
      returns (r: Result<Items>, ghost incs: seq<Value>, ghost stop: nat, ghost subs: seq<Items>)
    requires deps.Valid()
    modifies deps
    ensures deps.Valid() && Grows(old(deps.paths), deps.paths)
    ensures IncludeElems(conf).Err? ==> r == Err(TypeError) && unchanged(deps)
    ensures IncludeElems(conf).Ok? ==> incs == IncludeElems(conf).value
    ensures r.Ok? ==> Included(files, deps.paths, conf)
    ensures r.Ok? ==> Contributed(incs, subs, files, classes, ignore) && r.value == Update([], UpdateFold(subs))
    ensures IncludeElems(conf).Ok? ==> IncludesLoaded(deps.paths, h, files, classes, ignore, incs, stop, subs, r)
    ensures IncludeElems(conf).Ok? && r.Err? && stop == 0 && FailsUnread(h, files, incs[0]) ==> unchanged(deps)
    decreases 4 * Unread(files, deps.paths) + 2
  {
    var elems := IncludeElems(conf);
    if elems.Err? {
      return Err(elems.exc), [], 0, [];
    }
    var es := elems.value;
    incs := es;
    r, stop, subs := LoadIncludes(deps, h, files, classes, ignore, es);
    Whole(es);
  }

  /** What the loop of `_handle_includes` over `incs` has done when it ends
      at `stop`: every include before `stop` was read and recorded and
      loaded `subs`; success means it ran to the end and merged `subs` in
      order; a failure happens at `stop`, and an include that fails before
      being read raises its own error there. */
  ghost predicate IncludesLoaded(paths: seq<string>, h: BaseHandler, files: map<string, Items>, classes: seq<SpockClass>,
                                 ignore: seq<SpockClass>, incs: seq<Value>, stop: nat, subs: seq<Items>,
                                 r: Result<Items>)
  {
    stop <= |incs| && |subs| == stop &&
    AllIn(incs[..stop], files, paths) && Contributed(incs[..stop], subs, files, classes, ignore) &&
    (r.Ok? ==> stop == |incs| && r.value == Update([], UpdateFold(subs))) &&
    (r.Err? ==> stop < |incs| && (FailsUnread(h, files, incs[stop]) ==> r.exc == UnreadError(h, incs[stop])))
  }

  lemma AllInGrows(xs: seq<Value>, files: map<string, Items>, a: seq<string>, b: seq<string>)
    requires AllIn(xs, files, a) && Grows(a, b)
    ensures AllIn(xs, files, b)
  {
    AllInMeans(xs, files, a);
    AllInMeans(xs, files, b);
    forall x | x in xs ensures x.s in b {
      GrowsIn(a, b, x.s);
    }
  }

  lemma Whole<T>(xs: seq<T>)
    ensures xs[..|xs|] == xs
  {
  }

  /** The loop of `_handle_includes` over the iterated elements `incs`. */
  method LoadIncludes(deps: Deps, h: BaseHandler, files: map<string, Items>, classes: seq<SpockClass>,
                      ignore: seq<SpockClass>, incs: seq<Value>)
      returns (r: Result<Items>, ghost stop: nat, ghost subs: seq<Items>)
    requires deps.Valid()
    modifies deps
    ensures deps.Valid() && Grows(old(deps.paths), deps.paths)
    ensures IncludesLoaded(deps.paths, h, files, classes, ignore, incs, stop, subs, r)
    ensures r.Err? && stop == 0 && FailsUnread(h, files, incs[0]) ==> unchanged(deps)
    decreases 4 * Unread(files, deps.paths) + 1
  {
    ghost var start := deps.paths;
    var included: Items := [];
    subs := [];
    var i := 0;
    while i < |incs|
      invariant 0 <= i <= |incs| && |subs| == i
      invariant deps.Valid() && Grows(start, deps.paths)
      invariant AllIn(incs[..i], files, deps.paths)
      invariant Contributed(incs[..i], subs, files, classes, ignore)
      invariant included == UpdateFold(subs)
      invariant i == 0 ==> unchanged(deps)
    {
      if !incs[i].Str? {
        r, stop := Err(TypeError), i;
        assert IncludesLoaded(deps.paths, h, files, classes, ignore, incs, stop, subs, r);
        return;
      }
      UnreadMono(files, start, deps.paths);
      ghost var before := deps.paths;
      var sub := LoadPayload(deps, h, files, classes, ignore, Some(incs[i].s), false);
      GrowsTrans(start, before, deps.paths);
      if sub.Err? {
        assert Str(incs[i].s) == incs[i];
        AllInGrows(incs[..i], files, before, deps.paths);
        r, stop := Err(sub.exc), i;
        assert IncludesLoaded(deps.paths, h, files, classes, ignore, incs, stop, subs, r);
        return;
      }
      AllInStep(incs, i, files, before, deps.paths);
      ContributedStep(incs, i, subs, sub.value, files, classes, ignore);
      UpdateFoldSnoc(subs, sub.value);
      included := Update(included, sub.value);
      subs := subs + [sub.value];
      i := i + 1;
    }
    r, stop := Ok(Update([], included)), i;
  }

  lemma MissingYamlSuffix()
    ensures Lower(Suffix("missing.yaml")) == ".yaml"
  {
    var p := "missing.yaml";
    assert DropTrailingSlashes(p) == p;
    assert AfterLast(p, '/') == 0 by {
      assert '/' !in p;
      NoCharAfterLast(p, '/');
    }
    assert PathName(p) == p;
    assert AfterLast(p, '.') == 8 by {
      assert p[..9] == "missing.y" && p[..8] == "missing.";
      assert p[..10][..9] == p[..9] && p[..11][..10] == p[..10] && p[..12][..11] == p[..11];
    }
    assert Suffix(p) == ".yaml";
  }

  lemma NoCharAfterLast(s: string, c: char)
    requires c !in s
    ensures AfterLast(s, c) == 0
    decreases |s|
  {
    if s != [] {
      assert c !in s[..|s| - 1];
      NoCharAfterLast(s[..|s| - 1], c);
    }
  }

  /** An include list starting with a file that is not available cannot
      get past its first element, which then raises its own error. */
  lemma MissingFirstStops(paths: seq<string>, h: BaseHandler, files: map<string, Items>, classes: seq<SpockClass>,
                          ignore: seq<SpockClass>, incs: seq<Value>, stop: nat, subs: seq<Items>, r: Result<Items>)
    requires incs != [] && incs[0].Str? && incs[0].s !in files
    requires IncludesLoaded(paths, h, files, classes, ignore, incs, stop, subs, r)
    ensures stop == 0 && r == Err(UnreadError(h, incs[0]))
  {
    if stop > 0 {
      AllInHead(incs[..stop], files, paths);
    }
  }

  lemma AllInHead(xs: seq<Value>, files: map<string, Items>, paths: seq<string>)
    requires xs != [] && AllIn(xs, files, paths)
    ensures xs[0].Str? && xs[0].s in files
  {
    AllInMeans(xs, files, paths);
    assert xs[0] in xs;
  }

  /** `config: ["missing.yaml", 5]`: the first include is looked for, and not
      found, before the loop reaches the integer, so the error is the
      loader's OSError and nothing is recorded. */
  method IncludeMissingBeforeNonString(deps: Deps, files: map<string, Items>, classes: seq<SpockClass>,
                                       ignore: seq<SpockClass>) returns (r: Result<Items>)
    requires deps.Valid() && "missing.yaml" !in files
    modifies deps
    ensures r == Err(OSError) && unchanged(deps)
  {
    var conf := List([Str("missing.yaml"), Int(5)]);
    var h := NewHandler(None);
    MissingYamlSuffix();
    assert UnreadError(h, Str("missing.yaml")) == OSError;
    ghost var incs, stop, subs;
    r, incs, stop, subs := HandleIncludes(deps, h, files, classes, ignore, conf);
    assert incs == [Str("missing.yaml"), Int(5)];
    MissingFirstStops(deps.paths, h, files, classes, ignore, incs, stop, subs, r);
  }

  lemma GrowsTrans(a: seq<string>, b: seq<string>, c: seq<string>)
    requires Grows(a, b) && Grows(b, c)
    ensures Grows(a, c)
  {
    assert c[..|a|] == c[..|b|][..|a|];
  }

  /** `payload`: the root file's payload, then the command-line overrides of
      the classes that are not ignored. */
  method BuildPayload(deps: Deps, h: BaseHandler, files: map<string, Items>, classes: seq<SpockClass>,
                      ignore: seq<SpockClass>, path: Option<string>, args: Items, reg: Registry)
      returns (r: Result<Items>)
    requires deps.Valid()
    modifies deps
    ensures deps.Valid()
    ensures path.None? ==> r == HandleOverrides([], ClassNames(ignore), args, reg)
  {
    var p := LoadPayload(deps, h, files, classes, ignore, path, true);
    if p.Err? {
      return Err(p.exc);
    }
    r := HandleOverridesLoop(p.value, ClassNames(ignore), args, reg);
  }
}

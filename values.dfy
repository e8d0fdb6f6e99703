/** Python values as the library sees them after a config file is loaded:
    scalars, lists, tuples, insertion-ordered dictionaries with string keys,
    instances of spock classes, class objects and callables. */
module Values {
  import opened Results
  import opened Dicts

  datatype Value =
    | Null
    | Bool(b: bool)
    | Int(i: int)
    | Float(r: real)
    | Str(s: string)
    | List(elems: seq<Value>)
    | Tuple(elems: seq<Value>)
    | Dict(items: seq<(string, Value)>)
    /** An instance of the spock class `cls` with its attribute values. */
    | Instance(cls: string, attrs: seq<(string, Value)>)
    /** A class object used as a value (an enum member holding a class, a type-valued default). */
    | ClassRef(name: string)
    | Callable(modName: string, name: string)

  /** A Python dict holding payload values. */
  type Items = Dict<Value>

  /** Python truthiness. */
  predicate Truthy(v: Value) {
    match v
    case Null => false
    case Bool(b) => b
    case Int(i) => i != 0
    case Float(r) => r != 0.0
    case Str(s) => s != ""
    case List(es) => es != []
    case Tuple(es) => es != []
    case Dict(items) => items != []
    case _ => true
  }

  /** `len(v)` for the values that have one. */
  function Len(v: Value): (r: Option<nat>)
    ensures r.Some? <==> (v.Str? || v.List? || v.Tuple? || v.Dict?)
  {
    match v
    case Str(s) => Some(|s|)
    case List(es) => Some(|es|)
    case Tuple(es) => Some(|es|)
    case Dict(items) => Some(|items|)
    case _ => None
  }

  /** The Python class name of a value, as `type(v).__name__` reports it. */
  function TypeName(v: Value): string {
    match v
    case Null => "NoneType"
    case Bool(_) => "bool"
    case Int(_) => "int"
    case Float(_) => "float"
    case Str(_) => "str"
    case List(_) => "list"
    case Tuple(_) => "tuple"
    case Dict(_) => "dict"
    case Instance(c, _) => c
    case ClassRef(_) => "type"
    case Callable(_, _) => "function"
  }

  /** `isinstance(v, T)` for the class named `t`: `bool` is a subclass of `int`
      and every value is an `object`. */
  predicate IsInstance(v: Value, t: string) {
    TypeName(v) == t || (t == "int" && v.Bool?) || t == "object"
  }

  /** The values `vars` accepts: instances, class objects and functions. */
  predicate HasVars(v: Value) {
    v.Instance? || v.ClassRef? || v.Callable?
  }

  /** `vars(v)`: the attributes of an instance; the namespace of a class object
      or a function, which these values do not carry and which is left empty
      here; any other value raises TypeError. */
  function Vars(v: Value): (r: Result<Items>)
    ensures r.Ok? <==> HasVars(v)
    ensures r.Err? ==> r.exc == TypeError
    ensures v.Instance? ==> r == Ok(v.attrs)
    ensures v.ClassRef? || v.Callable? ==> r == Ok([])
  {
    match v
    case Instance(_, attrs) => Ok(attrs)
    case ClassRef(_) => Ok([])
    case Callable(_, _) => Ok([])
    case _ => Err(TypeError)
  }

  /** The number a `bool`, `int` or `float` stands for in a comparison. */
  function Numeric(v: Value): (r: Option<real>)
    ensures r.Some? <==> v.Bool? || v.Int? || v.Float?
  {
    match v
    case Bool(b) => Some(if b then 1.0 else 0.0)
    case Int(i) => Some(i as real)
    case Float(x) => Some(x)
    case _ => None
  }

  /** Python `==`: numbers compare by value across `bool`, `int` and `float`;
      other values compare structurally. */
  predicate PyEq(a: Value, b: Value) {
    if Numeric(a).Some? && Numeric(b).Some? then Numeric(a).value == Numeric(b).value else a == b
  }

  /** Python `v in xs` on a list. */
  predicate PyIn(v: Value, xs: seq<Value>) {
    exists i :: 0 <= i < |xs| && PyEq(v, xs[i])
  }
}

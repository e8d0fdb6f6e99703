/** Python type annotations as a closed tree, and the attrs attribute records
    that spock classes are made of. */
module Types {
  import opened Results
  import opened Values

  datatype PyType =
    /** A plain (non-subscripted) class: int, float, str, bool, list, tuple, NoneType, SavePath, ... */
    | Prim(name: string)
    /** `List[elem]` */
    | ListOf(elem: PyType)
    /** `Tuple[elems...]` */
    | TupleOf(elems: seq<PyType>)
    /** `Dict[key, val]` */
    | DictOf(key: PyType, val: PyType)
    /** An `Enum` subclass; `members` are the member values in declaration order. */
    | EnumOf(name: string, members: seq<Value>)
    /** A spock (attrs) class. */
    | ClassT(name: string)
    /** `Optional[inner]`, that is `Union[inner, None]`. */
    | OptionalOf(inner: PyType)
    /** `Callable` */
    | CallableT
    /** Any other subscripted generic (`Set[...]`, `Union[...]` of several types, ...). */
    | OtherGeneric(origin: string, args: seq<PyType>)
    /** A `TypeVar`, such as the `T` of an unsubscripted `List`. */
    | TypeVarT(name: string)
    /** An annotation that is neither a class nor a subscripted generic (a `NewType`, an instance). */
    | NotAClass(name: string)

  /** `hasattr(t, "__args__")`: the subscripted generics. */
  predicate IsGeneric(t: PyType) {
    t.ListOf? || t.TupleOf? || t.DictOf? || t.OptionalOf? || t.OtherGeneric?
  }

  /** `t.__args__` */
  function Args(t: PyType): (r: seq<PyType>)
    ensures t.ListOf? ==> r == [t.elem]
    ensures t.TupleOf? ==> r == t.elems
  {
    match t
    case ListOf(e) => [e]
    case TupleOf(es) => es
    case DictOf(k, v) => [k, v]
    case OptionalOf(x) => [x, Prim("NoneType")]
    case OtherGeneric(_, args) => args
    case _ => []
  }

  /** `t.__args__[0]`, when `t` has arguments. */
  function FirstArg(t: PyType): (r: Option<PyType>)
    ensures r.Some? <==> |Args(t)| > 0
    ensures r.Some? ==> r.value == Args(t)[0] && r.value < t
  {
    match t
    case ListOf(e) => Some(e)
    case TupleOf(es) => if es == [] then None else Some(es[0])
    case DictOf(k, _) => Some(k)
    case OptionalOf(x) => Some(x)
    case OtherGeneric(_, args) => if args == [] then None else Some(args[0])
    case _ => None
  }

  /** `t.__origin__.__name__.lower()` for the generics. */
  function OriginName(t: PyType): string {
    match t
    case ListOf(_) => "list"
    case TupleOf(_) => "tuple"
    case DictOf(_, _) => "dict"
    case OptionalOf(_) => "union"
    case OtherGeneric(o, _) => o
    case _ => ""
  }

  /** `t.__name__` (the unsubscripted name for generics). */
  function Name(t: PyType): string {
    match t
    case Prim(n) => n
    case ListOf(_) => "List"
    case TupleOf(_) => "Tuple"
    case DictOf(_, _) => "Dict"
    case EnumOf(n, _) => n
    case ClassT(n) => n
    case OptionalOf(_) => "Optional"
    case CallableT => "Callable"
    case OtherGeneric(o, _) => o
    case TypeVarT(n) => n
    case NotAClass(n) => n
  }

  /** One attrs attribute of a spock class, after construction. */
  datatype Attribute = Attribute(
    name: string,
    /** attrs `type`: for a subscripted generic this is its origin, e.g. `Prim("list")`. */
    typ: PyType,
    /** attrs `default`; `None` stands for attrs' `NOTHING`. */
    default: Option<Value>,
    /** metadata["type"], when present. */
    metaType: Option<PyType>,
    /** metadata["optional"], when present. */
    metaOptional: Option<bool>,
    /** metadata["special_key"], when present (`Some(Null)` is a present `None`). */
    metaSpecialKey: Option<Value>)

  /** A spock class: its name and its attributes in declaration order. */
  datatype SpockClass = SpockClass(name: string, attrs: seq<Attribute>)

  function ClassNames(cs: seq<SpockClass>): (r: seq<string>)
    ensures |r| == |cs| && forall i :: 0 <= i < |cs| ==> r[i] == cs[i].name
  {
    seq(|cs|, i requires 0 <= i < |cs| => cs[i].name)
  }

  function AttrNames(c: SpockClass): (r: seq<string>)
    ensures |r| == |c.attrs| && forall i :: 0 <= i < |c.attrs| ==> r[i] == c.attrs[i].name
  {
    seq(|c.attrs|, i requires 0 <= i < |c.attrs| => c.attrs[i].name)
  }
}

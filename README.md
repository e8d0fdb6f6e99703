# spock, modelled in Dafny

spock is a Python configuration library. A user declares configuration classes
(spock classes, built on attrs or dataclasses), and the library does the rest:

- it reads one or more YAML, TOML or JSON files, following their `config:` includes;
- it merges the files with command-line overrides and environment variables;
- it checks every value against its declared type;
- it builds one instance per class, resolving classes that reference each other;
- it can write the result back out as a configuration file.

This project models the deterministic core of that pipeline, and proves
properties of the model. There is one module per concern, in the library's
own terms:

- `Graph`: the class-dependency graph and its cycle check.
- `Payload`: payload assembly. This covers the include chain with its
  duplicate and cycle detection, the validation and merge of each file's
  entries, and the pruning of arguments.
- `Overrides`: command-line overrides walked into nested dicts.
- `TypeUtils`: the type tables and the list/tuple normalisation, including the
  tuple-length check, and the deep merge.
- `Resolvers`: the `${spock.env:NAME,DEFAULT}` resolver.
- `Saver`: output cleaning and file naming for the three savers.
- `Help`: docstring parsing and the help table.
- `Builder`, `DcBuilder`, `CmdLine`: instance building for the attrs and
  dataclass builders, and the command-line helpers. The precedence is
  class-level over global over default.
- `Typed`, `AttrTyped`, `LegacyTyped`, `Validators`: attribute ("katra")
  construction and validators for the three attrs backends.
- `FieldHandlers`, `FieldsHandler`, `Spaces`: the two generations of
  per-attribute field handlers, over the shared spaces.
- `Handler`, `Wrappers`, `Args`: the small helpers (extension whitelist,
  repr-dict filtering, argument types).

Supporting modules:

- `Values`, `Types`: Python values and type annotations, as closed datatypes.
- `Dicts`: insertion-ordered dicts, as association lists with string keys.
- `Strs`: the string operations the library uses.
- `Results`: the exception classes the library raises.

Code that changes state step by step is modelled as methods, which are proved
against specification functions. Examples are the field handlers, which write
into shared `fields` and `spock_space` dicts, the dependency record of the
include chain, the DFS of the cycle check, and the loops of the savers and
builders. The properties are proved as lemmas about those functions.

Everything that depends on the outside world is a parameter:

- the parsed contents of each configuration file;
- the process environment;
- the parsed command line;
- the class registry;
- uuids;
- the outcome of a file-system check or of a write.

## Model

| member | source | states |
|---|---|---|
| Args.BoolArg | spock/args.py:15-32 | `BoolArg(x)` is Python truthiness: a bool is itself, an int is true iff non-zero, None is false |
| Args.BooleanString | spock/args.py:278-292 | exactly `"True"` and `"False"` are accepted and map to the matching bool; every other string is a ValueError |
| Args.BooleanStringRoundTrip | spock/args.py:278-292 | `boolean_string` inverts `str` on both booleans |
| Args.Verify | spock/args.py:254-265 | more than one value type is a TypeError; the empty choice set is an IndexError; on success every choice has the returned type |
| Args.NewChoiceArg | spock/args.py:249-252 | construction succeeds iff `_verify` does; it keeps the choices and the default and records the verified type as `set_type` |
| Args.SameTypeAccepted | spock/args.py:254-265 | a non-empty choice set of one type `t` is accepted with `set_type == t` |
| Handler.NewHandler | spock/backend/handler.py:23-29 | a new handler holds the three supported extensions and the given S3 configuration |
| Handler.CheckExtension | spock/backend/handler.py:31-36 | passes iff the extension is one of the supported ones; otherwise a TypeError |
| Handler.CheckExtensionExact | spock/backend/handler.py:23-36 | exactly `.yaml`, `.toml` and `.json` pass, whatever the S3 configuration |
| Handler.UpperCaseRefused | spock/backend/handler.py:31-36 | the membership test is case-sensitive: `.YAML` is refused with a TypeError |
| Resolvers.EnvBody | spock/backend/resolvers.py:56 | the text between `${spock.env:` and the closing `}` is what the value is made of around it |
| Resolvers.CastEnv | spock/backend/resolvers.py:82-90 | the cast's value when it succeeds; a raising cast becomes a SpockEnvResolverError |
| Resolvers.HandleDefault | spock/backend/resolvers.py:45-51 | the default is the stripped text, and exactly the stripped text `None` stands for no value |
| Resolvers.GetEnvValue | spock/backend/resolvers.py:54-90 | more than one comma is an error; with no comma a set variable is cast and an unset one is an error |
| Resolvers.ParseEnvVariables | spock/backend/resolvers.py:25-42 | a non-string value, or a string not of the `${spock.env:...}` form, passes through unchanged; a matching string is resolved from its body |
| Resolvers.ResolveWithoutDefault | spock/backend/resolvers.py:25-90 | `${spock.env:NAME}`: the variable's value cast to the type; an unset variable is a SpockEnvResolverError |
| Resolvers.GetEnvWithDefault | spock/backend/resolvers.py:54-90 | a body with exactly one comma splits into the name and the default: a set variable is cast, else the stripped default is cast, and `None` gives None |
| Resolvers.ResolveWithDefault | spock/backend/resolvers.py:25-90 | `${spock.env:NAME,DEFAULT}`: a set variable wins; otherwise the stripped default is cast, and a default of `None` yields None without an error |
| Resolvers.ResolveTooManyCommas | spock/backend/resolvers.py:54-67 | two or more commas inside the braces are an error |
| Wrappers.PublicAttrs | spock/backend/wrappers.py:34 | defined exactly where `vars` is (instances, class objects, functions), TypeError otherwise; keeps exactly an instance's attributes not starting with `_` |
| Wrappers.FilterPublic | spock/backend/wrappers.py:34 | the result holds exactly the entries whose key does not start with `_` |
| Wrappers.ReprDict | spock/backend/wrappers.py:23-36 | succeeds exactly when every entry other than `__key__`, `__salt__` and `__maps__` has `vars` (TypeError otherwise); then holds those entries in order, each with its public attributes, and exactly their keys |
| Wrappers.ReprEntries | spock/backend/wrappers.py:26-35 | the same failure condition, and the visible entries in order each mapped to its public attributes, for the entries of the namespace's dict |
| Wrappers.VisibleEntries | spock/backend/wrappers.py:26-30 | the clean dict holds exactly the entries whose key is not hidden |
| Wrappers.ReprKeys | spock/backend/wrappers.py:23-36 | the printed dict has exactly the keys of the namespace minus the hidden ones |
| Wrappers.VisibleKeys | spock/backend/wrappers.py:26-30 | the clean dict has exactly the keys of the namespace minus the hidden ones |
| Values.Vars | spock/backend/saver.py:242-243 | `vars` succeeds exactly on instances, class objects and functions, and raises TypeError otherwise; an instance gives its attributes |
| Wrappers.Iter | spock/backend/wrappers.py:45-48 | `__iter__` yields every entry in order, the hidden ones included |
| Spaces.ConfigSpace.Name | spock/backend/spaces.py:16-18 | `name` is the wrapped class's name |
| Spaces.AttributeSpace.Field | spock/backend/spaces.py:26-28 | the getter yields exactly the attribute's entry in the shared fields dict, and a KeyError while there is none |
| Spaces.AttributeSpace.SetField | spock/backend/spaces.py:30-35 | the setter writes the attribute's entry, which then reads back, and leaves every other entry as it was |
| Spaces.SharedFields | spock/backend/spaces.py:11-35 | two attribute spaces over one config space share its dict: a write through one is what the other reads for the same name, and nothing changes for a different name |
| Spaces.ConfigSpace.constructor | spock/backend/spaces.py:12-14 | a config space holds the given class and fields dict |
| Spaces.AttributeSpace.constructor | spock/backend/spaces.py:22-24 | an attribute space holds the given attribute and config space |
| Spaces.BuilderSpace.constructor | spock/backend/spaces.py:38 | a builder space holds the given arguments and spock space |
| Validators.CheckInstance | spock/backend/validators.py:17-36 | fails exactly when the value is not an instance of the type (of any member of a tuple of types), with a TypeError |
| Validators.InstanceOfCall | spock/backend/validators.py:241-277 | a directory or file type requires a string and then defers to the filesystem check; an empty tuple of types fails on `self.type[0]` with an IndexError |
| Validators.InstanceOfIsCheck | spock/backend/validators.py:241-277 | for any other type the instance validator is `_check_instance`, so it passes exactly on instances |
| Validators.IsLenCall | spock/backend/validators.py:307-326 | a value without a length is a TypeError; otherwise it fails exactly when the length differs, with a ValueError |
| Validators.InTypeCall | spock/backend/validators.py:422-438 | fails exactly when the value's exact type is not among the options, with a ValueError |
| Validators.InTypeIsExact | spock/backend/validators.py:422-438 | `_in_type` compares exact types: `True` is refused for `int` though the instance check accepts it |
| Validators.Elements | spock/backend/validators.py:384 | what `zip` iterates: the elements of a list or tuple, the characters of a string, the keys of a dict; nothing else is iterable; as many as `len` counts |
| Validators.FirstFailure | spock/backend/validators.py:386-390 | passes iff every outcome passes; otherwise it is the first failing outcome, all before it passing |
| Validators.Built | spock/backend/validators.py:383 | building a member validator fails exactly when its construction raised |
| Validators.SubscriptedGenericCall | spock/attr_backend/typed.py:33-48 | passes exactly when the value is iterable and every element's exact type name is the recorded one; otherwise a TypeError |
| Validators.BuiltPass | spock/backend/validators.py:383 | when every member validator was built, building them all passes |
| Validators.MemberOutcomes | spock/backend/validators.py:384-390 | one outcome per zipped pair, as many as the shorter of types and members, each the member's validator on that member |
| Validators.OrderedUnfold | spock/backend/validators.py:368-390 | with the members built, an iterable value and a passing iterable validator, the result is the first failure among the zipped member checks |
| Validators.IterableFirst | spock/backend/validators.py:383-387 | the iterable validator runs before any member check: its failure is the result whatever the members are |
| Validators.BuildFirst | spock/backend/validators.py:383 | the member validators are built first: the first one whose construction raised decides the result |
| Validators.OrderedPass | spock/backend/validators.py:368-390 | passes iff the members were built, the value is iterable, the iterable validator passes and every zipped member passes its validator |
| Validators.ExtraMembersUnchecked | spock/backend/validators.py:384 | members beyond the number of types are not checked (`zip` stops at the shorter) |
| Validators.ExtraTypesUnused | spock/backend/validators.py:384 | types beyond the number of members are not checked either |
| Validators.NotIterable | spock/backend/validators.py:384 | a value `zip` cannot iterate is a TypeError before anything is checked |
| Validators.CallOrdered | spock/backend/validators.py:368-390 | the method with its loops computes exactly the ordered validator's outcome |
| Validators.CheckMembers | spock/backend/validators.py:389-390 | the loop over the zipped pairs stops at, and reports, the first failing member |
| Validators.FirstFailureAt | spock/backend/validators.py:389-390 | the first failure is the outcome at the first failing position |
| Validators.AllOfPair | spock/attr_backend/typed.py:86-99 | two validators in a list run in order: the second only when the first passes |
| Typed.HandleOptionalTyping | spock/backend/typed.py:484-510 | the optional flag is set exactly for `Optional[X]`, which is stripped to `X`; any other type comes back unchanged; the same stripping in the older attrs backend (spock/backend/attr/typed.py:177-210) |
| Typed.ExtractBaseType | spock/backend/typed.py:35-54 | a non-generic gives its name; a generic gives `Name[inner]` for the rendering of its first argument; a generic without arguments is an IndexError; the same rendering in the older attrs backend (spock/backend/attr/typed.py:15-31) |
| Typed.ExtractBaseTypeFirstOnly | spock/backend/typed.py:35-54 | only the first argument is rendered: the other members of a `Tuple` and the value type of a `Dict` never appear |
| Typed.ExtractBaseTypeNested | spock/backend/typed.py:35-54 | `List[List[int]]` renders as `List[List[int]]` |
| Typed.CheckEnumProps | spock/backend/typed.py:219-238 | Enum values of more than one type are a TypeError; an empty Enum is an IndexError; on success all values have the returned type and are allowed in declaration order |
| Typed.RecursiveGenericValidator | spock/backend/typed.py:57-154 | a one-argument `Tuple`, a `Dict` with non-`str` keys and any other generic are TypeErrors; a `Tuple` of n members gets an ordered validator of n members whose whole-value check is `tuple` and length n; every error is a TypeError or an IndexError |
| Typed.TupleLengthCheck | spock/backend/typed.py:95-97 | the whole-value check of a `Tuple` of n members rejects a tuple of another length with ValueError |
| Typed.TupleWrongLength | spock/backend/typed.py:75-103 | a tuple of the wrong length fails the `Tuple` validator with ValueError once its member validators are built |
| Typed.ListValidatorChecksEach | spock/backend/typed.py:105-114 | a `List[X]` validator accepts a list exactly when X's validator accepts every element, and rejects a tuple with TypeError |
| Typed.EnumValidatorMembership | spock/backend/typed.py:147-151 | an Enum validator accepts only values among the Enum's values |
| Typed.CastEnumDefault | spock/backend/typed.py:276-291 | an Enum member given as default stands for its value; any other default is kept |
| Typed.ClassOptions | spock/backend/typed.py:357-408 | one option per Enum value, the class name for each value that is a class |
| Typed.GenericAliasKatra | spock/backend/typed.py:157-216 | fails exactly when the generic validator or the base type cannot be built; the attrs type is the origin, `type` and `base` are recorded; a given default or optional attribute keeps the default, and the validator is the generic one, letting None through exactly when optional |
| Typed.EnumKatra | spock/backend/typed.py:241-408 | fails exactly when the Enum's values are not of one type; the attrs type is the Enum and `base` its name; the default is cast to its value; the validator checks type and membership (an Enum of classes the value's class), letting None through exactly when optional, and is the one the generic path builds for the Enum |
| Typed.TypeKatra | spock/backend/typed.py:411-481 | an annotation that is neither a class nor a generic is a TypeError; otherwise `base` and `special_key` are recorded and the attribute takes the type, default and optionality that the `bool` and `SavePath` cases give, with the instance check letting None through exactly when optional |
| Typed.CallableKatra | spock/backend/typed.py:513-561 | the attrs type is the annotation, the default is kept when given or optional, and the callable check lets None through exactly when optional |
| Typed.Dispatch | spock/backend/typed.py:580-601 | a callable always builds; a generic without arguments is an IndexError and a non-class a TypeError; `optional` is recorded exactly when inherited or forced by `bool`/`SavePath`, and then None passes the validator |
| Typed.BuildKatra | spock/backend/typed.py:564-603 | every built attribute records the stripped type as `og_type` |
| Typed.GenericAliasKatraOptional | spock/backend/typed.py:157-216 | a generic attribute records `optional` exactly when it is optional, and then its validator lets None through |
| Typed.EnumKatraOptional | spock/backend/typed.py:241-408 | the same agreement for Enum attributes |
| Typed.TypeKatraOptional | spock/backend/typed.py:411-481 | `bool` and `SavePath` are forced optional; every other simple type keeps the flag it was given, with the `optional` wrapper to match |
| Typed.CallableKatraOptional | spock/backend/typed.py:513-561 | a callable attribute records `optional` exactly when it is optional, with the `optional` wrapper to match |
| Typed.KatraOptionalMeta | spock/backend/typed.py:564-603 | the optional metadata is present exactly when the attribute is optional (from `Optional`, from inheritance, or forced), and then the validator lets None through |
| Typed.OptionalIsInherited | spock/backend/typed.py:582-585 | `Optional[X]` builds the same attribute as X inherited as optional |
| Typed.BoolKatra | spock/backend/typed.py:441-445 | a `bool` attribute is optional and defaults to `False` unless it is given a string or `True` |
| Typed.SavePathKatra | spock/backend/typed.py:447-450 | a `SavePath` attribute is an optional `str` with special key `SavePath` and base `SavePath` |
| Typed.NotAClassKatra | spock/backend/typed.py:433-438 | an annotation that is neither a class nor a generic is a TypeError |
| Typed.KatraDefault | spock/backend/typed.py:157-603 | a given default is kept (an Enum member as its value); without one an optional attribute defaults to None and a required one has no default |
| AttrTyped.RecursiveGenericValidator | spock/backend/attr/typed.py:34-59 | every generic becomes a deep iterable over its origin whose members are checked against its first argument only; a generic without arguments is an IndexError, the only error |
| AttrTyped.TupleUsesFirstType | spock/backend/attr/typed.py:34-59 | a `Tuple[A, ...]` validator accepts a tuple exactly when every member is an instance of A, whatever the other arguments are |
| AttrTyped.DictValuesUnchecked | spock/backend/attr/typed.py:34-59 | a `Dict[str, int]` validator iterates only the keys: every dict with string keys passes, whatever its values |
| AttrTyped.GenericAliasKatra | spock/backend/attr/typed.py:62-100 | fails exactly when the validator or the base type cannot be built, with IndexError; the attrs type is the origin and `base` is recorded, `type` is not; a given default wins over `optional`, which alone wraps the validator and records `optional` |
| AttrTyped.EnumKatra | spock/backend/attr/typed.py:103-138 | fails exactly when the Enum's values are not of one type; with a default or optional the attrs type is the value type, otherwise the Enum; the default is not cast; `optional` is never recorded; the validator checks type and membership and lets None through only when optional without a default |
| AttrTyped.TypeKatra | spock/backend/attr/typed.py:141-174 | reading the name of an annotation that has none is an AttributeError; a `bool` takes the default `False`; the default is kept when given or optional, and the instance check lets None through only when optional without a default |
| AttrTyped.BuildKatra | spock/backend/attr/typed.py:177-241 | a generic without arguments is an IndexError; a simple annotation fails exactly when it is not a class; a given default is kept unless the type is `bool`, and a required attribute without one gets none |
| AttrTyped.KatraOptionalMeta | spock/backend/attr/typed.py:62-241 | the optional metadata is present exactly for an `Optional` non-`bool` attribute without a default, and then the validator lets None through |
| AttrTyped.BoolKatra | spock/backend/attr/typed.py:141-174 | a `bool` attribute always defaults to `False`, whatever default it is given, and records no optional metadata |
| AttrTyped.OptionalEnumKatra | spock/backend/attr/typed.py:103-138 | an optional Enum without a default lets None through and defaults to None, but records no optional metadata |
| AttrTyped.EnumDefaultNotCast | spock/backend/attr/typed.py:103-138 | an Enum member given as default is kept as the member, not its value |
| LegacyTyped.ExtractBaseType | spock/attr_backend/typed.py:51-62 | defined exactly for the members with a type argument, and then the name of the first one |
| LegacyTyped.SubscriptedMembers | spock/attr_backend/typed.py:157-162 | the generic branch is taken for exactly the ten subscripted members `LIST_*` and `TUPLE_*` |
| LegacyTyped.NestedElementNeverMatches | spock/attr_backend/typed.py:33-48 | the element type a nested member records is `List` or `Tuple`, never the type name of a list or tuple value, so `LIST_LIST` and the like reject every value holding one |
| LegacyTyped.Unsubscripted | spock/attr_backend/typed.py:85 | the attrs type of a subscripted member is the unsubscripted `List` or `Tuple` member, with the same origin and the type variable `T` as its argument |
| LegacyTyped.GenericAliasKatra | spock/attr_backend/typed.py:65-100 | as written: the attrs type is the unsubscripted typing `List` or `Tuple` and the element type is recorded as `type`; a default is kept exactly when truthy; optional or not, the validator behaves as the required origin-then-elements check, so `optional` has no effect |
| LegacyTyped.GenericAliasKatraIntended | spock/attr_backend/typed.py:65-100 | as intended: the same type and metadata; every default but None is kept; the validator is the origin-then-elements check, letting None through exactly when optional |
| LegacyTyped.TypeKatra | spock/attr_backend/typed.py:103-135 | a `BOOL` defaults to `False` and is optional; a default other than None is kept; no metadata is recorded and the attrs type only for a required attribute without default; the instance check of the origin or the type lets None through exactly when optional |
| LegacyTyped.BuildKatra | spock/attr_backend/typed.py:138-163 | a subscripted member records its element type and rejects None even when optional; any other records none and lets None through when optional or a `BOOL`; None is never recorded as a default |
| LegacyTyped.OptionalGenericRejectsNone | spock/attr_backend/typed.py:84-90 | an optional subscripted attribute as written still rejects None: the element check iterates over it |
| LegacyTyped.FalsyDefaultDropped | spock/attr_backend/typed.py:84-96 | the truthiness test drops a falsy default such as `[]`: the attribute ends up without a default |
| LegacyTyped.IntendedOptionalGeneric | spock/attr_backend/typed.py:65-100 | as intended, an optional attribute accepts None and otherwise validates as the required one; every default other than None is kept |
| LegacyTyped.BuildKatraIntended | spock/attr_backend/typed.py:138-162 | with the generic branch corrected, `katra` still agrees with the code as written on every member without a type argument, and on a required subscripted member with a truthy default |
| LegacyTyped.BuildKatraDiffers | spock/attr_backend/typed.py:65-100 | `katra` as written rejects None for an optional subscripted member and drops an empty-list default; the corrected version accepts None and keeps that default |
| LegacyTyped.BoolKatra | spock/attr_backend/typed.py:123-135 | a `BOOL` parameter is optional with default `False`, and accepts exactly None and bools |
| LegacyTyped.GenericKatraChecks | spock/attr_backend/typed.py:86-99 | a required subscripted attribute accepts a value exactly when it is of the bare origin type and every element's exact type is the recorded one |
| LegacyTyped.OriginThenElements | spock/attr_backend/typed.py:86-99 | the origin check followed by the element check passes exactly when both conditions hold |
| TypeUtils.FieldPairs | spock/backend/utils.py:21-24 | one pair per class, in order: its name and its attribute names |
| TypeUtils.AttrFields | spock/backend/utils.py:9-24 | the dict comprehension has one entry per class name |
| TypeUtils.AttrFieldsLookup | spock/backend/utils.py:9-24 | each class name maps to the attribute names of the last class of that name, in declaration order |
| TypeUtils.AttrFieldsKeys | spock/backend/utils.py:9-24 | the keys are exactly the class names |
| TypeUtils.AttrTypePairs | spock/backend/utils.py:43-47 | one pair per attribute: its name and its `type` metadata, or None without one |
| TypeUtils.ClassTypePairs | spock/backend/utils.py:41-48 | one pair per class: its name and the table of its attributes |
| TypeUtils.TypeTable | spock/backend/utils.py:27-49 | the type table has one entry per class name |
| TypeUtils.TypeTableKeys | spock/backend/utils.py:27-49 | its keys are exactly the class names |
| TypeUtils.TypeFields | spock/backend/utils.py:27-49 | the nested loops build exactly the two-level type table; the same table in the older attrs backend (spock/backend/attr/utils.py:9-31) |
| TypeUtils.TypeTableLookup | spock/backend/utils.py:27-49 | every attribute of the last class of a name is found under that class name with its `type` metadata, or None without one |
| TypeUtils.AgreesPut | spock/backend/utils.py:70 | writing a leaf keeps the flat dict holding the last value for every key |
| TypeUtils.AgreesUpdate | spock/backend/utils.py:67-68 | merging a flattened sub-table keeps the flat dict holding the last value for every key |
| TypeUtils.FlattenTypeDict | spock/backend/utils.py:52-71 | nested tables are lifted to one level without duplicate keys, and each key holds the value of its last leaf in depth-first order; the same flattening in the older attrs backend (spock/backend/attr/utils.py:34-53) |
| TypeUtils.ListToTuple | spock/backend/utils.py:138-178 | a non-generic type, a tuple and a string naming a class are left alone; a list of the wrong length for a `Tuple` is a ValueError; a converted list keeps its length and becomes a tuple exactly when the origin is `tuple`; a non-dict never becomes a dict; a non-empty dict under a generic type never converts; the older variant is the same conversion without the class-name exception and without the length check (spock/backend/attr/utils.py:87-115) |
| TypeUtils.StrToTuple | spock/backend/utils.py:154-178 | a string is left as it is or the conversion fails: a string that is not left alone and is not empty always fails, as its converted first character cannot be stored back |
| TypeUtils.CharToTuple | spock/backend/utils.py:171-172 | a one-character string converts exactly when it is left alone; otherwise the conversion fails |
| TypeUtils.DictRuntimeError | spock/backend/utils.py:171-172 | a non-empty dict under a generic type with a plain first argument raises RuntimeError: its first key is stored back under `0` and the dict changes size during the iteration; the same in the older variant (spock/backend/attr/utils.py:108-109) |
| TypeUtils.DictElementRuntimeError | spock/backend/utils.py:171-172 | `[{"a": 1}]` typed `List[Dict[str, int]]` raises RuntimeError |
| TypeUtils.ElemsToTuple | spock/backend/utils.py:171-172 | the element loop keeps the number of elements |
| TypeUtils.ListToTupleIdempotent | spock/backend/utils.py:154-160 | a successful conversion is final: converting its result again changes nothing, as happens when a payload composed from several files is converted more than once |
| TypeUtils.ElemsIdempotent | spock/backend/utils.py:171-172 | the element loop, applied again to its own output, gives that output back |
| TypeUtils.LegacyNoLengthError | spock/backend/attr/utils.py:87-115 | the older variant never raises the tuple-length ValueError |
| TypeUtils.StrNoLengthError | spock/backend/attr/utils.py:108-109 | nor does it on a string value |
| TypeUtils.CharNoLengthError | spock/backend/attr/utils.py:108-109 | nor does it on the one-character strings a string value iterates into |
| TypeUtils.ElemsNoLengthError | spock/backend/attr/utils.py:108-109 | nor does its element loop |
| TypeUtils.ElemsStep | spock/backend/utils.py:171-172 | the element loop converts the first element, then the rest, failing on the first failure |
| TypeUtils.RecursiveListToTuple | spock/backend/utils.py:138-178 | the method that rewrites the elements one by one computes exactly the conversion; likewise for the older variant (spock/backend/attr/utils.py:87-115) |
| TypeUtils.ConvertElems | spock/backend/utils.py:171-172 | the element loop as a method computes exactly the specified element conversion |
| TypeUtils.PutNoEmpty | spock/backend/utils.py:97-98 | writing a value that is not an empty dict keeps the output free of empty dicts |
| TypeUtils.PutClean | spock/backend/utils.py:94-108 | writing a key other than `config` with a value that is not an empty dict keeps the output clean |
| TypeUtils.Convert | spock/backend/utils.py:74-109 | the converted dict never holds a `config` key or an empty dict; without a type table the conversion fails with the error of flattening what stands in its place, and an input that is not a dict is an AttributeError; the same for the older variant (spock/backend/attr/utils.py:56-84) |
| TypeUtils.NotATableError | spock/backend/utils.py:52-71 | flattening a type in place of a table is a TypeError exactly for `dict` or a subscripted `Dict`, whose `items` is the unbound `dict.items`, and an AttributeError otherwise |
| TypeUtils.ConvertDictTyped | spock/backend/utils.py:65 | a class dict under a key typed `Dict[str, int]` fails with TypeError; under an untyped or absent key with AttributeError |
| TypeUtils.ConvertEntries | spock/backend/utils.py:93-108 | the loop over the entries keeps the output clean |
| TypeUtils.ConvertRepeated | spock/backend/utils.py:99-105 | the loop over a repeated class's entries keeps the output clean |
| TypeUtils.LastNonEmpty | spock/backend/utils.py:99-105 | the conversion of an element of a repeated class that converts to a non-empty dict, with no later element doing so; none exactly when no element does |
| TypeUtils.RepeatedLookup | spock/backend/utils.py:99-105 | the loop over a repeated class's entries leaves under its key the last non-empty conversion, and changes no other key |
| TypeUtils.EntriesRest | spock/backend/utils.py:93-108 | one step of the loop over the entries: what the first entry leaves under its key, and nothing under any other key |
| TypeUtils.EntriesLookup | spock/backend/utils.py:93-108 | over a dict with distinct keys, every key other than `config` ends up with what its own entry leaves there, and every other key keeps its earlier value |
| TypeUtils.EntryOk | spock/backend/utils.py:96-108 | a successful loop converted every nested dict, and found a type entry for every other value that is not a repeated class, converting it when the type is not None |
| TypeUtils.ConvertLookup | spock/backend/utils.py:74-109 | key by key: a nested dict maps to its conversion when that is non-empty, a repeated class to the conversion of its last element with a non-empty result, a typed value to `_recursive_list_to_tuple` of it against its type; a value typed None and `config` are dropped; no other key appears; a successful conversion has a type entry for every other key |
| TypeUtils.ConvertUntypedKeyError | spock/backend/utils.py:106 | a value with no type entry raises KeyError |
| TypeUtils.ConvertToTuples | spock/backend/utils.py:74-109 | the method with its loop computes exactly the specified conversion; likewise for the older variant (spock/backend/attr/utils.py:56-84) |
| TypeUtils.RepeatedToTuples | spock/backend/utils.py:99-105 | the loop over a repeated class's entries as a method computes exactly the specified conversion |
| TypeUtils.DeepMerge | spock/backend/utils.py:112-135 | no updates leave the source as it is; updates into a value that is not a dict fail; a successful non-empty update gives a non-empty dict |
| TypeUtils.MergeIn | spock/backend/utils.py:128-134 | the same for the loop over the remaining updates |
| TypeUtils.MergeKeeps | spock/backend/utils.py:128-134 | keys that the updates do not mention keep their value |
| TypeUtils.MergeReplaces | spock/backend/utils.py:133-134 | an update value that is not a non-empty dict replaces the old value |
| TypeUtils.MergeMerges | spock/backend/utils.py:129-132 | a non-empty dict update value is merged, recursively, into the old value |
| TypeUtils.MergeMergesHead | spock/backend/utils.py:129-132 | the same for the first update |
| TypeUtils.MergeMergesTail | spock/backend/utils.py:128-134 | the same for a later update, once the first has been applied |
| TypeUtils.DeepUpdate | spock/backend/utils.py:112-135 | the method updating the dict entry by entry computes exactly the merge |
| DcBuilder.IntToFloat | spock/backend/dataclass/builder.py:103-116 | the value changes exactly when it is an exact int and the target is `float`, and its numeric value is kept; the same widening in the older builder (spock/builder.py:306-319) |
| DcBuilder.WidenedFloat | spock/backend/dataclass/builder.py:114-115 | once widened, an int or float is a `float` instance; a bool, string or None is not |
| DcBuilder.IntToFloatIdempotent | spock/backend/dataclass/builder.py:103-116 | widening twice is widening once |
| DcBuilder.CheckChoice | spock/backend/dataclass/builder.py:223-239 | the value is returned unchanged exactly when it is one of the choices, and otherwise the result is a ValueError; the same check in the older builder (spock/builder.py:426-442) |
| DcBuilder.WidenAll | spock/backend/dataclass/builder.py:170 | every element is widened towards the element type, and none is added or lost |
| DcBuilder.CheckValidType | spock/backend/dataclass/builder.py:133-177 | a plain type passes exactly when the widened value is an instance of its first base; a choice passes exactly when it is among the choices and of the set type; an iterable passes exactly when it is a list or tuple whose first widened element (if any) has the element type, and becomes a tuple of the widened elements; every failure is a ValueError; the same check in the older builder (spock/builder.py:336-380) |
| DcBuilder.OnlyFirstChecked | spock/backend/dataclass/builder.py:171-176 | only the first element is checked, so `[1, "a"]` passes as a list of ints |
| DcBuilder.Cast | spock/backend/dataclass/utils.py:14-27 | the result is never a list; a list becomes a tuple with the same elements and anything else is unchanged |
| DcBuilder.CheckFunction | spock/backend/dataclass/builder.py:118-131 | it fails exactly when the type check does, and then with a ValueError; its result is the cast of the checked value and is never a list; the same in the older builder (spock/builder.py:321-334) |
| DcBuilder.CheckFunctionIdempotent | spock/backend/dataclass/builder.py:118-131 | a checked value passes the check again unchanged |
| DcBuilder.CheckForDefaults | spock/backend/dataclass/builder.py:195-220 | a `ChoiceArg` gives its own default, which must be a choice or it is a ValueError; otherwise the field's default, else its factory's value, else nothing is found; the same lookup in the older builder (spock/builder.py:398-423) |
| DcBuilder.FieldValue | spock/backend/dataclass/builder.py:79-99 | the value of one field: class-level, then global, then default, each type-checked; then `None` for an optional type, `False` for a `Bool` type, else a ValueError; the same in the older builder (spock/builder.py:282-302) |
| DcBuilder.ClassLevelFirst | spock/backend/dataclass/builder.py:79-83 | a class-level value wins, and a global value of the same name changes nothing |
| DcBuilder.GlobalBeforeDefault | spock/backend/dataclass/builder.py:82-83 | without a class-level value the global value is used whatever the default |
| DcBuilder.MissingValue | spock/backend/dataclass/builder.py:85-99 | with no value anywhere the default decides, then the factory, then optionality, then `Bool`, and otherwise it is a ValueError |
| DcBuilder.RequiredIntMissing | spock/backend/dataclass/builder.py:97-98 | a required `IntArg` that appears nowhere is a ValueError |
| DcBuilder.HandleFieldsSnoc | spock/backend/dataclass/builder.py:72-99 | the loop stops at the first failing field, and each field records the save path before its value is computed |
| DcBuilder.HandleFieldsOk | spock/backend/dataclass/builder.py:66-100 | the fields are built exactly when every field's value is |
| DcBuilder.HandleFieldsKeys | spock/backend/dataclass/builder.py:66-100 | the keys of the built fields are exactly the field names |
| DcBuilder.HandleFieldsValues | spock/backend/dataclass/builder.py:66-100 | with distinct names, each field holds exactly the value computed for it |
| DcBuilder.HandleFieldsSavePath | spock/backend/dataclass/builder.py:75-77 | the recorded save path is what the config gives the last `SavePathOptArg` field, or None |
| DcBuilder.HandleFieldsStops | spock/backend/dataclass/builder.py:72-99 | once a prefix of the fields fails, the later fields change nothing |
| DcBuilder.SaveTarget | spock/builder.py:225-231 | the user's path wins, then the recorded save path, and with neither it is a ValueError |
| DcBuilder.ConfiguredSavePath | spock/builder.py:225-231 | a save path given in the config for a `SavePathOptArg` field is where `save` writes when the user gives no path |
| DcBuilder.DataClassBuilder.constructor | spock/backend/dataclass/builder.py:35-39 | the builder starts with the input classes and no save path |
| DcBuilder.DataClassBuilder.HandleArguments | spock/backend/dataclass/builder.py:66-100 | the method with its loop gives exactly the specified fields, or first error, and records exactly the specified save path; the same as `_handle_basic_arguments` of the older builder (spock/builder.py:255-303) |
| DcBuilder.DataClassBuilder.SavePath | spock/builder.py:225-231 | the method picks exactly the specified save target |
| DcBuilder.NewBuilder | spock/backend/dataclass/builder.py:40-42 | the builder is created exactly when every input is a dataclass, with the inputs in order, and otherwise the result is a TypeError; the same check in the older builder (spock/builder.py:42-45) |
| Builder.VerifyInputs | spock/backend/attr/builder.py:34-36 | the inputs are accepted exactly when every one is an attrs class, and are then kept in order; otherwise the result is a TypeError; the same check in `AttrBuilder._verify_attr` (spock/backend/builder.py:544-554) |
| Builder.InitValues | spock/backend/attr/builder.py:167 | a new instance has one value per attribute, in order: the given keyword, else the default; the same code in the backend builder (spock/backend/builder.py:638) |
| Builder.Instantiate | spock/backend/attr/builder.py:165-167 | `c(**kwargs)` succeeds exactly when the keywords are a mapping that names only attributes and covers every attribute without a default; the result is an instance of `c` holding every attribute; a failure is a TypeError; the same code in the backend builder (spock/backend/builder.py:636-638) |
| Builder.InstantiateAll | spock/backend/attr/builder.py:165 | one instance per list entry, in order, exactly when every entry instantiates; the same code in the backend builder (spock/backend/builder.py:636) |
| Builder.Matches | spock/backend/attr/builder.py:154 | the positions matched are exactly those of the names equal to the value, in increasing order; the same code in the backend builder (spock/backend/builder.py:625) |
| Builder.MatchesNone | spock/backend/attr/builder.py:154 | a value equal to no name matches nowhere; the same code in the backend builder (spock/backend/builder.py:625) |
| Builder.MatchesUnique | spock/backend/attr/builder.py:154 | a name that occurs once matches only at its position; the same code in the backend builder (spock/backend/builder.py:625) |
| Builder.NestedClass | spock/backend/attr/builder.py:140-172 | every failure is a ValueError or a TypeError; the same code in the backend builder (spock/backend/builder.py:611-643) |
| Builder.NestedClassOther | spock/backend/attr/builder.py:170-171 | a value naming no input class is returned unchanged; the same code in the backend builder (spock/backend/builder.py:641-642) |
| Builder.NestedClassAmbiguous | spock/backend/attr/builder.py:157-158 | a name shared by two input classes is a ValueError; the same code in the backend builder (spock/backend/builder.py:628-629) |
| Builder.NestedClassMissing | spock/backend/attr/builder.py:160-162 | a reference to a class missing from the payload, or present as `None`, is a ValueError; the same code in the backend builder (spock/backend/builder.py:631-633) |
| Builder.NestedClassBuilds | spock/backend/attr/builder.py:163-168 | a reference to a class whose payload entry is a dict gives exactly the instance built from that entry; the same code in the backend builder (spock/backend/builder.py:634-639) |
| Builder.NestedClassFrame | spock/backend/attr/builder.py:140-172 | the payload is read only under class names: other entries change nothing; the same code in the backend builder (spock/backend/builder.py:611-643) |
| Builder.ClassLevel | spock/backend/attr/builder.py:109-110 | on a dict it is the lookup; a value is found only in a dict; only dicts, strings, lists and tuples can be searched; the same code in the backend builder (spock/backend/builder.py:580-581) |
| Builder.ClassLevelBeatsGlobal | spock/backend/attr/builder.py:109-113 | a class-level value wins: adding or changing a global value of the same name changes nothing; the same code in the backend builder (spock/backend/builder.py:580-584) |
| Builder.GlobalWhenNoClassLevel | spock/backend/attr/builder.py:112-113 | without a class-level value the global value is used, passed through the nested-class handling; the same code in the backend builder (spock/backend/builder.py:583-584) |
| Builder.HandleAttrsSnoc | spock/backend/attr/builder.py:107-119 | one attribute step: stop on the first failure, otherwise set the field when there is a value and then apply the special-key step; the same code in the backend builder (spock/backend/builder.py:578-590) |
| Builder.HandleAttrsStops | spock/backend/attr/builder.py:107-119 | once an attribute fails, the later attributes change nothing; the same code in the backend builder (spock/backend/builder.py:578-590) |
| Builder.HandleAttrsOk | spock/backend/attr/builder.py:106-120 | the fields are complete exactly when every attribute's value could be computed; the same code in the backend builder (spock/backend/builder.py:577-591) |
| Builder.HandleAttrsSaved | spock/backend/attr/builder.py:115-119 | on success the save path depends only on global payload entries and defaults of special-key attributes, never on class-level values; the same code in the backend builder (spock/backend/builder.py:586-590) |
| Builder.HandleAttrsKeys | spock/backend/attr/builder.py:106-120 | a field is present exactly for the attributes that have a class-level or a global value; the same code in the backend builder (spock/backend/builder.py:577-591) |
| Builder.HandleAttrsValues | spock/backend/attr/builder.py:106-120 | each attribute that has a value holds exactly that value; the same code in the backend builder (spock/backend/builder.py:577-591) |
| Builder.SaveFoldGlobal | spock/backend/attr/builder.py:115-117 | the last special-key attribute with a global value decides the save path; the same code in the backend builder (spock/backend/builder.py:586-588) |
| Builder.SaveFoldNone | spock/backend/attr/builder.py:115 | without special-key attributes the save path is left as it was; the same code in the backend builder (spock/backend/builder.py:586) |
| Builder.HandleAttrsFields | spock/backend/attr/builder.py:106-113 | the fields do not depend on the save path held before; the same code in the backend builder (spock/backend/builder.py:577-584) |
| Builder.FirstIndex | spock/backend/base.py:329 | `list.index` gives the first position of the name; the same code in the backend builder (spock/backend/builder.py:173) |
| Builder.RepeatedInOrder | spock/backend/attr/builder.py:102-138 | a class whose payload entry is a list gives one instance of the first input class of that name per entry, in order, exactly when every entry instantiates, and leaves the save path alone (lines 102-103); the same code in the backend builder (spock/backend/builder.py:573-574); the same for `_handle_repeated` (lines 122-138); the same code in the backend builder (spock/backend/builder.py:593-609) |
| Builder.DefaultClassName | spock/backend/base.py:319-326 | a default of a base type gives no name; a name comes from a class or callable default; a default without a `__name__` is an AttributeError; the same code in the backend builder (spock/backend/builder.py:163-170) |
| Builder.LateDefaultsKeep | spock/backend/base.py:320-321 | late defaults never replace a field that was already set; the same code in the backend builder (spock/backend/builder.py:164-165) |
| Builder.LateDefaultsKeys | spock/backend/base.py:314-334 | the keys after the late defaults are the old ones and those of the attributes whose default names a payload entry; the same code in the backend builder (spock/backend/builder.py:158-178) |
| Builder.LateDefaultsHasOld | spock/backend/base.py:320-321 | every field set before is still set; the same code in the backend builder (spock/backend/builder.py:164-165) |
| Builder.LateDefaultsStops | spock/backend/base.py:320-333 | once a late default fails, the loop stops; the same code in the backend builder (spock/backend/builder.py:164-177) |
| Builder.TypeNamesOne | spock/backend/base.py:263 | instances of one class give exactly one class name, and an empty list gives none; the same code in the backend builder (spock/backend/builder.py:107) |
| Builder.AutoGeneratedNamed | spock/backend/base.py:272-294 | everything built for a class is an instance of that class or a list of them; the same code in the backend builder (spock/backend/builder.py:116-138) |
| Builder.AutoGeneratedValue | spock/backend/base.py:272-294 | the build does not depend on the save path held before; the same code in the backend builder (spock/backend/builder.py:116-138) |
| Builder.RecordNamed | spock/backend/base.py:262-268 | a build is recorded under its class's name; the several-names ValueError cannot arise; an empty repeated list is an IndexError; the same code in the backend builder (spock/backend/builder.py:106-112) |
| Builder.RecordOne | spock/backend/base.py:262-268 | the same for any build named after one class; the same code in the backend builder (spock/backend/builder.py:106-112) |
| Builder.GeneratedStep | spock/backend/base.py:260-268 | one successful step of `generate` records its class's build under its name; the same code in the backend builder (spock/backend/builder.py:104-112) |
| Builder.GeneratedKeys | spock/backend/base.py:245-269 | on success the namespace has exactly one entry per class name; the same code in the backend builder (spock/backend/builder.py:89-113) |
| Builder.GeneratedValues | spock/backend/base.py:245-269 | with distinct class names, each class's build is found under its name; the same code in the backend builder (spock/backend/builder.py:89-113) |
| Builder.GeneratedSnoc | spock/backend/base.py:260-268 | one step of the loop of `generate`; the same code in the backend builder (spock/backend/builder.py:104-112) |
| Builder.GeneratedStops | spock/backend/base.py:260-268 | once a class fails, `generate` stops; the same code in the backend builder (spock/backend/builder.py:104-112) |
| Builder.AttrBuilder.constructor | spock/backend/base.py:193-199 | the builder starts with its input classes and no save path |
| Builder.AttrBuilder.HandleArguments | spock/backend/attr/builder.py:98-120 | the method with its loop computes exactly the specified fields and save path; the same code in the backend builder (spock/backend/builder.py:569-591) |
| Builder.AttrBuilder.HandleLateDefaults | spock/backend/base.py:296-334 | the method with its loop computes exactly the specified late defaults; the same code in the backend builder (spock/backend/builder.py:140-178) |
| Builder.AttrBuilder.AutoGenerate | spock/backend/base.py:272-294 | the method computes exactly the specified build and save path; the same code in the backend builder (spock/backend/builder.py:116-138) |
| Builder.AttrBuilder.Generate | spock/backend/base.py:245-269 | the method with its loop computes exactly the specified namespace and save path; the same code in the backend builder (spock/backend/builder.py:89-113) |
| CmdLine.Namespace.constructor | spock/backend/base.py:354 | a namespace holds the given config paths and help flag |
| CmdLine.GetFromKwargs | spock/backend/base.py:483-501 | a list of configs is appended to the namespace's config paths in place; anything else is a TypeError and changes nothing; the help flag is never touched; the same in the newer builder (spock/backend/builder.py:261-279); the same in the older builder (spock/builder.py:130-148) |
| CmdLine.ConfigPaths | spock/backend/base.py:336-357 | it fails exactly when the command line is off and no `configs` keyword is given (a ValueError), or when `configs` is given and is not a list (a TypeError); the same in the newer builder (spock/backend/builder.py:180-201) |
| CmdLine.ConfigPathsKwargsOnly | spock/backend/base.py:353-356 | with the command line off, the paths are exactly the `configs` list |
| CmdLine.ConfigPathsCmdLineOnly | spock/backend/base.py:351-357 | without the `configs` keyword, the command-line paths are kept as they are; the same in the older builder, which always reads the command line (spock/builder.py:102-105) |
| CmdLine.GetConfigPaths | spock/backend/base.py:336-357 | given an already parsed command line, the path logic fails exactly when the specified paths do, with the same exception, and otherwise returns a new namespace holding exactly those paths, with the help flag set only from the command line; the same in the newer builder (spock/backend/builder.py:180-201); the failures of building the parser are those of CmdLine.CheckProtectedKeys, CmdLine.GeneralAttrs and CmdLine.NestedAttrs |
| CmdLine.DistinctTypes | spock/backend/builder.py:250 | `set(...)` keeps exactly the same members |
| CmdLine.NestedAttrs | spock/backend/builder.py:250-251 | a non-generic type nests nothing; a `List` of a registered spock class nests exactly that class's attributes; the only failure is an IndexError |
| CmdLine.InnerArgs | spock/backend/builder.py:252-254 | one argument `--Class.field.Inner.inner` per attribute of the nested class, in order |
| CmdLine.AttrArgsOf | spock/backend/builder.py:246-257 | every argument added for an attribute starts with `--Class.field` |
| CmdLine.OverrideArgsShape | spock/backend/builder.py:228-258 | every override argument of a class belongs to one of its attributes |
| CmdLine.PlainFieldArg | spock/backend/builder.py:255-257 | a field whose type nests no spock class gets exactly `--Class.field` |
| CmdLine.BaseOverrideArgs | spock/backend/base.py:435-441 | the older base builder adds one argument per attribute, in order, and the argument for the `i`-th is `--Class.field` of its name |
| CmdLine.BaseAgreesOnPlain | spock/backend/base.py:435-441 | for a class none of whose fields nests a spock class, the newer builder (spock/backend/builder.py:246-258) adds exactly the older one's arguments |
| CmdLine.ListFieldArgs | spock/backend/builder.py:250-254 | a `List` of a spock class gets exactly one `--Class.field.Inner.inner` per attribute of the inner class |
| CmdLine.CheckProtectedKeys | spock/backend/base.py:445-458 | it fails exactly when `config` or `help` is a general-level name, and then with a ValueError |
| CmdLine.AllAttrs | spock/backend/base.py:404-405 | the attributes of all the classes, and nothing else |
| CmdLine.GeneralAttrsOverwrites | spock/backend/base.py:403-411 | as written, a later class's type for a name silently replaces the earlier one |
| CmdLine.GeneralAttrsItems | spock/backend/base.py:407-408 | as written, an attribute named `items` raises KeyError |
| CmdLine.GeneralAttrsIntendedFirst | spock/backend/base.py:403-411 | the intended table keeps the type of the first attribute of each name |
| CmdLine.GeneralAttrsIntendedKeys | spock/backend/base.py:403-411 | the intended table's keys are exactly the attribute names |
| CmdLine.ProtectedAnyClass | spock/backend/base.py:403-412 | with the intended table, the protected-name check fails exactly when some class has an attribute named `config` or `help` |
| Graph.EnumClasses | spock/graph.py:110-120 | the classes an Enum contributes are exactly its members whose value is a class |
| Graph.AttrDepsList | spock/graph.py:80-93 | an attribute's reference lookup fails exactly when its type is `list` or a bare `List` and its element type cannot be read: KeyError without `type` metadata, IndexError when that type has no arguments; otherwise a list refers to its element class when that is a class |
| Graph.Deps | spock/graph.py:68-94 | a failure to collect a class's references is the failure of its first attribute that cannot be analysed |
| Graph.DepsMembers | spock/graph.py:68-94 | a class refers to a node exactly when one of its attributes does |
| Graph.DepsErr | spock/graph.py:90-92 | collecting the references fails exactly when some attribute's does, which is a `list` or bare `List` attribute whose `type` metadata is missing or has no arguments |
| Graph.FindAllSpockClasses | spock/graph.py:68-94 | the method with its loop computes exactly the references of every attribute, in order |
| Graph.RefBeforeStep | spock/graph.py:61-64 | handling one more class adds exactly its own references |
| Graph.ReferrerIsInput | spock/graph.py:61-64 | only input classes refer to anything |
| Graph.AddReferrer | spock/graph.py:63-64 | appending a class to the dependents of what it references fails exactly when one of those is not a node; otherwise the nodes stay the same and each referenced node gains exactly that class |
| Graph.DepsStep | spock/graph.py:80-94 | one attribute either ends the collection with its failure or adds its references after those collected before |
| Graph.Build | spock/graph.py:51-66 | it fails exactly when a class cannot be analysed or refers to a class outside the inputs; otherwise it has one node per input class, and `u` is among the dependents of `v` exactly when `u` references `v` |
| Graph.BuiltDagIs | spock/graph.py:65 | turning each dependent list into a set gives the specified graph |
| Graph.Roots | spock/graph.py:46-49 | the roots are nodes of the graph |
| Graph.RootsAreUnreferenced | spock/graph.py:46-49 | the roots are exactly the input classes that no input class refers to |
| Graph.AfterChild | spock/graph.py:158-162 | after a finished search from one dependent, that dependent and the ones handled before are finished, and visited nodes stay visited |
| Graph.SkipFinished | spock/graph.py:158-165 | a dependent that is visited and off the stack is already finished |
| Graph.CycleThroughStack | spock/graph.py:164-165 | meeting a node that is on the recursion stack closes a cycle |
| Graph.Push | spock/graph.py:154-156 | marking a node visited and on the stack keeps the search state, with the node on the path |
| Graph.Pop | spock/graph.py:167 | taking a node off the stack once all its dependents are finished keeps the search state, with the node finished last |
| Graph.CycleDfs | spock/graph.py:141-168 | a reported cycle is a real cycle; otherwise the node and everything reached is finished, visited nodes stay visited and the stack is as it was |
| Graph.VisitDependent | spock/graph.py:159-165 | one dependent: a reported cycle is a real cycle; otherwise the dependent is finished and the search state kept |
| Graph.RankDecreases | spock/graph.py:141-168 | finishing times decrease along every path, so no path returns to its start |
| Graph.HasCycles | spock/graph.py:122-139 | the search reports a cycle exactly when the graph has one |
| Graph.FinishedAcyclic | spock/graph.py:134-139 | once every node has been searched without meeting the stack, the graph has no cycle |
| Graph.NewGraph | spock/graph.py:25-39 | the graph is built exactly when the build succeeds and the built graph has no cycle, and a cycle is a ValueError |
| Help.TagFrom | spock/backend/help.py:27 | the search from a position succeeds exactly when `Attribute?s?:` matches, ignoring case, at some later position |
| Help.FirstTagged | spock/backend/help.py:26-30 | the index of the first line holding the tag, or -1 exactly when no line holds it |
| Help.FindAttributeIdx | spock/backend/help.py:16-30 | the method with its early-return loop computes exactly the first tagged line; the same method in the older base builder (spock/backend/base.py:503-520); the same method in the backend builder (spock/backend/builder.py:281-298) |
| Help.DocLines | spock/backend/help.py:47-53 | no docstring gives no lines |
| Help.SplitAt | spock/backend/help.py:56-58 | the head and the attribute section together are the lines; no head line is tagged, and the section is empty or starts at a tagged line |
| Help.FirstBreak | spock/backend/help.py:62-65 | the first paragraph ends at the first empty line after the first line, or at the end, and everything in it after the first line is non-empty |
| Help.SpacedStep | spock/backend/help.py:63 | each line adds a space and itself to the class help |
| Help.ClassDocStopsAtBlank | spock/backend/help.py:64-65 | whatever follows the first blank line is not part of the class help |
| Help.ClassDoc | spock/backend/help.py:61-69 | the class help is empty, or `-- ` followed by text that neither starts nor ends with white space |
| Help.ClassDocLoop | spock/backend/help.py:61-69 | the method with its loop computes exactly the first paragraph joined with spaces, stripped and marked with `-- ` when non-empty |
| Help.SplitDocs | spock/backend/help.py:33-70 | the method computes exactly the class help and attribute section of the docstring |
| Help.SplitDocsNone | spock/backend/help.py:47-53 | no docstring gives no class help and no attribute lines |
| Help.NameTagEnd | spock/backend/help.py:89 | a match ends just after a colon following the name, or the name without its last letter, at the start of the line |
| Help.LastMatch | spock/backend/help.py:88-92 | the index of the last line the attribute's pattern matches, or -1 exactly when none does |
| Help.FoundDescStep | spock/backend/help.py:88-92 | every matching line replaces the description found so far, so the last match wins |
| Help.DefaultString | spock/backend/help.py:97-99 | the default text is empty exactly when there is no default |
| Help.MatchAttributeDocs | spock/backend/help.py:73-102 | the method's entry is named after the attribute and holds the type text, the description of the last matching line (or ""), the default text and the two lengths |
| Help.Spaces | spock/backend/help.py:120 | `n` spaces, none for a negative `n` |
| Help.MaxOf | spock/backend/help.py:114-115 | the maximum is one of the values and no value exceeds it |
| Help.AttributeLines | spock/backend/help.py:105-126 | no attributes is a ValueError; otherwise one row per attribute followed by a blank line |
| Help.LineColumns | spock/backend/help.py:118-124 | one row shows the name from column 4, the type after the padding and then the description and default |
| Help.ColumnsAligned | spock/backend/help.py:114-124 | with a non-negative indent, the names, the types and the descriptions each start in one column on every row |
| Help.EntryFits | spock/backend/help.py:114-115 | no entry's name or type is longer than the longest |
| Help.LineAt | spock/backend/help.py:117-124 | each attribute has its row in order |
| Help.SubDot | spock/backend/help.py:150 | removing matches never lengthens the text |
| Help.SubDotNoMatch | spock/backend/help.py:150 | a text in which the pattern matches nowhere is left as it is |
| Help.SubDotPrefix | spock/backend/help.py:150 | a match at the front is removed |
| Help.ModulePattern | spock/backend/help.py:153 | for a dotted name the pattern is its module path: a prefix of the name up to the last dot, with no dot after it; a name without a dot gives the pattern `.` |
| Help.TypeStringOptional | spock/backend/help.py:157-158 | optional metadata wraps the whole type text in `Optional[...]` |
| Help.TypeString | spock/backend/help.py:141-159 | with optional metadata the type text is `Optional[...]` around the rest |
| Help.TypeStringPrecedence | spock/backend/help.py:141-150 | the metadata type comes first, then the base, then the type's name, then `str(type)`, each with `typing.` removed |
| Help.GetTypeString | spock/backend/help.py:129-159 | the method with its loop over the nested classes computes exactly the specified type text |
| Help.InAttrRefs | spock/backend/help.py:210-218 | the names collected for one class are exactly those its attributes contribute |
| Help.InClassRefs | spock/backend/help.py:204-218 | the names collected are exactly those contributed by some attribute of some class |
| Help.InCovered | spock/backend/help.py:225 | the covered set holds exactly the classes' full names |
| Help.DescribeAttrs | spock/backend/help.py:209-223 | the method collects exactly the attributes' names, and the table is empty only for a class without attributes and records each entry's own lengths |
| Help.DescribeClass | spock/backend/help.py:205-223 | the same for one class with its docstring |
| Help.HandleHelpMain | spock/backend/help.py:186-229 | a class without attributes is a ValueError; otherwise the result is exactly the names collected, without repeats and without the classes already described |
| Overrides.Step | spock/backend/payload.py:485 | `curr_ref[k]` succeeds exactly on a dict holding `k` and gives its value; on anything but a dict it is a TypeError; the same step in the tuner's walk (spock/addons/tune/payload.py:78) |
| Overrides.ValueAtSnoc | spock/backend/payload.py:484-485 | one more subscript at the end of a chain is one more step |
| Overrides.SetAtValueAt | spock/backend/payload.py:456-459 | after an assignment through the reference, the path denotes the new value |
| Overrides.TuneLast | spock/addons/tune/payload.py:65-75 | on a dict a `False` flag changes nothing and any other value is found under the key afterwards; on anything else it is a ValueError |
| Overrides.AssignKey | spock/addons/tune/payload.py:69-72 | after the assignment the key under the path holds the value |
| Overrides.TuneRoot | spock/addons/tune/payload.py:61-63 | the first segment is a key of the payload afterwards, and an existing one leaves the payload unchanged |
| Overrides.WalkRef | spock/addons/tune/payload.py:76-78 | the method walking segment by segment reaches exactly the value the chain of subscripts denotes |
| Overrides.TuneHandlePayloadOverride | spock/addons/tune/payload.py:56-79 | the method with its loop computes exactly the specified override |
| Overrides.ValueAtNext | spock/backend/payload.py:484-485 | one step of the walk: the next prefix denotes the next value, and an error there is the error of the whole chain |
| Overrides.PrefixFails | spock/backend/payload.py:484-485 | a chain that fails on a prefix fails with the same error |
| Overrides.TuneNewClass | spock/addons/tune/payload.py:61-72 | a `Class.field` key for a class missing from the payload creates the class dict holding just the new value |
| Overrides.FindAttr | spock/backend/payload.py:413-418 | the attribute found has the name, and none is found only when no attribute has it |
| Overrides.AttrTypeOf | spock/backend/payload.py:413-418 | a missing class or attribute is an AttributeError |
| Overrides.LinkRef | spock/backend/payload.py:410-411 | recording the reference in the first class adds and removes no top-level key |
| Overrides.BlankEach | spock/backend/payload.py:431-432 | every element of a repeated class's list gains the key with `None`; an element that is not a dict is an AttributeError |
| Overrides.Replicate | spock/backend/payload.py:419-432 | setting up a repeated class adds and removes no top-level key |
| Overrides.Prelude | spock/backend/payload.py:397-432 | the prelude never removes a top-level key |
| Overrides.SetElem | spock/backend/payload.py:465-471 | an element gets the value under the key only when it already holds the key, and a dict without it is a ValueError |
| Overrides.SetEach | spock/backend/payload.py:463-471 | on success every element of the list holds the matching element of the value under the key, and nothing else changes |
| Overrides.AttrLast | spock/backend/payload.py:452-482 | on a dict a `False` flag changes nothing and any other value is found under the key afterwards; on a list a value of another length is a ValueError and one without a length a TypeError; anything else is a ValueError |
| Overrides.PreludeStep | spock/backend/payload.py:403-432 | one pass of the prelude loop leaves exactly the rest of the prelude to do |
| Overrides.HandlePayloadOverride | spock/backend/payload.py:377-486 | the method with its two loops computes exactly the specified override |
| Overrides.WalkPayload | spock/backend/payload.py:434-485 | the walk loop computes exactly the specified walk |
| Overrides.HandleLast | spock/backend/payload.py:452-482 | the last segment computes exactly the specified end of the walk |
| Overrides.UpdateEach | spock/backend/payload.py:464-471 | the method with its loop over a list of repeated classes computes exactly the specified element updates |
| Overrides.SetEachStep | spock/backend/payload.py:464-471 | one element of the loop: an error ends it, otherwise the updated element joins the ones before |
| Overrides.AttrOverrideGlobal | spock/backend/payload.py:452-459 | a dot-free key that is not a registered class sets a top-level entry, except that `False` changes nothing |
| Overrides.AttrOverrideField | spock/backend/payload.py:394-486 | `Class.field` with an unregistered field name assigns the value into the class's dict, creating it when absent |
| Overrides.PreludeClassField | spock/backend/payload.py:403-406 | the prelude of `Class.field` only makes sure the class has a dict |
| Overrides.WalkClassField | spock/backend/payload.py:434-485 | the walk of `Class.field` steps into the class dict and ends there |
| Overrides.AttrListLengthMismatch | spock/backend/payload.py:472-477 | at the end of the walk on a repeated class's list, a value of another length is a ValueError |
| Overrides.DictPayloadOverride | spock/backend/base.py:856-877 | as written, unless the class name happens to name a dict attribute, the class entry is reset to a dict holding only the new value |
| Overrides.DictPayloadOverrideDropsEntries | spock/backend/base.py:874-876 | as written, an override of `A.y` drops `A.x` |
| Overrides.CapitalisedNotDictAttribute | spock/backend/base.py:874 | a capitalised class name is never a dict attribute, so the reset always happens for such names |
| Overrides.DictPayloadOverrideKeeps | spock/backend/base.py:856-877 | as intended, the override sets the one value and keeps every other entry of an existing class dict |
| Overrides.DictPayloadOverrideCreates | spock/backend/base.py:874-876 | without a class dict, the intended override creates one holding the value |
| Overrides.BaseOverrideOne | spock/backend/base.py:831-852 | `config`, `help`, `None` and a `False` flag leave the payload as it is; a plain name sets that top-level entry; as written, `Class.field` resets the class entry to a dict holding only the new value (unless the class name names a dict attribute) |
| Overrides.BaseOverrideOneIntended | spock/backend/base.py:831-852 | as intended, `Class.field` is the intended dict override; skipped values and plain names behave as written |
| Overrides.BaseOverrideOneDropsEntries | spock/backend/base.py:833-842 | as written, the command-line override `A.y = 2` of `{"A": {"x": 1}}` gives `{"A": {"y": 2}}` |
| Overrides.BaseOverrideOneIntendedKeepsEntries | spock/backend/base.py:833-842 | as intended, the same override gives `{"A": {"x": 1, "y": 2}}` |
| Overrides.BaseOverridesSkip | spock/backend/base.py:830-836 | skipped entries can be dropped from the arguments without changing the result |
| Overrides.BaseHandleOverrides | spock/backend/base.py:815-853 | the method with its loop computes exactly the specified overrides, with the override as written |
| Overrides.BaseOverridesIntendedKeeps | spock/backend/base.py:815-853 | as intended, a single `Class.field` override of an existing class dict sets the field and keeps every other field of the class |
| Payload.DependencyError | spock/backend/payload.py:146-155 | a root path read before is a duplicate read; any path, or base name of a path, read before is otherwise a cyclic dependency; a new path is accepted; the same refusal in the older payload (spock/backend/base.py:768-773) |
| Payload.Deps.constructor | spock/backend/payload.py:129-162 | the record starts empty and consistent |
| Payload.Deps.HandleDependencies | spock/backend/payload.py:129-162 | a refused path changes nothing; an accepted one is appended to the paths, its base name to the relative paths, and a root to the roots, and the record stays consistent; the same in the older payload (spock/backend/base.py:751-780) |
| Payload.RecordedRefused | spock/backend/payload.py:146-161 | once recorded, a path is refused on every later read: as a duplicate when read as a root, as a cycle otherwise |
| Payload.PruneArgs | spock/backend/payload.py:236-252 | exactly the arguments whose first dot-separated segment does not name an ignored class are kept, with their values |
| Payload.ApplyOverrides | spock/backend/payload.py:228-233 | arguments that are all `config`, `help` or `None` leave the payload as it is |
| Payload.OverridesSkip | spock/backend/payload.py:228-233 | `config`, `help` and `None` entries can be dropped from the arguments without changing the result |
| Payload.HandleOverridesLoop | spock/backend/payload.py:213-233 | the method with its loop computes exactly the specified overrides of the pruned arguments |
| Payload.CheckRepeated | spock/backend/payload.py:348-357 | an element that is not a dict is an AttributeError; otherwise the check passes exactly when every key of every element is a field of the class |
| Payload.CheckEntry | spock/backend/payload.py:325-367 | a dict under an unknown class is a TypeError and passes exactly when all its keys are fields of the class; a repeated class is checked element by element; any other entry passes exactly when it is a field of some class, and otherwise is a ValueError; the same check in the older attrs payload, where a repeated class missing from the fields is a TypeError (spock/backend/attr/payload.py:54-82); the same check in the dataclass payload, which has no repeated classes (spock/backend/dataclass/payload.py:49-62) |
| Payload.MergeEntry | spock/backend/payload.py:368-371 | a dict merges into the dict already present (an AttributeError when the present value is not a dict); any other value is set |
| Payload.MergeEntryFields | spock/backend/payload.py:368-369 | merging a class dict keeps the fields the new file does not mention and takes the new file's value for the others |
| Payload.UpdateEntry | spock/backend/payload.py:322-371 | an ignored entry is skipped; `config` is merged without a check; an undefined class is a TypeError and an unknown top-level name a ValueError; a successful step is the merge; the same step in the older attrs payload, which ignores nothing (spock/backend/attr/payload.py:52-86); the same step in the dataclass payload (spock/backend/dataclass/payload.py:47-66) |
| Payload.UpdateEntriesSnoc | spock/backend/payload.py:322 | the file's entries are handled in order: one more entry is one more step |
| Payload.UpdatePayloadLoop | spock/backend/payload.py:313-374 | the method with its loop computes exactly the specified update, converted to tuples and deep-merged back; the same for the older attrs payload, with the older conversion (spock/backend/attr/payload.py:45-89); the same for the dataclass payload, which stops after the merge (spock/backend/dataclass/payload.py:42-67) |
| Payload.ConvertMerged | spock/backend/payload.py:372-374 | the method computes exactly the tuple conversion of the merged payload and the merge of the converted values back into it |
| Payload.EntriesFailFrom | spock/backend/payload.py:322-371 | a failure on the first entries is the failure of the whole loop |
| Payload.ToTuple | spock/addons/tune/payload.py:53 | a list or tuple becomes a tuple of its elements; a result is a tuple of the same length; a value that cannot be iterated is a TypeError |
| Payload.TuneBounds | spock/addons/tune/payload.py:52-53 | an entry without `bounds` is kept; an entry with `bounds` has them replaced by their tuple |
| Payload.TuneClass | spock/addons/tune/payload.py:51-53 | a class value that is not a dict is an AttributeError; otherwise every attribute entry keeps its key and order and has its bounds converted |
| Payload.TuneSections | spock/addons/tune/payload.py:49-54 | every class keeps its key and order and has its attributes' bounds converted |
| Payload.TuneBoundsList | spock/addons/tune/payload.py:52-53 | a `bounds` list becomes a tuple with the same elements |
| Payload.TuneUpdatePayload | spock/addons/tune/payload.py:49-54 | the method with its loops computes exactly the specified conversion and discards the included payload |
| Payload.TuneSectionsStep | spock/addons/tune/payload.py:50-53 | one class of the loop: an error ends it, otherwise the converted class joins the ones before |
| Payload.UnreadShrinks | spock/backend/payload.py:158 | recording a new file leaves fewer files unread, so the chain of includes ends |
| Payload.IncludeElems | spock/backend/payload.py:196 | what `for inc_path in base_payload["config"]` iterates: the elements of a list or tuple, the characters of a string, the keys of a dict, none of them checked yet; exactly the values that cannot be iterated are a TypeError |
| Payload.UnreadError | spock/backend/payload.py:104-110 | an include that fails before it is read raises OSError exactly when it is a string with a supported extension, so that the loader finds no file; otherwise TypeError, from `_check_extension` or, for a non-string, from `check_path_s3` at line 197 |
| Payload.LoadPayload | spock/backend/payload.py:83-126 | no path gives the empty payload and reads nothing; an unsupported extension is a TypeError and a missing file an OSError, both reading nothing; a loaded file is recorded and its payload is its own entries merged over some included payload; the record only grows and stays consistent |
| Payload.LoadRecorded | spock/backend/payload.py:113-125 | without a `config` entry the result is exactly the file's own entries merged over the empty payload, reading nothing more; with one, on success every include was read and recorded, and the result is the file's own entries merged over the in-order `update` of the payloads the includes loaded; the record only grows |
| Payload.HandleIncludes | spock/backend/payload.py:164-211 | a `config` value that cannot be iterated is a TypeError and reads nothing; otherwise the includes are taken in order as `LoadIncludes` states, and a first include that fails before it is read raises its own error and records nothing; on success every include was read and recorded and the result is the in-order `update` of their payloads |
| Payload.LoadIncludes | spock/backend/payload.py:196-210 | the loop takes the includes in order and ends at `stop`: every include before `stop` was read and recorded and loaded its payload, which is that file's entries over some included payload; success means the loop ran to the end and the result is the in-order `update` of those payloads; a failure is at `stop`, where a non-string is a TypeError (`check_path_s3`), an unsupported extension a TypeError and a missing file an OSError |
| Payload.AllInMeans | spock/backend/payload.py:196-210 | the recursive statement that the includes are recorded means that each of them is a string naming an available, recorded file, both directions |
| Payload.MissingFirstStops | spock/backend/payload.py:196-210 | when the first include names a file that is not available, the loop ends at that first include, and the error is that include's own error |
| Payload.IncludeMissingBeforeNonString | spock/backend/payload.py:196-210 | `config: ["missing.yaml", 5]` with `missing.yaml` absent fails with the loader's OSError before the loop reaches `5`, and records nothing |
| Payload.BuildPayload | spock/backend/payload.py:61-81 | no path gives exactly the overrides applied to the empty payload; the record stays consistent |
| Saver.TupleToList | spock/backend/saver.py:183-205 | the converted elements keep the length and order of the tuple; no element is left a tuple, a tuple element becomes a list of the same length, and every other element is kept as it is; the same conversion in the older base saver (spock/backend/base.py:147-171) |
| Saver.TupleToListTupleFree | spock/backend/saver.py:198-205 | when every tuple sits inside tuples only, no tuple is left anywhere in the result |
| Saver.RecursiveTupleToList | spock/backend/saver.py:198-205 | the loop appending to `list_v`, with its recursive call, computes exactly the tuple-to-list conversion; the same loop in the older base saver (spock/backend/base.py:164-171) |
| Saver.ConvertItems | spock/backend/saver.py:162-181 | the converted entries hold no None value and no tuple, and use only keys of the section; the same conversion in the older base saver (spock/backend/base.py:139-145) |
| Saver.CleanValue | spock/backend/saver.py:175-181 | a None value is dropped, a tuple becomes a list of the same length, and every other value is kept as it is |
| Saver.ConvertItemsLookup | spock/backend/saver.py:175-181 | on a dict, a key whose value is None disappears, and every other key keeps its value with its tuples made lists |
| Saver.ConvertItemsLoop | spock/backend/saver.py:155-158 | the loop updating `clean_inner_dict` computes exactly the entry-by-entry conversion; the one-level conversion of the oldest saver, done by the same loop (spock/saver.py:94-102) |
| Saver.CleanElems | spock/backend/saver.py:145-153 | a list value is cleaned exactly when every element is a dict (AttributeError otherwise); each element is replaced by its converted entries, in place and in order |
| Saver.CleanEntry | spock/backend/saver.py:144-158 | a dict value or a list of dicts is cleaned, anything else raises AttributeError; a dict gets its converted entries, a list its converted elements |
| Saver.CleanOutput | spock/backend/saver.py:130-160 | the output succeeds exactly when every value can be cleaned, raises AttributeError otherwise, keeps exactly the input's keys, and holds only dicts and lists; the same cleaning in the older base saver (spock/backend/base.py:109-137) |
| Saver.CleanOutputLookup | spock/backend/saver.py:143-160 | on a dict, every key maps to its own cleaned value and no other key appears |
| Saver.CleanOutputFailFrom | spock/backend/saver.py:143-159 | the first value that cannot be cleaned decides the failure of the whole loop |
| Saver.CleanElemsLoop | spock/backend/saver.py:146-152 | the loop over the list's elements computes exactly the element-wise cleaning, including its failure |
| Saver.CleanEntryLoop | spock/backend/saver.py:144-158 | one turn of the outer loop computes exactly the cleaning of one value |
| Saver.CleanOutputLoop | spock/backend/saver.py:142-160 | the nested loops compute exactly the cleaned output, failure included; the same loops in the older base saver (spock/backend/base.py:123-137) |
| Saver.AsDictValue | spock/backend/saver.py:279 | below an instance, `asdict` leaves no spock instance; under `attr.asdict` no tuple is left either, while the dataclasses `asdict` keeps tuples where they were; instances and dicts become dicts |
| Saver.AsDict | spock/backend/saver.py:279 | `attr.asdict` succeeds exactly on spock instances, giving a dict with the instance's attribute names and no instance or tuple inside; anything else raises ValueError; the dataclasses `asdict` of the oldest saver: the same dict with tuples kept, and TypeError on anything but an instance (spock/saver.py:89-91) |
| Saver.CleanElemsOf | spock/backend/saver.py:273-288 | `clean_val` succeeds exactly when every element can be cleaned, has one cleaned element per element in order, and fails with ValueError otherwise |
| Saver.CleanList | spock/backend/saver.py:271-292 | without a reference to another spock class the cleaned list is kept element for element; with one, the result is a hashable cleaned element of the list |
| Saver.CleanAttr | spock/backend/saver.py:269-308 | the only errors are TypeError and ValueError; a callable or class object becomes a string; inside a class a spock instance becomes its class name; a value of no spock class that is not a list or callable is kept |
| Saver.HandleClean | spock/backend/saver.py:268-309 | the only errors are TypeError and ValueError, and the cleaned namespace has no more entries than the namespace |
| Saver.RepeatedOneClass | spock/backend/saver.py:280-291 | a list of instances of one other spock class collapses to that class's name, whatever the set order |
| Saver.RepeatedWithOwnClassFails | spock/backend/saver.py:278-291 | a list mixing instances of the key's own class with instances of another class raises TypeError, since the dicts cannot go into a set |
| Saver.HandleCleanKeys | spock/backend/saver.py:268-309 | a cleaned namespace has exactly the attribute names of the namespace |
| Saver.HandleCleanLookup | spock/backend/saver.py:268-309 | every attribute can be cleaned and is written under its own name with its cleaned value |
| Saver.NestedAttributesByName | spock/backend/saver.py:294-299 | inside a class, a callable is written as `module.name` and a spock instance as its class name |
| Saver.HandleCleanFailFrom | spock/backend/saver.py:268-309 | the first attribute that fails decides the failure of the whole namespace |
| Saver.CleanListLoop | spock/backend/saver.py:273-292 | the loop appending to `clean_val` and setting `repeat_flag` computes exactly the list branch |
| Saver.RecursivelyHandleClean | spock/backend/saver.py:249-309 | the loop updating `out_dict`, with its recursive call, computes exactly the cleaned namespace |
| Saver.CleanAttrStep | spock/backend/saver.py:269-308 | the branches for one attribute compute exactly its cleaned value |
| Saver.Clip | spock/backend/saver.py:236 | an entry is kept exactly when its value is not empty |
| Saver.CleanUpValues | spock/backend/saver.py:225-237 | every section of the result is a class of the payload and is a non-empty dict or list |
| Saver.TunerSection | spock/backend/saver.py:242 | a tuner class unrolls exactly when `vars` accepts each attribute, into a dict of dicts under the same names |
| Saver.TunerTable | spock/backend/saver.py:241-244 | the unrolled tuner payload is a dict of dicts under exactly the tuner class names |
| Saver.CleanTunerValues | spock/backend/saver.py:239-247 | once unrolled the cleaning cannot fail, and the result keeps exactly the tuner class names |
| Saver.SaveNameSuffix | spock/backend/saver.py:78-80 | the file name ends in the requested extension, with or without a file name; the oldest saver's file name ends in the requested extension too (spock/saver.py:57) |
| Saver.BackendSave | spock/backend/saver.py:75-104 | an unsupported extension raises TypeError before anything else; a cleaning failure is raised; a save succeeds only when the write succeeds, under the name built from the fixed uuid or a fresh one, and without a tuner payload hands over exactly the cleaned payload |
| Saver.TunerSectionsWin | spock/backend/saver.py:84-90 | a tuner section replaces the payload section of the same name, and every other payload section is kept |
| Saver.BaseSave | spock/backend/base.py:74-91 | an extension without a writer raises ValueError; a failed write raises OSError; a success writes the cleaned payload under `<uuid>.spock.cfg<ext>` |
| Saver.SectionKeyInjective | spock/saver.py:88-91 | two classes with the same section name are the same class |
| Saver.LegacySections | spock/saver.py:85-91 | the sections are built exactly when every payload value is an instance, else TypeError; every section is a dict |
| Saver.LegacyClean | spock/saver.py:93-102 | the one-level cleaning keeps exactly the section names, and every section stays a dict |
| Saver.LegacyCleanUpValues | spock/saver.py:71-102 | the cleaned payload exists exactly when every payload value is an instance |
| Saver.LegacySectionsKeys | spock/saver.py:86-91 | there is one section per class, in the classes' order, under its section name |
| Saver.LegacyCleanKeys | spock/saver.py:93-102 | the second loop keeps every section in its place |
| Saver.SectionKeysUnique | spock/saver.py:88-91 | distinct class names give distinct section names |
| Saver.LegacyOneSectionPerClass | spock/saver.py:85-102 | the output has one section per payload class, in order, before the run information is added |
| Saver.LegacyCleanUpValuesLoop | spock/saver.py:85-102 | the two loops over `out_dict` and `clean_dict` compute exactly the cleaned payload |
| Saver.LegacySave | spock/saver.py:53-68 | an extension without a writer raises ValueError; otherwise the save succeeds exactly when the payload can be cleaned, whatever the write does, under `<uuid>.spck.cfg<ext>`, and records whether the file was written |
| FieldHandlers.Contains | spock/backend/field_handlers.py:70-73 | `in` on a dict is key membership; on a value that is no container it raises TypeError |
| FieldHandlers.GetItem | spock/backend/field_handlers.py:229-231 | indexing by name succeeds exactly on a dict holding the key and gives its value; otherwise KeyError on a dict and TypeError on anything else |
| FieldHandlers.ValueName | spock/backend/field_handlers.py:183 | `__name__` exists exactly on classes and functions; anything else raises AttributeError |
| FieldHandlers.InConfigArguments | spock/backend/field_handlers.py:56-73 | an attribute is in the config exactly when its class has an entry and the attribute's name is in it; a class without an entry gives false, and only a non-container entry raises, with TypeError |
| FieldHandlers.KindOf | spock/backend/field_handlers.py:350-371 | a `list` attribute is a repeated-class list exactly when its recorded type's first argument is a spock class, and raises exactly when it records no argument; an Enum handler gets an Enum holding a class, a nested-class handler a spock class |
| FieldHandlers.MemberNames | spock/backend/field_handlers.py:182-184 | the Enum's member names exist exactly when every member holds a class or function, one per member in order; otherwise AttributeError |
| FieldHandlers.EnumChoice | spock/backend/field_handlers.py:186-189 | the chosen class is found exactly when the config names one of the members, and is that name |
| FieldHandlers.RegisterSpecialKey | spock/backend/field_handlers.py:241-247 | a value other than None of an attribute with a special key is recorded as `save_path`; otherwise the special keys are unchanged |
| FieldHandlers.FieldHandler.constructor | spock/backend/field_handlers.py:39-45 | a handler starts with no special keys |
| FieldHandlers.FieldHandler.Call | spock/backend/field_handlers.py:47-54 | the outcome, the fields, the special keys and the spock space after the call are exactly those of the dispatch between config, optional type and optional value |
| FieldHandlers.FieldHandler.RecurseAndRegister | spock/backend/field_handlers.py:201-317 | the Enum's recursion and the stores after it leave exactly the state of building the named class (lines 201-208); the same for a nested spock class (lines 311-317) |
| FieldHandlers.FieldHandler.HandleFromConfig | spock/backend/field_handlers.py:131-317 | a repeated-class list read from the config leaves exactly the state the specification gives (lines 131-138); the same for an Enum of classes (lines 178-191); the same for a simple field (lines 226-233); the same for a tuner class (lines 269-277); the same for a nested spock class (lines 311-317) |
| FieldHandlers.FieldHandler.HandleOptionalType | spock/backend/field_handlers.py:104-341 | a simple field with a class default raises NotImplementedError, as the specification gives (lines 104-107); a list builds the entries of its default class, as the specification gives (lines 140-145); an Enum builds its default class, as the specification gives (lines 193-199); a tuner class raises SpockNotOptionalError, as the specification gives (lines 284-287); a nested spock class recurses and is stored, as the specification gives (lines 331-341) |
| FieldHandlers.FieldHandler.HandleOptionalValue | spock/backend/field_handlers.py:90-329 | the default is written as the field, as the specification gives (lines 90-102); a list default that is not None is also stored in the spock space (lines 147-153); a simple default also records the special key (lines 235-239); a tuner class raises SpockNotOptionalError (lines 279-282); a nested-class default that is not None is also stored in the spock space (lines 319-329) |
| FieldHandlers.ProcessListAttribute | spock/backend/field_handlers.py:155-160 | building the list and the two stores leave exactly the state of the repeated-class specification |
| FieldHandlers.HandleAttribute | spock/backend/field_handlers.py:350-374 | one pass of the loop leaves exactly the state of the handler the attribute's kind selects |
| FieldHandlers.RecurseGenerate | spock/backend/field_handlers.py:343-384 | the result and the spock space after building a class are exactly those of the specification |
| FieldHandlers.LoopStops | spock/backend/field_handlers.py:350-374 | once a handler raises, no later attribute is handled |
| FieldHandlers.HandleOnlyEntry | spock/backend/field_handlers.py:47-54 | a handler writes its own attribute's field and no other |
| FieldHandlers.LoopFieldsKnown | spock/backend/field_handlers.py:345-374 | every collected field is named after an attribute of the class |
| FieldHandlers.GenerateInstantiates | spock/backend/field_handlers.py:376-384 | after the loop, building fails exactly when an attribute without a default got no field, and then with SpockNotOptionalError; the spock space is the loop's |
| FieldHandlers.GenerateResult | spock/backend/field_handlers.py:376-384 | a built class is an instance of that class, with the special keys the loop collected |
| FieldHandlers.LoopKeysGrow | spock/backend/field_handlers.py:374 | a special key recorded by an earlier attribute is still there after the later ones |
| FieldHandlers.NotOptionalUntouched | spock/backend/field_handlers.py:47-54 | an attribute neither in the config nor optional changes nothing |
| FieldHandlers.TuneNotOptional | spock/backend/field_handlers.py:279-287 | an optional tuner attribute missing from the config raises SpockNotOptionalError and changes nothing |
| FieldHandlers.OptionalNoneDefault | spock/backend/field_handlers.py:147-329 | an optional list whose default is None gets the field None and leaves the spock space alone (lines 147-153); the same for an optional nested class (lines 319-329) |
| FieldHandlers.ListFromConfig | spock/backend/field_handlers.py:131-138 | a list read from the config holds one instance of the repeated class per entry of that class's arguments, stored both as the field and in the spock space under the class's name |
| FieldHandlers.ClassRegistered | spock/backend/field_handlers.py:311-317 | a nested class that is built is an instance of that class, stored both as the field and in the spock space under its name |
| FieldHandlers.EnumFromConfig | spock/backend/field_handlers.py:178-191 | an Enum of classes builds the class the config names, which must be one of the Enum's members |
| FieldHandlers.SimpleFromConfig | spock/backend/field_handlers.py:226-233 | a simple field read from the config is that value, with the spock space unchanged, and a save path other than None is recorded as `save_path`; a class entry that is not a dict raises TypeError |
| FieldsHandler.HandlerOf | spock/backend/fields_handler.py:148-160 | a `list` attribute gets the list handler exactly when its recorded type's first argument is a spock class, and the choice raises exactly when the later version's does; the nested-class handler is chosen only for a child of the class in the dependency graph |
| FieldsHandler.FieldHandler.constructor | spock/backend/fields_handler.py:16-17 | a handler starts with no special keys |
| FieldsHandler.FieldHandler.Call | spock/backend/fields_handler.py:19-25 | the outcome, the fields, the special keys and the spock space after the call are exactly those of the dispatch between config, optional and `other` |
| FieldsHandler.FieldHandler.HandleOptional | spock/backend/fields_handler.py:48-140 | the default is written as the field, as the specification gives (lines 48-51); a simple field also records its save path (lines 106-110); a nested spock class is also stored in the spock space (lines 134-140) |
| FieldsHandler.FieldHandler.RecurseAndRegister | spock/backend/fields_handler.py:126-132 | the recursion into a child class and the stores after it leave exactly the state the specification gives |
| FieldsHandler.FieldHandler.HandleFromConfig | spock/backend/fields_handler.py:61-132 | a repeated-class list read from the config leaves exactly the state the specification gives (lines 61-75); the same for an Enum of classes (lines 79-93); the same for a simple field (lines 97-104); the same for a nested spock class (lines 126-132) |
| FieldsHandler.HandleAttribute | spock/backend/fields_handler.py:148-163 | one pass of the loop leaves exactly the state of the handler the attribute selects |
| FieldsHandler.RecurseGenerate | spock/backend/fields_handler.py:142-167 | the result and the spock space after building a class are exactly those of the specification |
| FieldsHandler.LoopStops | spock/backend/fields_handler.py:148-163 | once a handler raises, no later attribute is handled |
| FieldsHandler.NotOptionalRaises | spock/backend/fields_handler.py:42-46 | an attribute neither in the config nor optional raises SpockNotOptionalError and changes nothing, where the later version leaves it alone |
| FieldsHandler.OptionalClassRegistered | spock/backend/fields_handler.py:134-140 | an optional nested class missing from the config is stored as the field and in the spock space under its type's name, even when its default is None |
| FieldsHandler.EnumBuiltDirectly | spock/backend/fields_handler.py:79-93 | an Enum of classes instantiates the class the config names straight from that class's own arguments, stores it as the field and under the class's name, and records no special key |
| FieldsHandler.HandleOnlyEntry | spock/backend/fields_handler.py:19-25 | a handler writes its own attribute's field and no other |
| FieldsHandler.LoopFieldsKnown | spock/backend/fields_handler.py:145-163 | every collected field is named after an attribute of the class |
| FieldsHandler.GenerateInstantiates | spock/backend/fields_handler.py:165-167 | after the loop, building fails exactly when an attribute without a default got no field, and then with attrs' TypeError |

## Left out

- File reading and writing are left out because they are I/O. This covers the YAML/TOML/JSON handlers, `open` and `os.makedirs`. File contents are the `files` map given to `Payload`. The success of a write is the `writeOk` parameter of the savers.
- S3 access is left out because it is network I/O. An S3 configuration is an opaque token (`Handler.BaseHandler.s3Config`).
- Include paths are looked up in `files` exactly as the config writes them. The join with the including file's directory, the `os.path.exists` test and S3 URIs are left out, because they are file-system and network access.
- The file-system checks of the directory and file validators (`os.path.isdir`, `os.access`, `os.makedirs`) are left out because they are I/O. Their outcome is the `pathCheck` parameter of `Validators.Run`, a function of the path kind (`directory` or `file`) and the value checked.
- uuid generation is left out because it is not deterministic; the uuid is a parameter.
- `add_info` is left out because it reads git and the clock, so the savers add no run information.
- Parsing `sys.argv` with argparse is left out because it is library code; the parsed namespace is a parameter.
- `print_usage_and_exit` and help printing are left out because they write to stdout and exit. `Help.AttributeLines` computes the lines of a class's table, and `Help.HandleHelpMain` keeps only whether they could be built.
- `sys.modules` lookups are left out because they depend on process state. The classes are a `Registry` parameter, and spock classes and tuner classes are found by name.
- The iteration order of Python sets is left out because it depends on hashing. This affects `list(set(clean_val))[-1]` in `_recursively_handle_clean` and `list(set(t.__args__))[0]` in `_make_group_override_parser`. The `pick` parameter chooses the element.
- Regular expressions are left out because the library uses only a few fixed patterns. Each is a hand-written matcher with no Unicode normalisation. Its case folding is ASCII only, while Python's `(?i)` also folds non-ASCII letters, so a docstring whose attribute names differ from the declared names only in the case of a non-ASCII letter is not matched.
- The attrs validators are not run when `Builder.Instantiate` builds an instance, to keep instance building separate from validation. It only checks the keywords and fills in defaults. The validators are modelled on their own in `Validators`.
- The partly updated dicts a failing operation leaves behind are left out, except where a method's contract states them. A failure is modelled as the exception it raises.
- Aliasing by in-place updates of nested dicts and lists is left out. This covers `curr_ref` in the override walk, `val[idx] = ...` in `_clean_output` and `value[idx] = ...` in `_recursive_list_to_tuple`. These are modelled on values, so sharing with other references to the same objects is not captured.
- PublicAttrs: the public attributes of a class object (its methods and class variables) and the attributes set on a function are not represented, because `ClassRef` and `Callable` carry only names. `vars` of either succeeds, as in Python, with an empty public dict.
- Values.Vars: the same holds for the whole namespace of a class object or a function. The dunder entries `vars` returns for a class (`__module__`, `__doc__` and the like) are not represented.
- Python-version differences in type introspection (`_get_name_py_version`) are left out because types are the closed `Types.PyType` tree. The same goes for `Union` types other than `Optional[X]`.
- attrs' `NOTHING` marker has no value of its own: the optional-value handlers write it as `None` (`FieldHandlers.DefaultValue`).
- The `ValueError` of the `AttributeSpace.field` setter is left out because it is raised for a name that is not a string, and every name in the model is a string.
- Python's recursion limit is replaced by the `depth` parameter of the field handlers. A class reference nested deeper than `depth` raises RecursionError.
- A class default or class reference that is not a registered class is not modelled beyond its failure. Instantiating it raises TypeError, and walking its attributes raises AttributeError. What a foreign class would construct is left out.
- `BuilderSpace` is a namedtuple without the `graph` field that spock/backend/fields_handler.py reads. The graph is therefore the `graph` parameter of `FieldsHandler`.
- spock/utils.py is not part of this model, so its helpers are defined by what they are used for:
  - `_is_spock_instance` is membership in the spock registry;
  - `_is_spock_tune_instance` is membership in the tuner registry;
  - `_check_iterable` is true when some Enum member holds a class.
- spock/backend/attr/payload.py cannot run as written. It imports `deep_update` from spock/backend/attr/utils.py, which does not define it. It also calls the two-argument `convert_to_tuples` with three arguments. That payload is given its evident behaviour: the older conversion, then the deep merge.
- That source file is not a Findings row, because its as-written behaviour is an ImportError at module load.
- spock/backend/attr/saver.py and spock/backend/dataclass/saver.py are left out because they are thin wrappers over `attr.asdict` and `dataclasses.asdict`.
- The class-construction modules (spock/config.py and the backend `config.py` files) are left out because they are wrappers over attrs, dataclasses and Python introspection.
- The tuner backends are left out because they are wrappers over Optuna and Ax plus random sampling.
- The `${spock.var:...}` resolver and `spock.crypto` are not part of this model.
- Floating point is left out: floats are exact reals, and `_int_to_float` changes the tag from `Int` to `Float`.
- CmdLine.GetConfigPaths: the parsed command line is a parameter, so building the parser is not part of this method. Its failures are modelled on their own by `CmdLine.CheckProtectedKeys`, `CmdLine.GeneralAttrs` and `CmdLine.NestedAttrs`.
- Payload.LoadRecorded: the result is stated as the file's own entries over the in-order `update` of the includes' payloads, but each include's payload is characterised only as its file's entries over some payload of its own includes, not by a function of the inputs. That payload is the result of a recursive read that changes the dependency record.
- Payload.HandleIncludes: the same for the merged payload of the includes, for the same reason.
- Payload.LoadIncludes: the same for each payload the loop merges, for the same reason. An include that fails after it was read (a repeated or cyclic file, or a failure inside its own includes or entries) is stated only to end the loop at that include, not which error it raises.
- Saver.CleanList: with a reference to another class, the contract says only that the result is one of the cleaned elements and is hashable, because which element it is depends on set order (`pick`).
- Saver.SaveNameSuffix: assumes the uuid and the file name hold no `/`, since a slash would start a new path component.

## Findings

| source | as written | input that shows it | evidently intended | confidence | as-written member | corrected member |
|---|---|---|---|---|---|---|
| spock/attr_backend/typed.py:86-93 | an optional subscripted parameter wraps only the instance check in `optional`; the element check still iterates over the value | `katra(SpockTypes.LIST_INT, optional=True)` set to `None` raises TypeError | an optional parameter accepts `None`, as `_type_katra` makes it do | not executed | LegacyTyped.GenericAliasKatra, LegacyTyped.BuildKatra, LegacyTyped.OptionalGenericRejectsNone, LegacyTyped.BuildKatraDiffers | LegacyTyped.GenericAliasKatraIntended, LegacyTyped.BuildKatraIntended, LegacyTyped.IntendedOptionalGeneric |
| spock/attr_backend/typed.py:86-96 | the default is checked for truthiness (`if optional and default`, `elif default`) | `katra(SpockTypes.LIST_INT, default=[])` gets no default | every default other than `None` is kept, as `_type_katra` checks `default is not None` | not executed | LegacyTyped.GenericAliasKatra, LegacyTyped.BuildKatra, LegacyTyped.FalsyDefaultDropped, LegacyTyped.BuildKatraDiffers | LegacyTyped.GenericAliasKatraIntended, LegacyTyped.BuildKatraIntended, LegacyTyped.IntendedOptionalGeneric |
| spock/backend/base.py:874-876 | `hasattr(payload, dict_key)` asks whether the dict object has such an attribute, not whether the key is present, so the class entry is reset to `{}` | payload `{"A": {"x": 1}}` with the override `A.y = 2` becomes `{"A": {"y": 2}}` | the class dict is created only when the payload has none, as the method's docstring says | not executed | Overrides.DictPayloadOverride, Overrides.DictPayloadOverrideDropsEntries, Overrides.BaseOverrideOneDropsEntries | Overrides.DictPayloadOverrideIntended, Overrides.DictPayloadOverrideKeeps, Overrides.BaseOverrideOneIntendedKeepsEntries, Overrides.BaseOverridesIntendedKeeps |
| spock/backend/base.py:407-411 | `hasattr(all_attr, val.name)` is false for an ordinary name, so a repeated name overwrites its type silently; for a name such as `items` it is true and `all_attr[val.name]` raises KeyError | two classes with `lr: int` and `lr: float` give `lr` the type `float` without a warning; an attribute named `items` raises KeyError | a name already seen keeps its first type, and differing types only print a warning | not executed | CmdLine.GeneralAttrs, CmdLine.GeneralAttrsOverwrites, CmdLine.GeneralAttrsItems | CmdLine.GeneralAttrsIntended, CmdLine.GeneralAttrsIntendedFirst |

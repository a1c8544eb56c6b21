# coveo-python-oss core, modelled in Dafny

This project models the core logic of the `coveo-python-oss` libraries and proves properties of it. It has one Dafny module per source file, plus shared modules: `Wrappers` (Option and Result), `Text` (join, split, strip, integer text), `PyValues` (Python runtime values) and `Hints` (type hints and the classes and enums they name).

- **Flex deserializer** (`coveo_functools.flex`). `FlexDeserializer` and `FlexProperties` cover `deserialize`. It turns dicts, lists and scalars into the classes, enums, lists, dicts and unions a hint asks for. Dict keys reach the constructor's parameters whatever their case or separators. Anything that does not fit comes back unchanged. `FlexHelpers` covers `resolve_hint` and the "thing or list of things" rule. The other modules are:
  - `FlexTypes`: the passthrough types;
  - `Adapters`: the two adapter registries, as classes over maps;
  - `Serializer`: `SerializationMetadata`;
  - `Casing`: `unflex`, `flexcase` and `flexfactory`.
- **Settings** (`coveo_settings`). Environment lookup with normalised names is modelled, and so is the `Setting` class. It carries an override, a fallback, a validation cache and accessors that raise. The other modules are:
  - `BoolSetting`, `IntSetting` and `StringSetting`: the strict casts;
  - `Validation`: `InSequence`;
  - `LegacySettings`: the older `settings.py` variant.
- **Smaller cores.** Each has its own module:
  - `ArnParse`: ARN parse and print, and the resource split;
  - `Lookups`: `dict_lookup`;
  - `Versions` and `Pypi`: StrictVersion bumping and the choice of the next version;
  - `Wait`: the `Backoff` state machine;
  - `UniqueId`: `TestId`;
  - `Streams`: the ANSI escape filter;
  - `Subprocess`: command-line argument conversion;
  - `PyDev`: the TOML section spacer;
  - `PoetryApi`: the Poetry dependency model;
  - `CiConfig`: the stew CI configuration;
  - `Ref`: the string-level reference model behind `ref`.

Objects whose fields the code updates in place are Dafny classes with `modifies` frames:
- the adapter registries;
- `Setting`;
- `StrictVersionHelper`;
- `Backoff`;
- the `TestId` counters;
- `ContinuousIntegrationConfig`.

Loops in the source are methods with loop invariants, each proved against a specification function:
- stripping `NoneType`;
- the thing-or-list scan;
- the enum scans;
- the environment scan of `_find_setting`;
- payload preparation;
- `unflex`;
- `from_instance`;
- stage generation;
- the TOML formatter.

Where the documentation and the code disagree, the model follows the code. Two cases:
- The `resource_type` and `resource_id` docstrings describe swapped parts. The model follows the code: the type is the part before the separator.
- The `Union[bytes, ...]` dict cases described for the deserializer would raise under the code as shown.

## Model

| member | source | states |
|---|---|---|
| FlexTypes.IsPassthroughType | coveo-functools/coveo_functools/flex/types.py:6-25 | a hint is passthrough iff it is hashable and is `None`, `Any`, one of bytes/str/bool/int/float, `NoneType` or `dict`; `list` is not, and an unhashable hint gives `False` |
| FlexTypes.PassthroughMembers | coveo-functools/coveo_functools/flex/types.py:6-16 | `PASSTHROUGH_TYPES` holds exactly `None`, `Any` and the seven `JSON_TYPES` |
| Adapters.Registered | coveo-functools/coveo_functools/flex/subclass_adapter.py:16-19 | registration succeeds iff the key is hashable and not yet present; then the key maps to the new entry and every other key is unchanged; otherwise the error says which guard failed |
| Adapters.LookupAfterRegister | coveo-functools/coveo_functools/flex/factory_adapter.py:17-29 | after a successful registration both lookups return the registered entry |
| Adapters.RegisterTwice | coveo-functools/coveo_functools/flex/factory_adapter.py:17-18 | registering the same key again fails with `RuntimeError` and the first entry is still what lookups return |
| Adapters.RegisterKeepsOthers | coveo-functools/coveo_functools/flex/subclass_adapter.py:19 | a registration changes no lookup of another key |
| Adapters.SubclassAdapters.constructor | coveo-functools/coveo_functools/flex/subclass_adapter.py:6 | the registry starts empty |
| Adapters.SubclassAdapters.Register | coveo-functools/coveo_functools/flex/subclass_adapter.py:9-19 | on success the registry becomes `Registered(old registry)`; on failure it is unchanged and the error is reported |
| Adapters.SubclassAdapters.Get | coveo-functools/coveo_functools/flex/subclass_adapter.py:22-23 | an unhashable key raises; otherwise the stored adapter when the key is registered, and `None` when it is not |
| Adapters.FactoryAdapters.constructor | coveo-functools/coveo_functools/flex/factory_adapter.py:8 | the registry starts empty |
| Adapters.FactoryAdapters.Register | coveo-functools/coveo_functools/flex/factory_adapter.py:11-20 | on success the registry becomes `Registered(old registry)`; a second registration of a hint fails and keeps the first factory |
| Adapters.FactoryAdapters.Get | coveo-functools/coveo_functools/flex/factory_adapter.py:23-29 | the stored factory iff the hint is hashable and registered, `None` otherwise (an unhashable hint does not raise) |
| FlexHelpers.WithoutNoneMembers | coveo-functools/coveo_functools/flex/helpers.py:59-60 | after the removal loop an argument is present iff it was present before and is not `NoneType` |
| FlexHelpers.RemoveNoneTypes | coveo-functools/coveo_functools/flex/helpers.py:59-60 | the `while type(None) in args: args.remove(...)` loop ends with no `NoneType` left and every other argument in its original order |
| FlexHelpers.ThingOrListSpec | coveo-functools/coveo_functools/flex/helpers.py:82-103 | `_as_union_of_thing_or_list_of_things` succeeds iff it gets exactly one bare type and one list generic, in either order; it then returns `(T, List[T])` with `T` first, and the list's own element type is not compared with `T` |
| FlexHelpers.ThingOrListLoop | coveo-functools/coveo_functools/flex/helpers.py:87-103 | the loop over the two annotations computes the same result as the specification `ThingOrList` |
| FlexHelpers.ResolveArgs | coveo-functools/coveo_functools/flex/helpers.py:53-79 | the origin is kept; `dict` returns its arguments untouched; otherwise no `NoneType` is left; a resolved pair that is not all passthrough is `(T, List[T])`; no argument outweighs the input |
| FlexHelpers.ThingOrListSizes | coveo-functools/coveo_functools/flex/helpers.py:76-77 | the pair returned for a two-argument union holds no `NoneType`, has `List[T]` second, and is no heavier than the input arguments |
| FlexHelpers.ResolveRules | coveo-functools/coveo_functools/flex/helpers.py:69-79 | for every origin other than `dict` (and `Literal` in `resolve_hint`): all-passthrough or fewer than two arguments pass unchanged; two must form a thing-or-list pair, otherwise `UnsupportedAnnotation`; three or more non-passthrough arguments raise `UnsupportedAnnotation` |
| FlexHelpers.ArgsSmaller | coveo-functools/coveo_functools/flex/helpers.py:48 | the arguments `get_args` returns are structurally smaller than the hint |
| FlexHelpers.ResolveHint | coveo-functools/coveo_functools/flex/helpers.py:18-79 | every resolved argument is strictly smaller than the hint it came from, which is what lets the deserializer recurse on them |
| FlexHelpers.ResolveHintPlain | coveo-functools/coveo_functools/flex/deserializer.py:179-216 | the deserializer's own `_resolve_hint` keeps `get_origin(h) or h` as origin and returns arguments strictly smaller than the hint |
| FlexHelpers.ResolveInitVar | coveo-functools/coveo_functools/flex/helpers.py:32-44 | `InitVar[T]` resolves exactly as `T`; `InitVar` over a tuple raises `UnsupportedAnnotation`; a bare `InitVar` has origin `Any` and no arguments |
| FlexHelpers.ResolveLiteral | coveo-functools/coveo_functools/flex/helpers.py:63-67 | a `Literal` comes back with all its values, however many, and no union rule is applied |
| FlexHelpers.ResolveDict | coveo-functools/coveo_functools/flex/helpers.py:53-55 | `Dict[K, V]` returns `(dict, [K, V])` as is, `NoneType` included |
| FlexDeserializer.FlexTranslateIsLookupKey | coveo-functools/coveo_functools/flex/deserializer.py:146-147 | `_flex_translate` (casefold, then delete `_-. `) gives the same key as the keyword mapper's `_lookup_key` (delete, then lowercase) |
| FlexDeserializer.FindValue | coveo-functools/coveo_functools/flex/deserializer.py:152-154 | `hint(value)`: the first member whose value equals the payload under Python `==` (bools equal to ints and dicts compared as mappings, at any depth), or none when no member value does |
| FlexDeserializer.EnumListValueFound | coveo-functools/coveo_functools/flex/deserializer.py:152-154 | a member whose value is `[1]` is found from the payload `[True]` |
| FlexDeserializer.EnumDictValueFound | coveo-functools/coveo_functools/flex/deserializer.py:152-154 | a member whose value is `{"a": 1, "b": 2}` is found from `{"b": 2, "a": True}` |
| PyValues.PyEqReflexive | coveo-functools/coveo_functools/flex/deserializer.py:154 | every value equals itself under Python `==` |
| PyValues.PyEqSymmetric | coveo-functools/coveo_functools/flex/deserializer.py:154 | Python `==` is symmetric |
| PyValues.PyEqTransitive | coveo-functools/coveo_functools/flex/deserializer.py:154 | Python `==` is transitive |
| FlexDeserializer.FindName | coveo-functools/coveo_functools/flex/deserializer.py:158-160 | `hint[value]`: the first member of that name, or none when no member has it |
| FlexDeserializer.Canonical | coveo-functools/coveo_functools/flex/deserializer.py:158-160 | an alias found by name stands for the first member with an equal value, which is itself no alias |
| FlexDeserializer.FindFuzzy | coveo-functools/coveo_functools/flex/deserializer.py:164-174 | the first non-alias member whose string value or name, normalised, equals the normalised payload; none when no such member exists |
| FlexDeserializer.FuzzyScan | coveo-functools/coveo_functools/flex/deserializer.py:167-174 | the `for enum_item in hint` loop returns the same member as `FindFuzzy` |
| FlexDeserializer.CanonicalScan | coveo-functools/coveo_functools/flex/deserializer.py:167 | iterating an enum visits member `i` iff no earlier member has an equal value |
| FlexDeserializer.CanonicalNames | coveo-functools/coveo_functools/flex/deserializer.py:167 | the names iteration yields are exactly those of the non-alias members |
| FlexDeserializer.DeserializeEnum | coveo-functools/coveo_functools/flex/deserializer.py:151-176 | fails only when no value matches and the payload is unhashable; anything other than the payload that comes back is a member of that enum, never an alias name |
| FlexDeserializer.PyEqSymmetricTransitive | coveo-functools/coveo_functools/flex/deserializer.py:154 | the value comparison behind `hint(value)` is symmetric and transitive |
| FlexDeserializer.PreparePayloadLoop | coveo-functools/coveo_functools/flex/deserializer.py:34-46 | the loop over the annotations computes the payload `PreparePayload` specifies |
| FlexProperties.ItemsOk | coveo-functools/coveo_functools/flex/deserializer.py:133 | the list comprehension succeeds iff every item converts |
| FlexProperties.ItemsValues | coveo-functools/coveo_functools/flex/deserializer.py:133 | a list comprehension that succeeds has one result per item, each in its item's place |
| FlexProperties.EntriesOk | coveo-functools/coveo_functools/flex/deserializer.py:141 | the dict comprehension succeeds iff every value converts |
| FlexProperties.EntriesValues | coveo-functools/coveo_functools/flex/deserializer.py:141 | a dict comprehension that succeeds keeps every key in order, each beside its own value's conversion |
| FlexProperties.PayloadNamesFrom | coveo-functools/coveo_functools/flex/deserializer.py:41-44 | every key the payload carries is an annotated parameter that key mapping reached |
| FlexProperties.PayloadSpec | coveo-functools/coveo_functools/flex/deserializer.py:34-46 | `prepare_payload_for_unpacking` fails iff some attempted conversion fails; otherwise its keys are exactly the annotated parameters that key mapping reached, each holding the deserialization of its mapped value with its own annotation |
| FlexProperties.PayloadOk | coveo-functools/coveo_functools/flex/deserializer.py:41-44 | the loop succeeds iff each conversion it attempts succeeds |
| FlexProperties.PayloadKeys | coveo-functools/coveo_functools/flex/deserializer.py:41-46 | a prepared payload's keys are those already gathered plus the reached annotated parameters, and no other |
| FlexProperties.PayloadKeepsGathered | coveo-functools/coveo_functools/flex/deserializer.py:39-46 | entries gathered before a step are passed on unchanged |
| FlexProperties.PayloadValues | coveo-functools/coveo_functools/flex/deserializer.py:44 | each reached parameter holds its conversion |
| FlexProperties.ConstructSpec | coveo-functools/coveo_functools/flex/deserializer.py:123-124 | building a class from a dict passes only annotated parameters, so it fails exactly when a required parameter is missing; a conversion error propagates; a success is an instance of that class with one attribute per parameter |
| FlexProperties.NoneIsNone | coveo-functools/coveo_functools/flex/deserializer.py:68-69 | a `None` payload gives `None` for every hint, before any adapter or validation |
| FlexProperties.AdapterReplacesHint | coveo-functools/coveo_functools/flex/deserializer.py:71-76 | a registered adapter's answer replaces the hint, and an abstract answer raises `UnsupportedAnnotation` |
| FlexProperties.ToDispatch | coveo-functools/coveo_functools/flex/deserializer.py:71-80 | without an adapter, a hashable non-abstract hint goes straight to the dispatch on its resolved origin |
| FlexProperties.PassthroughUnion | coveo-functools/coveo_functools/flex/deserializer.py:85-88 | a union of passthrough types returns the payload unchanged |
| FlexProperties.OptionalUnion | coveo-functools/coveo_functools/flex/deserializer.py:90-92 | `Optional[T]` deserializes exactly as `T` |
| FlexProperties.ThingOrListDispatch | coveo-functools/coveo_functools/flex/deserializer.py:94-99 | for `Union[T, List[T]]` in either order, an array-like payload is deserialized as `List[T]` and any other as `T` |
| FlexProperties.ResolveThingOrList | coveo-functools/coveo_functools/flex/deserializer.py:213-214 | `_resolve_hint` of a thing-or-list union returns the thing first, then the list of it |
| FlexProperties.ResolveList | coveo-functools/coveo_functools/flex/deserializer.py:191-211 | `_resolve_hint(List[e])` gives origin `list` with `[e]`, or no argument when `e` is `NoneType` |
| FlexProperties.ListHint | coveo-functools/coveo_functools/flex/deserializer.py:101-102 | a list hint maps an array-like payload item by item (same length, same order, `None` items kept, any failing item fails the whole), and returns any other payload unchanged |
| FlexProperties.ListDispatch | coveo-functools/coveo_functools/flex/deserializer.py:101-102 | a list hint calls `_deserialize_list` with its element type, or `Any` when there is none |
| FlexProperties.DictHint | coveo-functools/coveo_functools/flex/deserializer.py:104-106 | a dict hint keeps exactly the payload's keys in order, converts each value with the value annotation (`Any` when that is falsy), and returns a non-mapping unchanged |
| FlexProperties.DictDispatch | coveo-functools/coveo_functools/flex/deserializer.py:104-106 | a dict hint calls `_deserialize_dict` with its value annotation |
| FlexProperties.ResolveDict | coveo-functools/coveo_functools/flex/deserializer.py:197-199 | `_resolve_hint(Dict[k, v])` gives origin `dict` with both arguments |
| FlexProperties.EnumMatchOrder | coveo-functools/coveo_functools/flex/deserializer.py:151-174 | the first member with an equal value wins; failing that, the first member of that name (its canonical member when it is an alias); failing that, the first non-alias member that matches after normalisation |
| FlexProperties.EnumNoMatch | coveo-functools/coveo_functools/flex/deserializer.py:176 | with no match of any kind, a hashable payload comes back unchanged |
| FlexProperties.ResolveClass | coveo-functools/coveo_functools/flex/deserializer.py:191-211 | a class or enum resolves to itself with no arguments |
| FlexProperties.ClassHint | coveo-functools/coveo_functools/flex/deserializer.py:112-124 | a class hint builds the class from a dict payload, and returns any other payload untouched |
| FlexProperties.EnumHint | coveo-functools/coveo_functools/flex/deserializer.py:112-117 | an enum hint returns one of its own members untouched, and sends anything else to `_deserialize_enum` |
| FlexProperties.NonArrayStays | coveo-functools/coveo_functools/flex/deserializer.py:59-117 | a payload that is not array-like never comes back array-like, whatever the hint and the adapters |
| FlexProperties.NonArrayStaysLeaf | coveo-functools/coveo_functools/flex/deserializer.py:101-126 | the dispatch branches that do not call `deserialize` again keep a non-array payload non-array |
| FlexProperties.UnionArity | coveo-functools/coveo_functools/flex/deserializer.py:85-99 | a resolved union is all passthrough or has one or two arguments, so the union branch always returns |
| FlexProperties.Idempotent | coveo-functools/coveo_functools/flex/deserializer.py:59-117 | with no adapter registered, deserializing a result again with the same hint gives that same result |
| FlexProperties.ItemsFixed | coveo-functools/coveo_functools/flex/deserializer.py:133 | items that each convert to themselves leave the list comprehension a no-op |
| FlexProperties.EntriesFixed | coveo-functools/coveo_functools/flex/deserializer.py:141 | values that each convert to themselves leave the dict comprehension a no-op |
| FlexProperties.ConstructShape | coveo-functools/coveo_functools/flex/deserializer.py:124 | building from a dict yields an instance of the class named |
| FlexProperties.FallbackShape | coveo-functools/coveo_functools/flex/deserializer.py:121-126 | anything the fallback returns other than the payload is a built object or an enum member, of the origin's class when the origin is a class |
| Casing.Translate | coveo-functools/coveo_functools/casing.py:56 | the translated key holds none of `_`, `-`, `.` and space |
| Casing.TranslateLower | coveo-functools/coveo_functools/casing.py:104-106 | deleting separators and lowercasing commute |
| Casing.LookupKeyIgnoresSeparator | coveo-functools/coveo_functools/casing.py:103-106 | inserting `_`, `-`, `.` or a space anywhere in a key does not change its lookup key |
| Casing.LookupKeyIgnoresCase | coveo-functools/coveo_functools/casing.py:103-106 | keys that differ only in ASCII letter case share a lookup key |
| Casing.CreateLookup | coveo-functools/coveo_functools/casing.py:92-101 | every name other than `return` is reachable from its own lookup key, and every entry maps a key to a name (not `return`) whose lookup key it is |
| Casing.Unflexed | coveo-functools/coveo_functools/casing.py:78-90 | the clean dict never has more entries than the dirty keywords |
| Casing.UnflexedKeys | coveo-functools/coveo_functools/casing.py:81-88 | a name is in the clean dict iff some dirty key is filed under it: its canonical name when matched, itself when unmatched and extras are kept, nowhere when stripped |
| Casing.UnflexedValues | coveo-functools/coveo_functools/casing.py:86-88 | every value in the clean dict is the untouched value of some dirty key |
| Casing.UnflexLastWins | coveo-functools/coveo_functools/casing.py:81-88 | when several dirty keys reach the same name, the last one's value is kept |
| Casing.Unflex | coveo-functools/coveo_functools/casing.py:78-90 | the loop builds exactly the clean dict `Unflexed` specifies |
| Casing.UnflexedStep | coveo-functools/coveo_functools/casing.py:82-88 | one more dirty key updates the dict so far under its target name, or leaves it alone when stripped |
| Casing.UnflexedKnown | coveo-functools/coveo_functools/casing.py:82-90 | when every dirty key matches a parameter, `strip_extra` makes no difference to the clean dict |
| Casing.Flexcase | coveo-functools/coveo_functools/casing.py:68-74 | with extras stripped, the wrapped function only receives annotated names or allowed extras; every dirty key that names one of them (other than `return`) reaches a parameter |
| Casing.FlexfactoryStripped | coveo-functools/coveo_functools/casing.py:128-138 | `flexfactory` with `strip_extra=True` never passes an unknown keyword; it fails only when a required parameter is reached by no dirty key |
| Serializer.NewMetadata | coveo-functools/coveo_functools/flex/serializer.py:14-20 | a new record has the given module and class names, no generics and no additional metadata |
| Serializer.ClassIdentity | coveo-functools/coveo_functools/flex/serializer.py:48-50 | `(__module__, __name__)` exists exactly for classes; a user class's module comes from its definition |
| Serializer.RuntimeClassNamed | coveo-functools/coveo_functools/flex/serializer.py:31 | every value other than `None` has a runtime class with a module and a name |
| Serializer.FieldsAnnotated | coveo-functools/coveo_functools/flex/serializer.py:35 | `find_annotations(actual_type)` yields fields only for user classes, each named after an annotated parameter |
| Serializer.Attr | coveo-functools/coveo_functools/flex/serializer.py:38 | an attribute read is part of the instance (structurally smaller), which bounds the recursion |
| Serializer.Describe | coveo-functools/coveo_functools/flex/serializer.py:23-52 | `None` raises; a success names the runtime class of the instance and has no generics; errors are only `None` or missing attributes |
| Serializer.Collect | coveo-functools/coveo_functools/flex/serializer.py:35-46 | the loop fails only with a `None` value or a missing attribute |
| Serializer.FromInstance | coveo-functools/coveo_functools/flex/serializer.py:23-31 | `None` and class objects are refused; a success names the instance's runtime class |
| Serializer.FromInstanceIntended | coveo-functools/coveo_functools/flex/serializer.py:44-46 | the same guarantees for the corrected recording rule |
| Serializer.RecordedFromMembers | coveo-functools/coveo_functools/flex/serializer.py:44-46 | a name is recorded iff some field carrying it has an attribute and passes the recording test |
| Serializer.CollectOk | coveo-functools/coveo_functools/flex/serializer.py:35-46 | the loop fails iff some annotated field has no attribute, or a recorded field's own metadata fails |
| Serializer.CollectKeys | coveo-functools/coveo_functools/flex/serializer.py:44-46 | a loop that succeeds records exactly the selected fields on top of what it started from |
| Serializer.CollectKeepsAcc | coveo-functools/coveo_functools/flex/serializer.py:33-46 | entries gathered before are kept unless a later field takes their name |
| Serializer.CollectValues | coveo-functools/coveo_functools/flex/serializer.py:46 | each recorded field's entry is the metadata of that field's value |
| Serializer.DescribeFields | coveo-functools/coveo_functools/flex/serializer.py:35-52 | `from_instance` succeeds iff every annotated field has an attribute and every recorded field can itself be described; each recorded entry is the metadata of its value |
| Serializer.AdditionalKeysAnnotated | coveo-functools/coveo_functools/flex/serializer.py:33-46 | `additional_metadata` keys are always annotated field names of the instance's class |
| Serializer.FromValueLoop | coveo-functools/coveo_functools/flex/serializer.py:23-52 | the method's loop, with its recursion into recorded fields, returns exactly `Describe` with the rule as written |
| Serializer.FromAnnotations | coveo-functools/coveo_functools/flex/serializer.py:54-57 | `from_annotations` names the origin `resolve_hint` returns and stores its args as generics; a resolution error propagates; an origin with no class name fails |
| Serializer.FromAnnotationsExamples | coveo-functools/coveo_functools/flex/serializer.py:54-57 | `List[C]` names `builtins.list` with generic `C`; `InitVar[C]` is named like `C`; a class names itself; `Optional[C]` resolves to the `Union` form, which has no class name |
| Serializer.AsWrittenRecordsByOuterClass | coveo-functools/coveo_functools/flex/serializer.py:44-46 | as written, a field holding exactly its annotated class is recorded when the outer class differs, and a field holding a subclass is skipped when the annotation is the outer class; the corrected rule records the opposite pair |
| Serializer.IntendedRecordsByValueClass | coveo-functools/coveo_functools/flex/serializer.py:44-46 | with the corrected rule a field is recorded iff its value's class is not its annotation |
| SettingAbc.Normalize | coveo-settings/coveo_settings/setting_abc.py:49-51 | the normal form is no longer than the key, holds no `.` or `_` and is lowercase |
| SettingAbc.NormalizeFixed | coveo-settings/coveo_settings/setting_abc.py:49-51 | a key already lowercase and free of separators is its own normal form |
| SettingAbc.NormalizeIdempotent | coveo-settings/coveo_settings/setting_abc.py:49-51 | normalising twice gives the same as normalising once |
| SettingAbc.NormalizeAppend | coveo-settings/coveo_settings/setting_abc.py:49-51 | the normal form of a concatenation is the concatenation of the normal forms |
| SettingAbc.SeparatorIgnored | coveo-settings/coveo_settings/setting_abc.py:42-51 | inserting a `.` or `_` anywhere in a key does not change what it matches |
| SettingAbc.CaseIgnored | coveo-settings/coveo_settings/setting_abc.py:46-51 | changing the case of any one character of a key does not change what it matches |
| SettingAbc.EnvGet | coveo-settings/coveo_settings/setting_abc.py:57 | `os.environ.get`: absent exactly when no variable has the name; otherwise the value of a variable with that name |
| SettingAbc.NormalizedGet | coveo-settings/coveo_settings/setting_abc.py:58-62 | absent exactly when no variable normalises to the stripped key; otherwise the value of one that does |
| SettingAbc.KeyMatch | coveo-settings/coveo_settings/setting_abc.py:56-64 | one key: its exact variable when there is one, otherwise the normalised scan |
| SettingAbc.FindIn | coveo-settings/coveo_settings/setting_abc.py:56-66 | nothing found exactly when no key finds anything; otherwise what some key finds |
| SettingAbc.FindSetting | coveo-settings/coveo_settings/setting_abc.py:45-66 | an empty key list is an error (`Key should not be empty.`); otherwise the result of the key search |
| SettingAbc.ExactMainKeyWins | coveo-settings/coveo_settings/setting_abc.py:56-64 | a variable named exactly like the main key wins over every other key and spelling |
| SettingAbc.LaterKeyOnlyAsFallback | coveo-settings/coveo_settings/setting_abc.py:56-66 | key `i` decides the result when every earlier key finds nothing, exactly or normalised |
| SettingAbc.FindSettingLoop | coveo-settings/coveo_settings/setting_abc.py:45-66 | the nested loops compute `FindSetting` |
| SettingAbc.ScanNormalized | coveo-settings/coveo_settings/setting_abc.py:59-62 | the inner loop returns the value of the first variable whose normal form matches |
| SettingAbc.FirstNormalized | coveo-settings/coveo_settings/setting_abc.py:60-62 | the first matching variable in iteration order determines the scan's result |
| SettingAbc.Cast | coveo-settings/coveo_settings/setting_abc.py:156-159 | each subclass's `_cast` succeeds exactly when its own cast does, with a value of its type |
| SettingAbc.CastIdempotent | coveo-settings/coveo_settings/setting_abc.py:156-159 | a cast value casts to itself |
| SettingAbc.ResolveValidation | coveo-settings/coveo_settings/setting_abc.py:196-207 | callables are kept; strings and non-iterables raise `Unsupported validation callback type`; an iterable becomes `InSequence` over its items |
| SettingAbc.AllowedRejects | coveo-settings/coveo_settings/setting_abc.py:172-175 | an `InSequence` callback rejects a value exactly when no allowed value equals it |
| SettingAbc.PrettyRepr | coveo-settings/coveo_settings/setting_abc.py:214-216 | `Class[key] = ` followed by `<not-set>`, `<sensitive>` or the value, case by case |
| SettingAbc.SensitiveHidden | coveo-settings/coveo_settings/setting_abc.py:214-216 | a sensitive setting prints the same text whatever its value; a plain one shows the value |
| SettingAbc.InitError | coveo-settings/coveo_settings/setting_abc.py:90-112 | construction fails exactly when the validation is unusable or a constant fallback does not cast; a callable fallback is never called |
| SettingAbc.Setting.constructor | coveo-settings/coveo_settings/setting_abc.py:99-108 | fields as given, no override, empty caches, `Valid()` |
| SettingAbc.Setting.Create | coveo-settings/coveo_settings/setting_abc.py:90-112 | fails exactly with `InitError`'s error; otherwise a fresh, valid setting holding the arguments and the resolved callback |
| SettingAbc.Setting.Unoverridden | coveo-settings/coveo_settings/setting_abc.py:185-191 | without override: the environment under the main and alternate keys, otherwise the fallback |
| SettingAbc.Setting.RawValue | coveo-settings/coveo_settings/setting_abc.py:183-194 | an override wins; the raw value is missing exactly when there is no override, no environment match and no fallback value |
| SettingAbc.Setting.CastOrRaise | coveo-settings/coveo_settings/setting_abc.py:161-168 | succeeds exactly when `_cast` does; otherwise `TypeConversionConfigurationError` with the pretty repr |
| SettingAbc.Setting.Validated | coveo-settings/coveo_settings/setting_abc.py:170-177 | the value passes unchanged exactly when the callback returns no (or an empty) message |
| SettingAbc.Setting.Checked | coveo-settings/coveo_settings/setting_abc.py:179-181 | succeeds exactly when the value casts and the cast value passes validation |
| SettingAbc.Setting.ValueOf | coveo-settings/coveo_settings/setting_abc.py:119-123 | `None` exactly when unset; otherwise it succeeds exactly when cast and validation do, with the cast raw value, of the setting's type and accepted by the callback, and fails with their error |
| SettingAbc.Setting.GetValue | coveo-settings/coveo_settings/setting_abc.py:183-194 | returns `RawValue` and records it in `_last_value`; nothing else changes |
| SettingAbc.Setting.ValidateOrRaise | coveo-settings/coveo_settings/setting_abc.py:170-177 | same outcome as `Validated`, cache or not; the cache holds only accepted values |
| SettingAbc.Setting.CastAndValidate | coveo-settings/coveo_settings/setting_abc.py:179-181 | same outcome as `Checked`; a success is cached |
| SettingAbc.Setting.Value | coveo-settings/coveo_settings/setting_abc.py:119-123 | returns `ValueOf` of the state before the call, so the cast raw value on success; records the raw value and caches a success |
| SettingAbc.Setting.SetValue | coveo-settings/coveo_settings/setting_abc.py:125-134 | afterwards the raw value is the override, or the environment and fallback again when `None` |
| SettingAbc.Setting.IsSet | coveo-settings/coveo_settings/setting_abc.py:136-142 | true exactly when a raw value exists, valid or not |
| SettingAbc.Setting.RaiseIfMissing | coveo-settings/coveo_settings/setting_abc.py:209-212 | raises `Mandatory config item "<key>" is missing.` exactly when the raw value is missing |
| SettingAbc.Setting.Mandatory | coveo-settings/coveo_settings/setting_abc.py:209-212 | a missing value is a `MandatoryConfigurationError`; otherwise the result of cast and validation |
| SettingAbc.Setting.Eq | coveo-settings/coveo_settings/setting_abc.py:227-233 | succeeds exactly when the value is set and valid, and then is Python `==` against it |
| SettingAbc.Setting.Bool | coveo-settings/coveo_settings/setting_abc.py:235-237 | unset is false; otherwise the truth of the valid value, or its error |
| SettingAbc.Setting.Str | coveo-settings/coveo_settings/setting_abc.py:239-242 | succeeds exactly when set and valid, giving `str()` of the value |
| SettingAbc.Setting.Int | coveo-settings/coveo_settings/setting_abc.py:244-247 | missing raises; otherwise it succeeds exactly when the value casts, validates and `int()` accepts it, with that number; an `int()` refusal is a conversion error; for an `IntSetting` every valid value converts to itself |
| SettingAbc.Setting.Repr | coveo-settings/coveo_settings/setting_abc.py:218-225 | shows `ClassName[key] = ` followed by `<sensitive>`, else the `str()` of the cached value, else of the last raw value, else `<not-evaluated>`; reads nothing from the environment |
| BoolSetting.Cast | coveo-settings/coveo_settings/bool_setting.py:13-23 | true exactly for the four true keywords, false exactly for the four false ones, compared on the lowercased `str()`; any other text is an error naming it |
| BoolSetting.KeywordsDisjoint | coveo-settings/coveo_settings/bool_setting.py:13-14 | no keyword is both true and false |
| BoolSetting.CastBool | coveo-settings/coveo_settings/bool_setting.py:19-23 | a bool and its `str()` both cast back to that bool |
| BoolSetting.CastInt | coveo-settings/coveo_settings/bool_setting.py:19-23 | an int casts exactly when it is 0 or 1, to `i == 1` |
| BoolSetting.CastDict | coveo-settings/coveo_settings/bool_setting.py:19-21 | a dict never casts |
| BoolSetting.CaseInsensitive | coveo-settings/coveo_settings/bool_setting.py:19-21 | `trUe`, `YES` and `N` cast; the empty string does not |
| IntSetting.Cast | coveo-settings/coveo_settings/int_setting.py:8-16 | text with a `.` is rejected first; otherwise the cast succeeds exactly when `int()` parses the text, with that integer |
| IntSetting.CastPrinted | coveo-settings/coveo_settings/int_setting.py:13-16 | an int and its decimal text both cast back to that int |
| IntSetting.CastRejectsBoolAndDict | coveo-settings/coveo_settings/int_setting.py:13-16 | bools (`True`/`False`) and dicts never cast |
| IntSetting.Examples | coveo-settings/coveo_settings/int_setting.py:11-16 | `-0` and `-1` parse; `0.0`, `hey`, the empty string and `0x56f` do not |
| StringSetting.Cast | coveo-settings/coveo_settings/string_setting.py:8-20 | a dict is refused; other values succeed exactly when their `str()` is non-empty, and the result is that text |
| StringSetting.CastString | coveo-settings/coveo_settings/string_setting.py:14-20 | a string comes back unchanged exactly when it is not empty |
| StringSetting.CastScalars | coveo-settings/coveo_settings/string_setting.py:11-15 | ints and bools always cast, to their decimal text and to `True`/`False` |
| Validation.InSequence.Texts | coveo-settings/coveo_settings/validation.py:12 | `str()` of each allowed value, same length and order |
| Validation.InSequence.Call | coveo-settings/coveo_settings/validation.py:10-14 | no message exactly when some allowed value equals the value; otherwise exactly `Valid values are : ` followed by the `str()` of the allowed values, in order, joined with `, ` (so each of them occurs in it) |
| Validation.BoolMatchesInt | coveo-settings/coveo_settings/validation.py:11 | `True == 1` and `False == 0` under the `in` test, both ways round |
| LegacySettings.BoolCast | coveo-settings/coveo_settings/settings.py:205-215 | succeeds exactly on the three true and three false keywords, true exactly on the true ones |
| LegacySettings.NewerBoolCastExtends | coveo-settings/coveo_settings/settings.py:205-215 | the newer bool cast agrees wherever this one succeeds, and also accepts `y` and `n` |
| LegacySettings.Cast | coveo-settings/coveo_settings/settings.py:188-283 | each subclass's `cast`: `AnySetting` is the identity, the scalar casts agree with their newer counterparts, `DictSetting` returns a dict as is, a string's `json.loads` result when that is a dict (a decode error is wrapped), and raises the unwrapped assertion for a decoded non-dict and for any other value |
| LegacySettings.CastAndValidate | coveo-settings/coveo_settings/settings.py:130-137 | succeeds exactly when `cast` does; `ValueError`/`TypeError` become `InvalidConfiguration`, the dict assertion is not wrapped |
| LegacySettings.LegacySetting.Raw | coveo-settings/coveo_settings/settings.py:139-143 | the environment under the main and alternate keys, otherwise the fallback (called if callable) |
| LegacySettings.LegacySetting.Value | coveo-settings/coveo_settings/settings.py:139-149 | `None` exactly when unset; otherwise succeeds exactly when the raw value casts, with the cast value |
| LegacySettings.LegacySetting.IsSet | coveo-settings/coveo_settings/settings.py:120-123 | false exactly when unset, true exactly when set and castable; a malformed value raises |
| LegacySettings.LegacySetting.Mandatory | coveo-settings/coveo_settings/settings.py:151-154 | unset raises `Mandatory config item "<key>" is missing.`; otherwise the cast value or its error |
| LegacySettings.LegacySetting.Eq | coveo-settings/coveo_settings/settings.py:160-166 | succeeds exactly when `Mandatory` does, and is Python `==` against that value (bools equal to ints and dicts compared as mappings, at any depth) |
| ConfigValues.DictEqIgnoresOrder | coveo-settings/coveo_settings/settings.py:160-163 | `{"a": 1, "b": 2}` equals `{"b": 2, "a": True}`, and a dict with an extra key is not equal |
| ConfigValues.IntOf | coveo-settings/coveo_settings/setting_abc.py:247 | Python `int()` of a setting value: an int is itself and a bool is 0 or 1; a dict is refused; a string is accepted only as an integer text, never one with a `.` |
| ConfigValues.IntOfPrinted | coveo-settings/coveo_settings/setting_abc.py:247 | `int(str(i))` gives back `i` for every integer |
| LegacySettings.LegacySetting.Bool | coveo-settings/coveo_settings/settings.py:168-170 | unset is false; errors exactly when `value` does (a set value that does not cast), and otherwise is true exactly when the value is set and truthy |
| LegacySettings.LegacySetting.Str | coveo-settings/coveo_settings/settings.py:172-175 | succeeds exactly when `Mandatory` does, with `str()` of the value |
| LegacySettings.LegacySetting.Int | coveo-settings/coveo_settings/settings.py:177-180 | unset raises; otherwise it succeeds exactly when `Mandatory` does and `int()` accepts the value, with that number, and an `int()` refusal is a conversion error; for an `IntSetting` it succeeds exactly when `Mandatory` does, with that value |
| LegacySettings.LegacySetting.DictEntries | coveo-settings/coveo_settings/settings.py:265-275 | `self.value or {}`: unset gives no entries; otherwise the dict's entries, or the cast error |
| LegacySettings.LegacySetting.DictLen | coveo-settings/coveo_settings/settings.py:269-271 | the number of entries, 0 when unset |
| LegacySettings.LegacySetting.DictGet | coveo-settings/coveo_settings/settings.py:265-267 | succeeds exactly when the key is in the dict, with its value; unset or missing keys are `KeyError` |
| LegacySettings.LegacySetting.DictIter | coveo-settings/coveo_settings/settings.py:273-275 | the keys in order, none when unset |
| LegacySettings.Create | coveo-settings/coveo_settings/settings.py:91-103 | fails exactly when a constant fallback does not cast, with the cast error; a callable fallback is not called |
| LegacySettings.IsSetRaisesOnMalformed | coveo-settings/coveo_settings/settings.py:120-123 | a set but malformed value makes `is_set` raise |
| Lookups.Position | coveo-itertools/coveo_itertools/lookups.py:22 | an index designates a position exactly when it lies in `[-n, n)`; negative indices count from the end |
| Lookups.Subscript | coveo-itertools/coveo_itertools/lookups.py:22 | `KeyError` only from a dict, and from a dict with a string key exactly when the key is absent; `IndexError` only from an int index into a sequence |
| Lookups.Index | coveo-itertools/coveo_itertools/lookups.py:22 | never `KeyError`; `TypeError` exactly for a non-integer index, `IndexError` exactly for one out of range |
| Lookups.NoDefault | coveo-itertools/coveo_itertools/lookups.py:9-31 | without a default the lookup succeeds exactly when the path exists, with the value at its end (no keys gives the source itself) |
| Lookups.PathFound | coveo-itertools/coveo_itertools/lookups.py:18-22 | an existing path is followed to its value whatever the default |
| Lookups.MissingKeyReported | coveo-itertools/coveo_itertools/lookups.py:24-26 | without a default, a missing first dict key raises `KeyError` with that key |
| Lookups.DefaultAsWritten | coveo-itertools/coveo_itertools/lookups.py:21-31 | with a default, the lookup fails exactly when the first subscript raises `IndexError` or `TypeError`, and otherwise returns the path's value or the default |
| Lookups.DefaultIgnoredOnFirstIndex | coveo-itertools/coveo_itertools/lookups.py:29-31 | indexing an empty list at the first level raises even though a default is given |
| Lookups.DefaultUsedOnDeeperIndex | coveo-itertools/coveo_itertools/lookups.py:22-27 | the same failure one level deeper returns the default |
| Lookups.IntendedDefault | coveo-itertools/coveo_itertools/lookups.py:9-31 | the corrected lookup returns the path's value or else the given default; without a default it agrees with the source |
| Lookups.Path | coveo-itertools/coveo_itertools/lookups.py:18-22 | no keys lead to the source itself; a path that exists starts with a subscript of the source that succeeds |
| Lookups.DictLookup | coveo-itertools/coveo_itertools/lookups.py:9-31 | no keys return the source; a `KeyError` is raised only without a default; with a default, every failure is the `KeyError` on the whole key path |
| Versions.WithStage | coveo-pypi-cli/coveo_pypi_cli/versions.py:41-43 | the numbers are kept; `None` clears the prerelease, any other stage keeps the prerelease number |
| Versions.WithNum | coveo-pypi-cli/coveo_pypi_cli/versions.py:49-51 | the numbers are kept; `None` clears the prerelease, any other number keeps the stage |
| Versions.BumpedRelease | coveo-pypi-cli/coveo_pypi_cli/versions.py:53-61 | the result is a release with the same major and minor |
| Versions.BumpedPrerelease | coveo-pypi-cli/coveo_pypi_cli/versions.py:63-71 | fails exactly on a prerelease without a number; otherwise a prerelease with the same major and minor |
| Versions.CompareText | coveo-pypi-cli/coveo_pypi_cli/pypi.py:85 | zero exactly for equal texts |
| Versions.CompareTextAntisymmetric | coveo-pypi-cli/coveo_pypi_cli/pypi.py:85 | exchanging the texts negates the sign of the comparison |
| Versions.CompareAntisymmetric | coveo-pypi-cli/coveo_pypi_cli/pypi.py:85 | version comparison is zero exactly for equal versions, and exchanging them negates its sign |
| Versions.Compare | coveo-pypi-cli/coveo_pypi_cli/pypi.py:85 | a comparison gives -1, 0 or 1, and 0 for a version against itself |
| Versions.PrereleaseBelowRelease | coveo-pypi-cli/coveo_pypi_cli/versions.py:53-61 | a prerelease orders below the release with the same numbers |
| Versions.BumpedReleaseAbove | coveo-pypi-cli/coveo_pypi_cli/versions.py:53-61 | the next release is above the version it came from |
| Versions.BumpedPrereleaseAbove | coveo-pypi-cli/coveo_pypi_cli/versions.py:63-71 | the next prerelease of a parsed version is parsed and above it, except for a release with the patch bump off, which gets `a1` of the same numbers, below it |
| Versions.BumpedReleaseNumbers | coveo-pypi-cli/coveo_pypi_cli/versions.py:55-61 | a prerelease becomes its release; a release gets the next patch number |
| Versions.BumpedPrereleaseNumbers | coveo-pypi-cli/coveo_pypi_cli/versions.py:65-67 | a prerelease's number goes up by one, stage and numbers kept |
| Versions.StrictVersionHelper.constructor | coveo-pypi-cli/coveo_pypi_cli/versions.py:10-11 | the object holds the given version |
| Versions.StrictVersionHelper.SetMajor | coveo-pypi-cli/coveo_pypi_cli/versions.py:17-19 | only the major number changes |
| Versions.StrictVersionHelper.SetMinor | coveo-pypi-cli/coveo_pypi_cli/versions.py:25-27 | only the minor number changes |
| Versions.StrictVersionHelper.SetPatch | coveo-pypi-cli/coveo_pypi_cli/versions.py:33-35 | only the patch number changes |
| Versions.StrictVersionHelper.SetPrereleaseStage | coveo-pypi-cli/coveo_pypi_cli/versions.py:41-43 | the new state is `WithStage` of the old |
| Versions.StrictVersionHelper.SetPrereleaseNum | coveo-pypi-cli/coveo_pypi_cli/versions.py:49-51 | the new state is `WithNum` of the old |
| Versions.StrictVersionHelper.BumpNextRelease | coveo-pypi-cli/coveo_pypi_cli/versions.py:53-61 | the new state is `BumpedRelease` of the old |
| Versions.StrictVersionHelper.BumpNextPrerelease | coveo-pypi-cli/coveo_pypi_cli/versions.py:63-71 | the new state is `BumpedPrerelease` of the old; where that fails (the source's `TypeError`) nothing changes |
| Versions.StrictVersionHelper.Copy | coveo-pypi-cli/coveo_pypi_cli/versions.py:73-74 | a fresh object holding an equal version, whenever the version prints to text that parses back |
| Pypi.LatestRelease | coveo-pypi-cli/coveo_pypi_cli/pypi.py:54-62 | `None` exactly when every version is a prerelease; otherwise the first version, in the given order, that is a release |
| Pypi.NextVersionErrors | coveo-pypi-cli/coveo_pypi_cli/pypi.py:82-86 | `VersionException` exactly for a minimum that is a prerelease or below 0.0.1 |
| Pypi.NextVersionProperties | coveo-pypi-cli/coveo_pypi_cli/pypi.py:65-103 | the result is a prerelease exactly when asked, no lower than the minimum (or its `a1`), above the newest published version, and the minimum itself when nothing is published |
| Pypi.CompareTransitive | coveo-pypi-cli/coveo_pypi_cli/pypi.py:103 | `a >= b > c` implies `a > c` for parsed versions |
| Pypi.ComputeNextVersion | coveo-pypi-cli/coveo_pypi_cli/pypi.py:65-103 | the step-by-step computation yields exactly `NextVersion`'s error or a fresh object holding its version |
| Pypi.Max | coveo-pypi-cli/coveo_pypi_cli/pypi.py:103 | `max` returns one of its two arguments, no lower than either |
| Pypi.NextVersion | coveo-pypi-cli/coveo_pypi_cli/pypi.py:65-103 | a computed next version is a parsed version; every error is a `VersionException` whose message starts `Minimum version ` |
| Wait.Sanitize | coveo-functools/coveo_functools/wait.py:200-202 | first wait `|x|` or 0.2, maximum `|x|` or 4, growth kept above 1 or else 2; all three positive |
| Wait.GenerateStages | coveo-functools/coveo_functools/wait.py:193-210 | the stages meet `GeneratedFrom`: at least one stage; the first is the sanitised first wait (capped at the maximum); each next is the previous times the growth, capped at the maximum; every stage before the last is below the maximum, and the loop stops at the first stage whose growth reaches it; they strictly increase, are positive, and the last is the maximum |
| Wait.GeneratedUnique | coveo-functools/coveo_functools/wait.py:193-210 | these conditions (`GeneratedFrom`) determine the stages: two sequences meeting them for the same parameters are equal |
| Wait.GrowthStep | coveo-functools/coveo_functools/wait.py:206-208 | each loop step grows the wait and lowers the bound on the remaining steps, so the loop ends |
| Wait.Backoff.constructor | coveo-functools/coveo_functools/wait.py:161 | the given stages and limit, stage 0 |
| Wait.Backoff.Create | coveo-functools/coveo_functools/wait.py:139-173 | raises `Backoff received wrong values.` exactly when the given stages contain 0; empty or missing stages are the ones `generate_backoff_stages` gives (`GeneratedFrom`, which determines them); the limit is `len(stages) + |attempts| - 1`, or 0 (none) for a falsy count |
| Wait.Backoff.CurrentWait | coveo-functools/coveo_functools/wait.py:223 | one of the stages; the last one once the stage passes the end |
| Wait.Backoff.Next | coveo-functools/coveo_functools/wait.py:212-229 | a wait exactly while not used up (never for `NoBackoff`); it is the current stage's wait plus `draw` times the capped half-wait, with no jitter on the first call; stage advances by one; a used-up backoff resets to 0 and raises |
| Wait.Backoff.Reset | coveo-functools/coveo_functools/wait.py:231-233 | the stage is 0 |
| Wait.Backoff.PercentToMaxTime | coveo-functools/coveo_functools/wait.py:175-191 | the current wait divided by the last stage's; 1 once the last stage is reached |
| Wait.JitterBounds | coveo-functools/coveo_functools/wait.py:225-226 | the jitter lies between 0 and `min(w/2, 0.5)` |
| Wait.PercentBounds | coveo-functools/coveo_functools/wait.py:175-191 | for increasing positive stages the fraction lies in `(0, 1]` |
| Wait.Exhaust | coveo-functools/coveo_functools/wait.py:168-173 | a fresh bounded backoff yields exactly `maxStage` waits and is then back at stage 0 |
| UniqueId.SanitizePart | coveo-testing/coveo_testing/temporary_resource/unique_id.py:55-64 | same length; each character outside `[a-zA-Z0-9_-]` becomes `-`, the others are kept |
| UniqueId.SanitizedAllowed | coveo-testing/coveo_testing/temporary_resource/unique_id.py:55-64 | a sanitised part holds only allowed characters, never the delimiter, and sanitising again changes nothing |
| UniqueId.SanitizeKeepsAllowed | coveo-testing/coveo_testing/temporary_resource/unique_id.py:55-64 | a part of allowed characters only is unchanged |
| UniqueId.Parts | coveo-testing/coveo_testing/temporary_resource/unique_id.py:39-52 | six parts, none containing the delimiter (the source's assertion) |
| UniqueId.IdStructure | coveo-testing/coveo_testing/temporary_resource/unique_id.py:52-53 | the id holds exactly five delimiters and splitting it there gives back the six parts, the friendly name first |
| UniqueId.MakeId | coveo-testing/coveo_testing/temporary_resource/unique_id.py:52-53 | the id starts with the sanitised friendly name followed by the delimiter |
| UniqueId.TestIdRegistry.constructor | coveo-testing/coveo_testing/temporary_resource/unique_id.py:32 | no name has a counter yet |
| UniqueId.TestIdRegistry.NewTestId | coveo-testing/coveo_testing/temporary_resource/unique_id.py:35-53 | the id's number is the name's next number (0 for a new name), the name's counter moves up by one and every other name's counter is unchanged |
| Streams.RunLength | coveo-systools/coveo_systools/streams.py:20-21 | the longest run of matching bytes from a position: every byte in it matches and the byte after it, if any, does not |
| Streams.MatchLength | coveo-systools/coveo_systools/streams.py:13-26 | a match starts with ESC and spans at least two bytes of the input |
| Streams.FilterAnsi | coveo-systools/coveo_systools/streams.py:29-31 | the output is never longer than the input |
| Streams.FilterSubsequence | coveo-systools/coveo_systools/streams.py:29-31 | the output is the input with bytes deleted, the kept bytes in their order |
| Streams.NoEscapeUnchanged | coveo-systools/coveo_systools/streams.py:13-31 | a stream without ESC passes through unchanged |
| Streams.BoxDrawingKept | coveo-systools/coveo_systools/streams.py:7-11 | the bytes `E2 94 81` pass through unchanged |
| Streams.FeDeleted | coveo-systools/coveo_systools/streams.py:15-17 | ESC followed by an Fe byte other than `[` is deleted |
| Streams.ControlSequenceDeleted | coveo-systools/coveo_systools/streams.py:18-22 | ESC `[`, parameter bytes, intermediate bytes and a final byte are deleted together |
| Streams.RunOver | coveo-systools/coveo_systools/streams.py:20-21 | a run of matching bytes followed by a non-matching one is measured exactly |
| Streams.LoneEscapeKept | coveo-systools/coveo_systools/streams.py:15-23 | ESC followed by neither form is kept |
| Streams.SinglePass | coveo-systools/coveo_systools/streams.py:31 | one substitution pass can leave a new escape sequence behind |
| PyDev.HeaderAndKept | coveo-stew/coveo_stew/pydev.py:63-65 | the blank and header tests agree with `line.strip()` being empty and starting with `[` |
| PyDev.FormatToml | coveo-stew/coveo_stew/pydev.py:59-67 | the loop over the lines yields `Format` of the lines, the first one flagged first |
| PyDev.FormatSnoc | coveo-stew/coveo_stew/pydev.py:62-67 | appending a line appends exactly what that line contributes |
| PyDev.FormatKeepsLines | coveo-stew/coveo_stew/pydev.py:65-66 | without the separators, the output is exactly the non-blank lines, unchanged and in order |
| PyDev.FormatBreaks | coveo-stew/coveo_stew/pydev.py:63-64 | one separator per section header, except on the first line |
| PyDev.Format | coveo-stew/coveo_stew/pydev.py:59-67 | at most two output lines per input line |
| PyDev.FormatFromLines | coveo-stew/coveo_stew/pydev.py:63-66 | every output line is a separator or one of the input lines |
| PyDev.BreakBeforeHeader | coveo-stew/coveo_stew/pydev.py:63-66 | every separator is directly followed by a section header, so none ends the output |
| PyDev.HeaderKept | coveo-stew/coveo_stew/pydev.py:63-66 | a header line is never blank, so it is always kept |
| PyDev.NoBreakFirst | coveo-stew/coveo_stew/pydev.py:61-66 | a non-blank first line comes out first, with nothing before it |
| Subprocess.CastArgument | coveo-systools/coveo_systools/subprocess.py:287-310 | conversion fails exactly for a bool and for an unsupported type |
| Subprocess.CastValues | coveo-systools/coveo_systools/subprocess.py:297-305 | a string loses exactly its leading whitespace; an int becomes a decimal text that parses back to it |
| Subprocess.Casts | coveo-systools/coveo_systools/subprocess.py:164 | one conversion per argument, in order |
| Subprocess.BuildCommandNoBlank | coveo-systools/coveo_systools/subprocess.py:161-168 | no argument of the built command is empty or whitespace only, and there are at most as many as given |
| Subprocess.BuildCommandErrors | coveo-systools/coveo_systools/subprocess.py:161-168 | building fails exactly when some argument cannot be converted, with the error of the first such argument |
| Subprocess.BuildCommandSingle | coveo-systools/coveo_systools/subprocess.py:163-165 | one argument contributes nothing when its conversion is blank, and its conversion otherwise |
| Subprocess.BuildCommandAppend | coveo-systools/coveo_systools/subprocess.py:163-168 | the command of concatenated arguments is the concatenation of their commands |
| Subprocess.BuildCommandPlainStrings | coveo-systools/coveo_systools/subprocess.py:163-168 | strings that are non-blank and do not start with whitespace come out unchanged and in order |
| Subprocess.BuildCommand | coveo-systools/coveo_systools/subprocess.py:161-168 | an argument that cannot be converted raises first when it comes first (no contract beyond that; `BuildCommandErrors` and `BuildCommandNoBlank` state the rest) |
| Subprocess.Collect | coveo-systools/coveo_systools/subprocess.py:163-165 | no contract of its own: the generator over the conversions; `BuildCommandErrors`, `BuildCommandNoBlank` and `BuildCommandAppend` state what it yields |
| Subprocess.CommandStr | coveo-systools/coveo_systools/subprocess.py:92-97 | a string command is returned as it is |
| Subprocess.CommandStrParts | coveo-systools/coveo_systools/subprocess.py:92-97 | arguments without spaces are joined with exactly one space between each two, and splitting at spaces gives them back |
| Subprocess.Decode | coveo-systools/coveo_systools/subprocess.py:118-127 | `None` exactly for `None`; the result starts and ends with non-whitespace, and text decodes to empty exactly when it is blank |
| Subprocess.DecodeStripped | coveo-systools/coveo_systools/subprocess.py:118-127 | already stripped text is returned unchanged, so decoding twice is decoding once |
| Subprocess.DecodeDropsSurroundingSpace | coveo-systools/coveo_systools/subprocess.py:127 | whitespace around a stripped middle is removed and the middle is kept |
| PoetryApi.NewDependency | coveo-stew/coveo_stew/metadata/poetry_api.py:42-59 | the call fails exactly when binding the keywords to the parameters fails |
| PoetryApi.NewDependencyFields | coveo-stew/coveo_stew/metadata/poetry_api.py:42-63 | each attribute is its keyword or its default (`optional=False`, `version="*"`, the rest `None`), a string path becomes a `Path`, and `is_local` holds exactly when a path is given |
| PoetryApi.NewDependencyOk | coveo-stew/coveo_stew/metadata/poetry_api.py:42-51 | the call succeeds whenever only parameter names are given and `name` is one of them |
| PoetryApi.DependencyNames | coveo-stew/coveo_stew/metadata/poetry_api.py:42-51 | the seven parameters, in order, all annotated |
| PoetryApi.DependencyKeys | coveo-stew/coveo_stew/metadata/poetry_api.py:42-51 | the lookup keys of the seven parameter names (only `allow_prerelease` loses its underscore) |
| PoetryApi.LookupKeyLower | coveo-functools/coveo_functools/casing.py:103-106 | a lowercase name without separators is its own lookup key |
| PoetryApi.LookupKeyAllowPrerelease | coveo-functools/coveo_functools/casing.py:103-106 | `allow_prerelease` has lookup key `allowprerelease` |
| PoetryApi.DependencyLookupEntries | coveo-stew/coveo_stew/metadata/poetry_api.py:71 | in `flexfactory`'s lookup for `Dependency`, `name` and `version` are reached by their own spelling and a name only by its own key |
| PoetryApi.UniqueKey | coveo-functools/coveo_functools/casing.py:92-101 | a name whose lookup key no other name shares is what that key leads to |
| PoetryApi.LookupKeyFirst | coveo-functools/coveo_functools/casing.py:103-106 | a key that starts with a lowercase letter keeps it first |
| PoetryApi.FirstLetters | coveo-stew/coveo_stew/metadata/poetry_api.py:42-51 | the parameter names start with lowercase letters, and only `name` starts with `n` and only `version` with `v` |
| PoetryApi.TargetName | coveo-stew/coveo_stew/metadata/poetry_api.py:71 | a key is filed under `name` exactly when its lookup key is `name`, and anything filed is a parameter |
| PoetryApi.UnflexedOnly | coveo-functools/coveo_functools/casing.py:78-90 | a name reached only by keywords holding `v` gets `v` |
| PoetryApi.CleanKwargs | coveo-stew/coveo_stew/metadata/poetry_api.py:66-71 | keywords holding a `name` key become a dict that binds `name` and nothing but parameters |
| PoetryApi.PutOnly | coveo-stew/coveo_stew/metadata/poetry_api.py:70 | `d[key] = v` on distinct keys leaves exactly one entry under `key`, holding `v`, and adds no other key |
| PoetryApi.Factory | coveo-stew/coveo_stew/metadata/poetry_api.py:65-71 | a `cls` key raises `TypeError` for a second value of `flexfactory`'s first parameter |
| PoetryApi.FactoryOk | coveo-stew/coveo_stew/metadata/poetry_api.py:65-71 | `Dependency.factory` succeeds exactly when no key is `cls` and either `strip_extra` is absent or truthy or every other key spells a parameter; a failing call is the `TypeError` for unexpected keywords |
| PoetryApi.FactoryCall | coveo-stew/coveo_stew/metadata/poetry_api.py:71 | past the `cls` check, `factory` is the `Dependency` call on the unflexed keywords, `strip_extra` removed, with its error wrapped |
| PoetryApi.CallOkOn | coveo-functools/coveo_functools/casing.py:78-90 | keywords holding `name` give a successful `Dependency` call exactly when unknown keys are stripped or there are none; a failure is for unexpected keywords |
| PoetryApi.UnknownFails | coveo-functools/coveo_functools/casing.py:86-88 | an unknown key kept by a falsy `strip_extra` makes the call fail with unexpected keywords |
| PoetryApi.KnownRest | coveo-stew/coveo_stew/metadata/poetry_api.py:71 | removing `strip_extra` neither adds nor removes an unknown key |
| PoetryApi.HomepageUnknown | coveo-stew/coveo_stew/metadata/poetry_api.py:42-51 | `homepage` spells no parameter of `Dependency` |
| PoetryApi.FactoryRaisesUnknown | coveo-stew/coveo_stew/metadata/poetry_api.py:65-71 | a table with `strip_extra = false` and a `homepage` key raises |
| PoetryApi.FactoryStripsUnknown | coveo-stew/coveo_stew/metadata/poetry_api.py:65-71 | the same table with `strip_extra = true` builds a dependency |
| PoetryApi.FactoryRaisesCls | coveo-stew/coveo_stew/metadata/poetry_api.py:65-71 | a table with a `cls` key raises the `TypeError` for `cls` |
| PoetryApi.FactoryVersion | coveo-stew/coveo_stew/metadata/poetry_api.py:67-68 | a version string gives a non-local dependency on that version, named after its key, every other attribute defaulted |
| PoetryApi.VersionClean | coveo-stew/coveo_stew/metadata/poetry_api.py:67-71 | a version string gives exactly the keywords `name` and `version` |
| PoetryApi.FactoryTable | coveo-stew/coveo_stew/metadata/poetry_api.py:69-71 | a table that builds gives a dependency named after its key, whatever `name` entry it held, when no other key of the table spells `name` |
| PoetryApi.DependenciesFactory | coveo-stew/coveo_stew/metadata/poetry_api.py:109-117 | a missing section gives no dependencies; it raises exactly when some entry's `factory` raises, with those entries' errors; otherwise exactly the section's names, each built by `factory` from its entry |
| PoetryApi.Gathered | coveo-stew/coveo_stew/metadata/poetry_api.py:113-117 | a failure exactly when some result fails, with the error of every failing key; otherwise every key with its value |
| PoetryApi.Built | coveo-stew/coveo_stew/metadata/poetry_api.py:113-117 | `factory` applied to every entry, under the same key |
| PoetryApi.EntryOk | coveo-stew/coveo_stew/metadata/poetry_api.py:65-71 | an entry without `cls` and `strip_extra` never raises |
| PoetryApi.SectionOk | coveo-stew/coveo_stew/metadata/poetry_api.py:109-117 | a section whose tables give neither `cls` nor `strip_extra` never raises |
| PoetryApi.DependenciesNamed | coveo-stew/coveo_stew/metadata/poetry_api.py:109-117 | each dependency is built by `factory` from its own entry and named after its key |
| PoetryApi.SafeName | coveo-stew/coveo_stew/metadata/poetry_api.py:91 | same length; each `-` becomes `_`, every other character is kept |
| PoetryApi.SafeNameProperties | coveo-stew/coveo_stew/metadata/poetry_api.py:91 | the safe name has no `-`, a name without `-` is unchanged, and it is its own safe name |
| PoetryApi.NewPoetry | coveo-stew/coveo_stew/metadata/poetry_api.py:77-100 | raises exactly when a section does, the regular section first; otherwise the name and its safe name, and both dependency sections built by `dependencies_factory` |
| PoetryApi.AllDependenciesMerge | coveo-stew/coveo_stew/metadata/poetry_api.py:102-106 | every name of either section is present; a dev dependency wins over a regular one of the same name |
| PoetryApi.AllDependencies | coveo-stew/coveo_stew/metadata/poetry_api.py:102-106 | a name is present exactly when either section holds it |
| CiConfig.Call | coveo-stew/coveo_stew/ci/config.py:66 | the runner is built with the table's keywords, the extra keywords and `_pyproject`; a keyword given twice raises instead; a keyword `strip_extra` binds to `flexfactory`'s own parameter (default `True`) and does not reach the runner |
| CiConfig.FlexFactory | coveo-stew/coveo_stew/ci/config.py:60-66 | `None` and `false` give no runner, `true` gives the runner with only the extra keywords and `_pyproject`, a table passes its keywords on |
| CiConfig.CustomSteps | coveo-stew/coveo_stew/ci/config.py:51-58 | each custom runner becomes a generic runner step that also receives its own name |
| CiConfig.ContinuousIntegrationConfig.constructor | coveo-stew/coveo_stew/ci/config.py:21-35 | a new configuration holds no attribute |
| CiConfig.ContinuousIntegrationConfig.Init | coveo-stew/coveo_stew/ci/config.py:21-58 | the attributes assigned and the error raised are those of running the builtin steps, then the custom steps, from the initial attributes |
| CiConfig.RunAt | coveo-stew/coveo_stew/ci/config.py:37-58 | one step of the run: a custom name already taken raises, a failing factory raises, otherwise the runner is assigned and the run goes on |
| CiConfig.RunAppend | coveo-stew/coveo_stew/ci/config.py:37-58 | a run that completes can be followed by more steps; a run that raises stops there |
| CiConfig.Assigned | coveo-stew/coveo_stew/ci/config.py:37-48 | the attributes accepted steps assign, one per step, in order |
| CiConfig.BuiltinsAssign | coveo-stew/coveo_stew/ci/config.py:37-48 | builtin steps with accepted tables never raise and assign every runner in order |
| CiConfig.AcceptedStep | coveo-stew/coveo_stew/ci/config.py:37-58 | an accepted step, builtin or custom with a name not yet taken, assigns its runner and the run continues with the rest |
| CiConfig.BuiltinsRun | coveo-stew/coveo_stew/ci/config.py:37-48 | the six builtin runners never raise when their tables are accepted |
| CiConfig.BuiltinNames | coveo-stew/coveo_stew/ci/config.py:34-48 | they leave `_pyproject`, `disabled` and the six builtin runner attributes, in that order |
| CiConfig.FlagRunner | coveo-stew/coveo_stew/ci/config.py:62-65 | `true` gives the runner with only `_pyproject`; `false` gives none |
| CiConfig.DefaultsBuilt | coveo-stew/coveo_stew/ci/config.py:24-48 | with every keyword at its default, mypy, check_outdated and poetry_check runners are built |
| CiConfig.DefaultsNotBuilt | coveo-stew/coveo_stew/ci/config.py:24-48 | with every keyword at its default, pytest, offline_build and black are disabled |
| CiConfig.DefaultsAccepted | coveo-stew/coveo_stew/ci/config.py:24-30 | the default keywords are accepted |
| CiConfig.DefaultRunners | coveo-stew/coveo_stew/ci/config.py:21-58 | with every keyword at its default nothing is raised and the eight attributes hold exactly the default runners |
| CiConfig.DefaultSteps | coveo-stew/coveo_stew/ci/config.py:31 | there is no custom runner by default |
| CiConfig.CustomConflict | coveo-stew/coveo_stew/ci/config.py:51-55 | a first custom runner named like a builtin runner or a class attribute raises, after the builtins were assigned |
| CiConfig.CustomsRun | coveo-stew/coveo_stew/ci/config.py:51-58 | custom runners with new distinct names and accepted tables are all assigned, in order, without raising |
| CiConfig.SelectKey | coveo-stew/coveo_stew/ci/config.py:68-75 | every runner selected for a key has that key |
| CiConfig.RunnersSorted | coveo-stew/coveo_stew/ci/config.py:68-75 | every auto-fixing runner comes before every other runner |
| CiConfig.SelectCons | coveo-stew/coveo_stew/ci/config.py:68-75 | the first runner goes to exactly one of the two selections |
| CiConfig.RunnersPermutation | coveo-stew/coveo_stew/ci/config.py:68-75 | `runners` yields each runner instance exactly once |
| CiConfig.SelectSelect | coveo-stew/coveo_stew/ci/config.py:68-75 | selecting what was already selected keeps all of it for the same key and nothing for the other |
| CiConfig.RunnersStable | coveo-stew/coveo_stew/ci/config.py:75 | the sort is stable: the runners of each key keep the order they were assigned in |
| CiConfig.InstanceRunners | coveo-stew/coveo_stew/ci/config.py:70-72 | at most one runner per attribute, and every runner held by an attribute is among them |
| CiConfig.Runners | coveo-stew/coveo_stew/ci/config.py:68-75 | as many runners as the instance holds (the sort loses none; `RunnersPermutation` states it exactly) |
| CiConfig.Run | coveo-stew/coveo_stew/ci/config.py:37-58 | no contract of its own: the assignments of `__init__`, step by step; `RunAt`, `RunAppend` and `BuiltinsAssign` state what it does |
| CiConfig.NoneNotARunner | coveo-stew/coveo_stew/ci/config.py:70-72 | every runner yielded is an attribute holding a runner, so a disabled runner is never yielded |
| Ref.Parts | coveo-ref/coveo_ref/__init__.py:30-32 | the parts of the full name are the set names, none empty; with all three set they are module, symbol and attributes |
| Ref.AttributesSplit | coveo-ref/coveo_ref/__init__.py:34-40 | no names without attributes; otherwise dot-free names that join back to the attributes |
| Ref.LastAttributeAsWritten | coveo-ref/coveo_ref/__init__.py:47-59 | as written, `last_attribute` is set exactly when attributes are, and is a single character |
| Ref.LastAttribute | coveo-ref/coveo_ref/__init__.py:47-59 | as documented, the last attribute is set exactly when attributes are, and holds no dot |
| Ref.NestedAndLast | coveo-ref/coveo_ref/__init__.py:42-59 | the nested attributes followed by the last attribute make up the attributes again |
| Ref.LastAttributeCharacter | coveo-ref/coveo_ref/__init__.py:53-59 | for the documented example `MyClass.NestedClass.attribute` the code answers `"e"` where `"attribute"` is documented |
| Ref.LastAttributeDiffers | coveo-ref/coveo_ref/__init__.py:47-59 | the code and the documentation agree exactly when the last attribute name is one character long |
| Ref.WithModule | coveo-ref/coveo_ref/__init__.py:101-107 | the same symbol and attributes, in the other module |
| Ref.WithSymbol | coveo-ref/coveo_ref/__init__.py:109-115 | the same module and attributes, with the other symbol |
| Ref.WithAttributes | coveo-ref/coveo_ref/__init__.py:117-128 | the same module and symbol, with attributes set |
| Ref.WithAttributesSplit | coveo-ref/coveo_ref/__init__.py:117-128 | the new attributes read back as the kept nested attributes followed by the given names |
| Ref.WithAttributesReplacesLast | coveo-ref/coveo_ref/__init__.py:121-128 | keeping the nested attributes and giving one name replaces only the last attribute |
| Ref.FromQualifiers | coveo-ref/coveo_ref/__init__.py:204-227 | a `<` in any qualifier raises `CannotFindSymbol` (and only then); empty qualifiers give a module reference; the module is kept |
| Ref.JoinPlainNames | coveo-ref/coveo_ref/__init__.py:226 | plain names join to a non-empty name that holds a dot exactly when there are several |
| Ref.FromQualifiersShape | coveo-ref/coveo_ref/__init__.py:218-227 | the first qualifier is the symbol and the others, joined with dots, the attributes |
| Ref.FromQualifiersName | coveo-ref/coveo_ref/__init__.py:218-227 | read back, the symbol is the first qualifier and the attribute names are the other qualifiers |
| Ref.FromQualifiersFullName | coveo-ref/coveo_ref/__init__.py:30-32 | the full name of the reference is the module and the qualifiers joined with dots |
| Ref.FromQualifiersSplit | coveo-ref/coveo_ref/__init__.py:30-32 | that full name splits back into the module and the qualifiers |
| Ref.PatchObject | coveo-ref/coveo_ref/__init__.py:366-396 | with `obj=True`: no attributes raises, a missing or class context raises unless bypassed, otherwise the context (default `__self__`) and the attributes are returned |
| Ref.ModuleLevelNotPatchable | coveo-ref/coveo_ref/__init__.py:220-222 | a function defined at module level has no attributes, so it can never be patched on an object |
| Ref.FullyQualifiedName | coveo-ref/coveo_ref/__init__.py:30-32 | the module name, when set, comes first; the name is empty exactly when no part is set |
| Ref.NestedAttributes | coveo-ref/coveo_ref/__init__.py:42-45 | all attribute names but the last, in order, none holding a dot; none without attributes |
| ArnParse.MatchBody | coveo-arnparse/coveo_arnparse/__init__.py:13-24 | a match needs the `arn:` prefix and no newline, since `.` never matches one |
| ArnParse.ArnParseAsWritten | coveo-arnparse/coveo_arnparse/__init__.py:88-92 | a parsed text starts with `arn:` and holds no newline before its last character; it parses exactly when the text without one final newline parses under the anchored pattern, to the same fields; a refused one raises `"<arn> cannot be parsed."` |
| ArnParse.ArnParse | coveo-arnparse/coveo_arnparse/__init__.py:13-24 | the corrected parser, the pattern anchored at the very end: a parsed text starts with `arn:` and holds no newline; a refused one raises `"<arn> cannot be parsed."` |
| ArnParse.ParsePrint | coveo-arnparse/coveo_arnparse/__init__.py:70-74 | printing a parsed ARN gives back exactly the text it came from |
| ArnParse.ToStringFields | coveo-arnparse/coveo_arnparse/__init__.py:70-74 | the printed ARN is `arn:` followed by the five fields joined with `:` |
| ArnParse.PrintParse | coveo-arnparse/coveo_arnparse/__init__.py:13-24 | an ARN whose first four fields hold no `:` and whose fields hold no newline parses back to itself |
| ArnParse.AsWrittenAgrees | coveo-arnparse/coveo_arnparse/__init__.py:13-24 | the pattern as written and the fully anchored one agree on every text that does not end with a newline |
| ArnParse.AsWrittenTrailingNewline | coveo-arnparse/coveo_arnparse/__init__.py:21 | as written, a printed ARN followed by a newline is accepted, the newline is lost and printing does not give the input back; the anchored parser refuses it |
| ArnParse.ResourceKeepsColons | coveo-arnparse/coveo_arnparse/__init__.py:16-20 | the lazy groups stop at the first four colons: the resource keeps every later colon, and empty fields are accepted |
| ArnParse.FirstSplit | coveo-arnparse/coveo_arnparse/__init__.py:80 | the position found holds the first `:` or `/`; none is found only when the resource holds neither |
| ArnParse.SplitResource | coveo-arnparse/coveo_arnparse/__init__.py:77-85 | without a separator two empty strings; otherwise the parts around the first separator, the first part free of separators |
| ArnParse.ResourceParts | coveo-arnparse/coveo_arnparse/__init__.py:40-68 | `resource_type`, the separator and `resource_id` give the resource back; without a separator both are empty |
| ArnParse.SplitOnce | coveo-arnparse/coveo_arnparse/__init__.py:84 | only the first separator splits: the id keeps any later `:` or `/` |
| ArnParse.ToString | coveo-arnparse/coveo_arnparse/__init__.py:70-74 | the printed ARN starts with `arn:` |
| ArnParse.ResourceType | coveo-arnparse/coveo_arnparse/__init__.py:40-53 | a prefix of the resource holding no `:` or `/` |
| ArnParse.ResourceId | coveo-arnparse/coveo_arnparse/__init__.py:55-68 | empty, or a proper suffix of the resource |

## Left out

- Process, file and network I/O are not modelled. This covers `check_run`, `check_call`, `check_output`, the quoted (`shlex`) path of `_build_command` and the TOML read and write in `pydev.py`. The process environment, the published versions and the constants of `TestId` (host, pid, timestamp, executor) are parameters instead.
- `obtain_versions_from_pypi` is HTTP. Its newest-first result is an input to `Pypi`.
- StrictVersion's own parsing and ordering are not part of this model. Versions are parsed records, ordered by their numbers and then by prerelease, as distutils documents.
- `wait.until` (clock and sleep) is not modelled.
- The random part of the backoff jitter is a parameter `draw` in `[0, 1)`.
- Floats are left out: `FloatSetting`, `__float__` and the `str()` of floats. The only reals are the `Backoff` waits.
- `Setting.__iter__`, `__contains__`, `is_valid` and `get_if_set` are not modelled. Neither are `mock_config_value`, `PathSetting` and `AnySetting`.
- The `json.loads` of `DictSetting` is a parameter.
- The threading lock around the `TestId` counters is not modelled.
- The import, `getattr` and `__dict__` lookups of `coveo_ref` are not modelled: `import_*`, `from_any`, `from_property`, `_translate_reference_to_another_module` and the mock detection. `PatchObject` starts from a resolved reference.
- `import_type`, the `hint` stub and the unfinished `serialize` of `serializer.py` are not modelled.
- `_dev_dependencies_of_dependencies` and `pull_and_write_dev_requirements` in `pydev.py` walk files and are not modelled.
- The stew CI runners themselves are not modelled. A runner is its class and its keyword arguments.
- FlexDeserializer.Deserialize carries a `fuel` bound on how many times one chain of calls may let a subclass adapter replace the hint. A registry whose adapters keep replacing hints past that bound gives `RecursionLimit`, which Python would reach only as a `RecursionError`.
- Serializer.FromAnnotations treats the typing special forms (`Union`, `Literal`, a bare `InitVar`) as having no class name.
- Python `int()` is modelled for an optional sign followed by decimal digits. Whitespace and underscores are not modelled.
- Strings are sequences of characters. Case folding covers ASCII letters only.
- PyEq: an instance equals another when class and attributes are equal, as for dataclasses. Object identity and user-defined `__eq__` methods are not modelled.
- Versions.StrictVersionHelper.Copy: `__copy__` prints the version and parses the text again. For a state that is not a parsed version (a stage set to `""`, or to `a1`), the model reports failure, while the text can parse into a different version (`1.2.3a1` with stage `""` prints `1.2.31`). StrictVersion's printing and parsing are not part of this model.
- ConfigValues.ReprOf: the quote `repr()` chooses (single unless the text holds one and no double quote) and its escaping of quotes, backslashes and control characters are not modelled; a string is shown between single quotes as is.
- PyValues.Hashable: every instance counts as hashable. A class that sets `__hash__` to `None`, such as a dataclass with `eq=True` and not frozen, is not told apart: its instances count as hashable where Python's `hash()` raises `TypeError`.
- PoetryApi.DependenciesFactory: when several entries raise, the model gives every failing entry with its error; Python raises only the first, in section order, which depends on the TOML table order that a map does not keep.
- Text encoding is not modelled: the UTF-8 decoder that `_decode` uses is a parameter of `Subprocess.Decode`.

## Findings

| source | as written | input that shows it | evidently intended | confidence | as-written member | corrected member |
|---|---|---|---|---|---|---|
| coveo-functools/coveo_functools/flex/serializer.py:44 | a field's metadata is recorded when the outer instance's class is not the field's annotation | an `A` with `b: B` holding a `B` and `a: A` holding a subclass `C`: `b` is recorded, `a` is not | record a field when its value's runtime class differs from its annotation | medium, not executed | Serializer.AsWrittenRecordsByOuterClass | Serializer.IntendedRecordsByValueClass |
| coveo-arnparse/coveo_arnparse/__init__.py:21 | `$` also matches before a final newline, so that newline is accepted and dropped | `arnparse("arn:a:b:c:d:e\n")` gives an ARN that prints as `arn:a:b:c:d:e` | the pattern matches the whole text, so printing a parsed ARN gives the input back | high, not executed | ArnParse.AsWrittenTrailingNewline | ArnParse.ParsePrint |
| coveo-ref/coveo_ref/__init__.py:59 | `last_attribute` returns the last character of the attributes | attributes `NestedClass.attribute` give `"e"` | the last dotted name, `"attribute"`, as the docstring says | high, not executed | Ref.LastAttributeCharacter | Ref.NestedAndLast |
| coveo-itertools/coveo_itertools/lookups.py:29-31 | with a default, an `IndexError` or `TypeError` at the first level raises `KeyError`, while the same failure one level deeper returns the default | `dict_lookup([], 0, default=5)` raises `KeyError` | return the default whenever one is given and the path does not exist | medium, not executed | Lookups.DefaultIgnoredOnFirstIndex | Lookups.IntendedDefault |

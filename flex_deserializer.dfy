/**
 * `deserialize(value, hint=...)`: loosely typed payloads (JSON-like dicts,
 * lists and scalars) turned into the types a hint asks for. Custom classes
 * are built from dicts whose keys are matched to the constructor's
 * annotated parameters case- and separator-insensitively; enums are found
 * by value, by name or by a forgiving comparison; anything that does not
 * fit is returned as it came.
 */
module FlexDeserializer {
  import opened Wrappers
  import opened Text
  import opened PyValues
  import opened Hints
  import opened FlexTypes
  import opened FlexHelpers
  import opened Casing

  /**
   * What `deserialize` reads besides its arguments: the classes and enums
   * hints refer to, and the global registry of subclass adapters (each
   * adapter maps the raw payload to the hint to use instead).
   */
  datatype Env = Env(table: ClassTable, adapters: map<Hint, Value -> Hint>)

  /** `_is_array_like`: iterable, but neither a string, bytes nor a mapping. */
  predicate IsArrayLike(v: Value)
  {
    v.VList?
  }

  /** `_flex_translate`: casefolded, then `_`, `-`, `.` and space removed. */
  function FlexTranslate(s: string): string
  {
    Translate(Lower(s))
  }

  /** The enum comparison key and the keyword lookup key are the same normalisation. */
  lemma FlexTranslateIsLookupKey(s: string)
    ensures FlexTranslate(s) == LookupKey(s)
  {
    TranslateLower(s);
  }

  // ------------------------------------------------------------ enums

  /** Index of the first member whose value equals `v`. */
  function FindValue(members: seq<(string, Value)>, v: Value): (r: Option<nat>)
    ensures r.Some? ==> r.value < |members| && PyEq(members[r.value].1, v)
    ensures r.Some? ==> forall j :: 0 <= j < r.value ==> !PyEq(members[j].1, v)
    ensures r.None? ==> forall j :: 0 <= j < |members| ==> !PyEq(members[j].1, v)
    decreases |members|
  {
    if |members| == 0 then None
    else if PyEq(members[0].1, v) then Some(0)
    else
      var rest := FindValue(members[1..], v);
      if rest.Some? then Some(rest.value + 1) else None
  }

  /** Index of the first member called `name`. */
  function FindName(members: seq<(string, Value)>, name: string): (r: Option<nat>)
    ensures r.Some? ==> r.value < |members| && members[r.value].0 == name
    ensures r.Some? ==> forall j :: 0 <= j < r.value ==> members[j].0 != name
    ensures r.None? ==> forall j :: 0 <= j < |members| ==> members[j].0 != name
    decreases |members|
  {
    if |members| == 0 then None
    else if members[0].0 == name then Some(0)
    else
      var rest := FindName(members[1..], name);
      if rest.Some? then Some(rest.value + 1) else None
  }

  /** A member that is not an alias: no earlier member has an equal value. */
  predicate IsCanonical(members: seq<(string, Value)>, j: nat)
    requires j < |members|
  {
    forall i :: 0 <= i < j ==> !PyEq(members[i].1, members[j].1)
  }

  /** The member an alias stands for: the first one with an equal value. */
  function Canonical(members: seq<(string, Value)>, j: nat): (c: nat)
    requires j < |members|
    ensures c <= j && IsCanonical(members, c) && PyEq(members[c].1, members[j].1)
  {
    var r := FindValue(members, members[j].1);
    PyEqReflexive(members[j].1);
    var c := r.value;
    assert IsCanonical(members, c) by {
      forall i | 0 <= i < c ensures !PyEq(members[i].1, members[c].1) {
        PyEqSymmetricTransitive(members[i].1, members[c].1, members[j].1);
      }
    }
    c
  }

  /** The forgiving enum comparison: a string value or the name, each normalised. */
  predicate FuzzyMatches(member: (string, Value), key: string)
  {
    (member.1.VStr? && FlexTranslate(member.1.s) == key) || FlexTranslate(member.0) == key
  }

  /** First canonical member, from index `i` on, that fuzzily matches `key`: iterating an enum skips aliases. */
  function FindFuzzy(members: seq<(string, Value)>, key: string, i: nat): (r: Option<nat>)
    requires i <= |members|
    ensures r.Some? ==> i <= r.value < |members| && IsCanonical(members, r.value) && FuzzyMatches(members[r.value], key)
    ensures r.Some? ==> forall j :: i <= j < r.value ==> !(IsCanonical(members, j) && FuzzyMatches(members[j], key))
    ensures r.None? ==> forall j :: i <= j < |members| ==> !(IsCanonical(members, j) && FuzzyMatches(members[j], key))
    decreases |members| - i
  {
    if i == |members| then None
    else if IsCanonical(members, i) && FuzzyMatches(members[i], key) then Some(i)
    else FindFuzzy(members, key, i + 1)
  }

  /** The `for enum_item in hint` loop of `_deserialize_enum`. */
  method FuzzyScan(members: seq<(string, Value)>, key: string) returns (r: Option<nat>)
    ensures r == FindFuzzy(members, key, 0)
  {
    for i := 0 to |members|
      invariant FindFuzzy(members, key, i) == FindFuzzy(members, key, 0)
    {
      var canonical := CanonicalScan(members, i);
      if canonical && FuzzyMatches(members[i], key) {
        return Some(i);
      }
    }
    return None;
  }

  /** Iterating an enum skips aliases: member `i` is visited unless an earlier member has an equal value. */
  method CanonicalScan(members: seq<(string, Value)>, i: nat) returns (canonical: bool)
    requires i < |members|
    ensures canonical == IsCanonical(members, i)
  {
    canonical := true;
    for k := 0 to i
      invariant canonical <==> forall j :: 0 <= j < k ==> !PyEq(members[j].1, members[i].1)
    {
      if PyEq(members[k].1, members[i].1) {
        canonical := false;
      }
    }
  }

  /** Names of the members an enum iterates over, in definition order. */
  function CanonicalNames(members: seq<(string, Value)>): (names: seq<string>)
    ensures forall j :: 0 <= j < |members| && IsCanonical(members, j) ==> members[j].0 in names
    ensures forall n :: n in names ==> exists j :: 0 <= j < |members| && IsCanonical(members, j) && members[j].0 == n
  {
    CanonicalNamesFrom(members, 0)
  }

  function CanonicalNamesFrom(members: seq<(string, Value)>, i: nat): (names: seq<string>)
    requires i <= |members|
    ensures forall j :: i <= j < |members| && IsCanonical(members, j) ==> members[j].0 in names
    ensures forall n :: n in names ==> exists j :: i <= j < |members| && IsCanonical(members, j) && members[j].0 == n
    decreases |members| - i
  {
    if i == |members| then []
    else if IsCanonical(members, i) then [members[i].0] + CanonicalNamesFrom(members, i + 1)
    else CanonicalNamesFrom(members, i + 1)
  }

  /**
   * `_deserialize_enum`: `hint(value)` (a value match), then `hint[value]`
   * (a name match, which raises `TypeError` for an unhashable value), then
   * the forgiving string comparison; otherwise the raw value.
   */
  function DeserializeEnum(v: Value, enumName: string, members: seq<(string, Value)>): (r: Result<Value, FlexError>)
    ensures r.Err? <==> FindValue(members, v).None? && !Hashable(v)
    ensures r.Ok? && r.value != v ==> r.value.VEnum? && r.value.enumName == enumName && r.value.member in CanonicalNames(members)
  {
    match FindValue(members, v)
    case Some(i) =>
      assert IsCanonical(members, i) by {
        forall j | 0 <= j < i ensures !PyEq(members[j].1, members[i].1) {
          PyEqSymmetricTransitive(members[j].1, members[i].1, v);
        }
      }
      Ok(VEnum(enumName, members[i].0))
    case None =>
      if !Hashable(v) then Err(TypeError)
      else if v.VStr? && FindName(members, v.s).Some? then
        Ok(VEnum(enumName, members[Canonical(members, FindName(members, v.s).value)].0))
      else if v.VStr? then
        match FindFuzzy(members, FlexTranslate(v.s), 0)
        case Some(j) => Ok(VEnum(enumName, members[j].0))
        case None => Ok(v)
      else Ok(v)
  }

  /** Python equality is an equivalence on the modelled values. */
  lemma PyEqSymmetricTransitive(a: Value, b: Value, c: Value)
    ensures PyEq(a, b) ==> PyEq(b, a)
    ensures PyEq(a, b) && PyEq(b, c) ==> PyEq(a, c)
    ensures !PyEq(a, c) && PyEq(b, c) ==> !PyEq(a, b)
  {
    if PyEq(a, b) {
      PyEqSymmetric(a, b);
      if PyEq(b, c) {
        PyEqTransitive(a, b, c);
      }
    }
  }

  /** `hint([True])` finds a member whose value is `[1]`: list items compare as Python compares them. */
  lemma EnumListValueFound()
    ensures FindValue([("ONE", VList([VInt(1)]))], VList([VBool(true)])) == Some(0)
  {
    assert PyEq(VList([VInt(1)]), VList([VBool(true)])) by {
      assert [VInt(1)][0] == VInt(1) && [VBool(true)][0] == VBool(true);
    }
  }

  /** A member whose value is a dict is found from the same dict written in another order. */
  lemma EnumDictValueFound()
    ensures var value := VDict([("a", VInt(1)), ("b", VInt(2))]);
            FindValue([("AB", value)], VDict([("b", VInt(2)), ("a", VBool(true))])) == Some(0)
  {
    var es := [("a", VInt(1)), ("b", VInt(2))];
    var fs := [("b", VInt(2)), ("a", VBool(true))];
    assert KeySet(es) == {"a", "b"} by {
      assert es[0].0 == "a" && es[1].0 == "b";
    }
    assert KeySet(fs) == {"a", "b"} by {
      assert fs[0].0 == "b" && fs[1].0 == "a";
    }
    assert PyEq(VDict(es), VDict(fs));
  }

  // ------------------------------------------------------------ deserialize

  /**
   * `deserialize(value, hint=h)`. `fuel` bounds how many times along one
   * chain of calls a subclass adapter may replace the hint.
   */
  function Deserialize(v: Value, h: Hint, env: Env, fuel: nat): Result<Value, FlexError>
    decreases v, fuel, HintSize(h) + 2, 2
  {
    if v.VNone? then Ok(VNone)
    else if !HashableHint(h) then Err(TypeError)
    else if h in env.adapters then
      if fuel == 0 then Err(RecursionLimit)
      else DeserializeHint(v, env.adapters[h](v), env, fuel - 1)
    else DeserializeHint(v, h, env, fuel)
  }

  /** `deserialize` once the adapter has had its say: an abstract class is refused, anything else goes on to `Dispatch`. */
  function DeserializeHint(v: Value, h: Hint, env: Env, fuel: nat): Result<Value, FlexError>
    decreases v, fuel, HintSize(h) + 2, 1
  {
    if IsAbstract(h, env.table) then Err(UnsupportedAnnotation) else Dispatch(v, h, env, fuel)
  }

  /** The rest of `deserialize`: `_resolve_hint`, then the dispatch on the origin. */
  function Dispatch(v: Value, h: Hint, env: Env, fuel: nat): Result<Value, FlexError>
    decreases v, fuel, HintSize(h) + 2, 0
  {
    match ResolveHintPlain(h)
    case Err(e) => Err(e)
    case Ok(Resolved(origin, args)) =>
      var target := if |args| > 0 then args[0] else AnyHint;
      if origin == UnionForm && AllPassthrough(args) then Ok(v)
      else if origin == UnionForm && |args| == 1 then Deserialize(v, args[0], env, fuel)
      else if origin == UnionForm && |args| == 2 then
        if IsArrayLike(v) then Deserialize(v, ListOf(target), env, fuel)
        else Deserialize(v, target, env, fuel)
      else if origin == BareList then DeserializeList(v, target, env, fuel)
      else if origin == BareDict then DeserializeDict(v, if |args| >= 2 then args[1] else AnyHint, env, fuel)
      else if !HashableHint(origin) then Err(TypeError)
      else if IsPassthroughType(origin) then Ok(v)
      else if IsClass(origin) && IsInstance(v, origin) then Ok(v)
      else Fallback(v, origin, env, fuel)
  }

  /** `_deserialize_list`: an array-like value is converted item by item, anything else is returned as is. */
  function DeserializeList(v: Value, contains: Hint, env: Env, fuel: nat): Result<Value, FlexError>
    decreases v, fuel, 2, 0
  {
    if IsArrayLike(v) then
      match DeserializeItems(v, 0, contains, env, fuel)
      case Err(e) => Err(e)
      case Ok(items) => Ok(VList(items))
    else Ok(v)
  }

  /** The list comprehension of `_deserialize_list`, from item `i` on; the first failure propagates. */
  function DeserializeItems(v: Value, i: nat, contains: Hint, env: Env, fuel: nat): Result<seq<Value>, FlexError>
    requires v.VList? && i <= |v.items|
    decreases v, fuel, 1, |v.items| - i
  {
    if i == |v.items| then Ok([])
    else
      match Deserialize(v.items[i], contains, env, fuel)
      case Err(e) => Err(e)
      case Ok(x) =>
        match DeserializeItems(v, i + 1, contains, env, fuel)
        case Err(e) => Err(e)
        case Ok(rest) => Ok([x] + rest)
  }

  /** `_deserialize_dict`: a mapping keeps its keys and has each value converted with `contains or Any`. */
  function DeserializeDict(v: Value, contains: Hint, env: Env, fuel: nat): Result<Value, FlexError>
    decreases v, fuel, 2, 0
  {
    if v.VDict? then
      var hint := if contains.Obj? && !Truthy(contains.v) then AnyHint else contains;
      match DeserializeEntries(v, 0, hint, env, fuel)
      case Err(e) => Err(e)
      case Ok(entries) => Ok(VDict(entries))
    else Ok(v)
  }

  /** The dict comprehension of `_deserialize_dict`, from entry `i` on. */
  function DeserializeEntries(v: Value, i: nat, hint: Hint, env: Env, fuel: nat): Result<seq<(string, Value)>, FlexError>
    requires v.VDict? && i <= |v.entries|
    decreases v, fuel, 1, |v.entries| - i
  {
    if i == |v.entries| then Ok([])
    else
      assert v.entries[i] in v.entries;
      match Deserialize(v.entries[i].1, hint, env, fuel)
      case Err(e) => Err(e)
      case Ok(x) =>
        match DeserializeEntries(v, i + 1, hint, env, fuel)
        case Err(e) => Err(e)
        case Ok(rest) => Ok([(v.entries[i].0, x)] + rest)
  }

  /** The `__init__` of `dataclasses.InitVar`: one required parameter, not annotated. */
  const InitVarParams: seq<Param> := [Param("type", None, None)]

  /**
   * The `_deserialize` dispatch for every other origin: enums go to
   * `_deserialize_enum`, a class given a dict is constructed, and
   * everything else is returned as is.
   */
  function Fallback(v: Value, origin: Hint, env: Env, fuel: nat): Result<Value, FlexError>
    decreases v, fuel, 2, 0
  {
    match origin
    case Cls(name) =>
      (match Lookup(env.table, name)
       case EnumDef(_, members) => DeserializeEnum(v, name, members)
       case ClassDef(_, params, _) => if v.VDict? then Construct(v, name, params, env, fuel) else Ok(v))
    case BareInitVar => if v.VDict? then Construct(v, "InitVar", InitVarParams, env, fuel) else Ok(v)
    case Obj(x) => if x.VEnum? then Err(TypeError) else Ok(v)
    case _ => Ok(v)
  }

  /** `hint(**prepare_payload_for_unpacking(hint.__init__, value))`. */
  function Construct(v: Value, cls: string, params: seq<Param>, env: Env, fuel: nat): Result<Value, FlexError>
    requires v.VDict?
    decreases v, fuel, 1, 0
  {
    match PreparePayload(v, params, 0, map[], env, fuel)
    case Err(e) => Err(e)
    case Ok(kwargs) =>
      match Instantiate(cls, params, kwargs)
      case Err(ce) => Err(CallFailed(ce))
      case Ok(obj) => Ok(obj)
  }

  /**
   * `prepare_payload_for_unpacking`, from parameter `i` on, with the
   * converted keywords gathered so far in `acc`: each annotated parameter
   * that the payload reaches (after key mapping) is deserialized with its
   * annotation.
   */
  function PreparePayload(v: Value, params: seq<Param>, i: nat, acc: map<string, Value>, env: Env, fuel: nat)
    : Result<map<string, Value>, FlexError>
    requires v.VDict? && i <= |params|
    decreases v, fuel, 0, |params| - i
  {
    if i == |params| then Ok(acc)
    else
      var mapped := UnflexCall(params, v.entries, true);
      var p := params[i];
      if p.annotation.Some? && p.name in mapped then
        UnflexedValues(CreateLookup(AnnotatedNames(params)), v.entries, true, p.name);
        var j :| 0 <= j < |v.entries| && mapped[p.name] == v.entries[j].1;
        assert v.entries[j] in v.entries;
        match Deserialize(mapped[p.name], p.annotation.value, env, fuel)
        case Err(e) => Err(e)
        case Ok(x) => PreparePayload(v, params, i + 1, acc[p.name := x], env, fuel)
      else PreparePayload(v, params, i + 1, acc, env, fuel)
  }

  /** The loop of `prepare_payload_for_unpacking`. */
  method PreparePayloadLoop(v: Value, params: seq<Param>, env: Env, fuel: nat) returns (r: Result<map<string, Value>, FlexError>)
    requires v.VDict?
    ensures r == PreparePayload(v, params, 0, map[], env, fuel)
  {
    var mapped := Unflex(CreateLookup(AnnotatedNames(params)), v.entries, true);
    var converted: map<string, Value> := map[];
    var i := 0;
    while i < |params|
      invariant 0 <= i <= |params|
      invariant PreparePayload(v, params, i, converted, env, fuel) == PreparePayload(v, params, 0, map[], env, fuel)
    {
      var p := params[i];
      if p.annotation.Some? && p.name in mapped {
        var x := Deserialize(mapped[p.name], p.annotation.value, env, fuel);
        if x.Err? {
          return Err(x.error);
        }
        converted := converted[p.name := x.value];
      }
      i := i + 1;
    }
    return Ok(converted);
  }
}

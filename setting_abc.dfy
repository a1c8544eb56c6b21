/**
 * `coveo_settings.setting_abc`: environment lookup with normalised names,
 * and the `Setting` object with its override, fallback, validation cache
 * and error-raising accessors. The process environment is a parameter.
 */
module SettingAbc {
  import opened Wrappers
  import opened Text
  import opened ConfigValues
  import BoolSetting
  import IntSetting
  import StringSetting
  import opened Validation

  datatype SettingError =
    | InvalidConfiguration(message: string)
    | TypeConversionConfigurationError(message: string)
    | ValidationConfigurationError(message: string)
    | ValidationCallbackError(message: string)
    | MandatoryConfigurationError(message: string)
    | ConversionError            // `int(...)` of a value that has no integer form

  // ------------------------------------------------------------ _find_setting

  const Separators: string := "._"

  /** `_normalize`: separators dropped, every other character lowercased. */
  function Normalize(key: string): (r: string)
    ensures |r| <= |key|
    ensures forall i :: 0 <= i < |r| ==> r[i] !in Separators && LowerChar(r[i]) == r[i]
    decreases |key|
  {
    if |key| == 0 then ""
    else (if key[0] in Separators then "" else [LowerChar(key[0])]) + Normalize(key[1..])
  }

  /** A name that is already lowercase and free of separators is its own normal form. */
  lemma {:induction false} NormalizeFixed(key: string)
    requires forall i :: 0 <= i < |key| ==> key[i] !in Separators && LowerChar(key[i]) == key[i]
    ensures Normalize(key) == key
    decreases |key|
  {
    if |key| > 0 {
      NormalizeFixed(key[1..]);
      assert [key[0]] + key[1..] == key;
    }
  }

  /** Normalising twice is normalising once. */
  lemma NormalizeIdempotent(key: string)
    ensures Normalize(Normalize(key)) == Normalize(key)
  {
    NormalizeFixed(Normalize(key));
  }

  /** Normalisation works character by character. */
  lemma {:induction false} NormalizeAppend(a: string, b: string)
    ensures Normalize(a + b) == Normalize(a) + Normalize(b)
    decreases |a|
  {
    if |a| > 0 {
      NormalizeAppend(a[1..], b);
      assert (a + b)[0] == a[0] && (a + b)[1..] == a[1..] + b;
      var head := if a[0] in Separators then "" else [LowerChar(a[0])];
      assert Normalize(a + b) == head + (Normalize(a[1..]) + Normalize(b));
    } else {
      assert a + b == b;
    }
  }

  /** A separator anywhere in a name is not significant. */
  lemma SeparatorIgnored(a: string, c: char, b: string)
    requires c in Separators
    ensures Normalize(a + [c] + b) == Normalize(a + b)
  {
    NormalizeAppend(a + [c], b);
    NormalizeAppend(a, [c]);
    NormalizeAppend(a, b);
    assert [c][1..] == "";
  }

  /** The case of a letter anywhere in a name is not significant. */
  lemma CaseIgnored(a: string, c: char, b: string)
    ensures Normalize(a + [c] + b) == Normalize(a + [LowerChar(c)] + b)
  {
    NormalizeAppend(a + [c], b);
    NormalizeAppend(a, [c]);
    NormalizeAppend(a + [LowerChar(c)], b);
    NormalizeAppend(a, [LowerChar(c)]);
    assert [c][1..] == "" && [LowerChar(c)][1..] == "";
  }

  /** `os.environ.get(name)`. */
  function EnvGet(env: Environ, name: string): (r: Option<string>)
    ensures r.None? <==> forall j :: 0 <= j < |env| ==> env[j].0 != name
    ensures r.Some? ==> exists j :: 0 <= j < |env| && env[j] == (name, r.value)
    decreases |env|
  {
    if |env| == 0 then None
    else if env[0].0 == name then Some(env[0].1)
    else
      var r := EnvGet(env[1..], name);
      assert forall j :: 1 <= j < |env| ==> env[j] == env[1..][j - 1];
      r
  }

  /** The value of the first variable, in iteration order, whose normalised name is `stripped`. */
  function NormalizedGet(env: Environ, stripped: string): (r: Option<string>)
    ensures r.None? <==> forall j :: 0 <= j < |env| ==> Normalize(env[j].0) != stripped
    ensures r.Some? ==> exists j :: 0 <= j < |env| && Normalize(env[j].0) == stripped && env[j].1 == r.value
                          && forall m :: 0 <= m < j ==> Normalize(env[m].0) != stripped
    decreases |env|
  {
    if |env| == 0 then None
    else if Normalize(env[0].0) == stripped then Some(env[0].1)
    else
      var r := NormalizedGet(env[1..], stripped);
      NormalizedGetStep(env, stripped, r);
      r
  }

  /** What the rest of the environment finds is what all of it finds, when the first variable does not match. */
  lemma NormalizedGetStep(env: Environ, stripped: string, r: Option<string>)
    requires |env| > 0 && Normalize(env[0].0) != stripped
    requires r.None? <==> forall j :: 0 <= j < |env[1..]| ==> Normalize(env[1..][j].0) != stripped
    requires r.Some? ==> exists j :: 0 <= j < |env[1..]| && Normalize(env[1..][j].0) == stripped && env[1..][j].1 == r.value
                           && forall m :: 0 <= m < j ==> Normalize(env[1..][m].0) != stripped
    ensures r.None? <==> forall j :: 0 <= j < |env| ==> Normalize(env[j].0) != stripped
    ensures r.Some? ==> exists j :: 0 <= j < |env| && Normalize(env[j].0) == stripped && env[j].1 == r.value
                          && forall m :: 0 <= m < j ==> Normalize(env[m].0) != stripped
  {
    assert forall j :: 1 <= j < |env| ==> env[j] == env[1..][j - 1];
    if r.Some? {
      var j :| 0 <= j < |env[1..]| && Normalize(env[1..][j].0) == stripped && env[1..][j].1 == r.value
               && forall m :: 0 <= m < j ==> Normalize(env[1..][m].0) != stripped;
      assert forall m :: 0 <= m < j + 1 ==> Normalize(env[m].0) != stripped;
    }
  }

  /** What one key finds: the exact name first, then any variable with the same normalised name. */
  function KeyMatch(env: Environ, key: string): (r: Option<string>)
    ensures EnvGet(env, key).Some? ==> r == EnvGet(env, key)
    ensures EnvGet(env, key).None? ==> r == NormalizedGet(env, Normalize(key))
  {
    if EnvGet(env, key).Some? then EnvGet(env, key) else NormalizedGet(env, Normalize(key))
  }

  /** The first key, in order, that finds something. */
  function FindIn(env: Environ, keys: seq<string>): (r: Option<string>)
    ensures r.None? <==> forall i :: 0 <= i < |keys| ==> KeyMatch(env, keys[i]).None?
    ensures r.Some? ==> exists i :: 0 <= i < |keys| && KeyMatch(env, keys[i]) == r
                          && forall m :: 0 <= m < i ==> KeyMatch(env, keys[m]).None?
    decreases |keys|
  {
    if |keys| == 0 then None
    else if KeyMatch(env, keys[0]).Some? then KeyMatch(env, keys[0])
    else
      var r := FindIn(env, keys[1..]);
      FindInStep(env, keys, r);
      r
  }

  /** What the rest of the keys find is what all of them find, when the first key finds nothing. */
  lemma FindInStep(env: Environ, keys: seq<string>, r: Option<string>)
    requires |keys| > 0 && KeyMatch(env, keys[0]).None?
    requires r.None? <==> forall i :: 0 <= i < |keys[1..]| ==> KeyMatch(env, keys[1..][i]).None?
    requires r.Some? ==> exists i :: 0 <= i < |keys[1..]| && KeyMatch(env, keys[1..][i]) == r
                           && forall m :: 0 <= m < i ==> KeyMatch(env, keys[1..][m]).None?
    ensures r.None? <==> forall i :: 0 <= i < |keys| ==> KeyMatch(env, keys[i]).None?
    ensures r.Some? ==> exists i :: 0 <= i < |keys| && KeyMatch(env, keys[i]) == r
                          && forall m :: 0 <= m < i ==> KeyMatch(env, keys[m]).None?
  {
    assert forall i :: 1 <= i < |keys| ==> keys[i] == keys[1..][i - 1];
    if r.Some? {
      var i :| 0 <= i < |keys[1..]| && KeyMatch(env, keys[1..][i]) == r
               && forall m :: 0 <= m < i ==> KeyMatch(env, keys[1..][m]).None?;
      assert forall m :: 0 <= m < i + 1 ==> KeyMatch(env, keys[m]).None?;
    }
  }

  /** `_find_setting(*keys)`. */
  function FindSetting(env: Environ, keys: seq<string>): (r: Result<Option<string>, SettingError>)
    ensures r.Err? <==> keys == []
    ensures r.Ok? ==> r.value == FindIn(env, keys)
  {
    if keys == [] then Err(InvalidConfiguration("Key should not be empty.")) else Ok(FindIn(env, keys))
  }

  /** The main key's exact variable wins over everything else. */
  lemma ExactMainKeyWins(env: Environ, keys: seq<string>, value: string)
    requires |keys| > 0 && EnvGet(env, keys[0]) == Some(value)
    ensures FindSetting(env, keys) == Ok(Some(value))
  {
  }

  /** A later key is consulted only when no earlier key finds anything, exactly or normalised. */
  lemma {:induction false} LaterKeyOnlyAsFallback(env: Environ, keys: seq<string>, i: nat)
    requires i < |keys| && KeyMatch(env, keys[i]).Some?
    requires forall m :: 0 <= m < i ==> EnvGet(env, keys[m]).None? && NormalizedGet(env, Normalize(keys[m])).None?
    ensures FindSetting(env, keys) == Ok(KeyMatch(env, keys[i]))
  {
    var r := FindIn(env, keys);
    var k :| 0 <= k < |keys| && KeyMatch(env, keys[k]) == r && forall m :: 0 <= m < k ==> KeyMatch(env, keys[m]).None?;
  }

  /** `_find_setting` as the source writes it: a loop over the keys and, per key, a scan of the environment. */
  method FindSettingLoop(env: Environ, keys: seq<string>) returns (r: Result<Option<string>, SettingError>)
    ensures r == FindSetting(env, keys)
  {
    if |keys| == 0 {
      return Err(InvalidConfiguration("Key should not be empty."));
    }
    for i := 0 to |keys|
      invariant forall m :: 0 <= m < i ==> KeyMatch(env, keys[m]).None?
    {
      var returnValue := EnvGet(env, keys[i]);
      if returnValue.None? {
        var found := ScanNormalized(env, Normalize(keys[i]));
        if found.Some? {
          LaterKeyOnlyAsFallback(env, keys, i);
          return Ok(found);
        }
      } else {
        LaterKeyOnlyAsFallback(env, keys, i);
        return Ok(returnValue);
      }
    }
    return Ok(None);
  }

  /** The inner loop of `_find_setting`: the environment scanned for a variable whose normalised name is `stripped`. */
  method ScanNormalized(env: Environ, stripped: string) returns (found: Option<string>)
    ensures found == NormalizedGet(env, stripped)
  {
    for j := 0 to |env|
      invariant forall m :: 0 <= m < j ==> Normalize(env[m].0) != stripped
    {
      if Normalize(env[j].0) == stripped {
        FirstNormalized(env, stripped, j);
        return Some(env[j].1);
      }
    }
    return None;
  }

  /** The first position whose normalised name matches determines what `NormalizedGet` finds. */
  lemma FirstNormalized(env: Environ, stripped: string, j: nat)
    requires j < |env| && Normalize(env[j].0) == stripped
    requires forall m :: 0 <= m < j ==> Normalize(env[m].0) != stripped
    ensures NormalizedGet(env, stripped) == Some(env[j].1)
  {
    var r := NormalizedGet(env, stripped);
    var k :| 0 <= k < |env| && Normalize(env[k].0) == stripped && env[k].1 == r.value
             && forall m :: 0 <= m < k ==> Normalize(env[m].0) != stripped;
    assert k == j;
  }

  // ------------------------------------------------------------ casting

  /** The concrete `Setting` subclass, which supplies `_cast`. */
  datatype Kind = BoolKind | IntKind | StringKind

  function ClassName(kind: Kind): string
  {
    match kind
    case BoolKind => "BoolSetting"
    case IntKind => "IntSetting"
    case StringKind => "StringSetting"
  }

  /** The values `_cast` of a kind can produce. */
  predicate OfKind(kind: Kind, v: ConfigValue)
  {
    match kind
    case BoolKind => v.CBool?
    case IntKind => v.CInt?
    case StringKind => v.CStr?
  }

  /** `_cast`; `None` stands for the `TypeError`/`ValueError` it raises. */
  function Cast(kind: Kind, v: ConfigValue): (r: Option<ConfigValue>)
    ensures r.Some? ==> OfKind(kind, r.value)
    ensures kind == BoolKind ==> (r.Some? <==> BoolSetting.Cast(v).Ok?)
    ensures kind == IntKind ==> (r.Some? <==> IntSetting.Cast(v).Ok?)
    ensures kind == StringKind ==> (r.Some? <==> StringSetting.Cast(v).Ok?)
  {
    match kind
    case BoolKind =>
      var c := BoolSetting.Cast(v);
      if c.Ok? then Some(CBool(c.value)) else None
    case IntKind =>
      var c := IntSetting.Cast(v);
      if c.Ok? then Some(CInt(c.value)) else None
    case StringKind =>
      var c := StringSetting.Cast(v);
      if c.Ok? then Some(CStr(c.value)) else None
  }

  /** A cast value casts to itself: a setting's value survives being fed back as an override or fallback. */
  lemma CastIdempotent(kind: Kind, v: ConfigValue)
    requires Cast(kind, v).Some?
    ensures Cast(kind, Cast(kind, v).value) == Cast(kind, v)
  {
    var c := Cast(kind, v).value;
    match kind
    case BoolKind => BoolSetting.CastBool(c.b);
    case IntKind => IntSetting.CastPrinted(c.i);
    case StringKind => StringSetting.CastString(c.s);
  }

  // ------------------------------------------------------------ validation and fallback

  /** What `__init__` accepts as `validation`. */
  datatype ValidationArg =
    | Callable(check: ConfigValue -> Option<string>)
    | StrArg(text: string)
    | Iterable(items: seq<ConfigValue>)
    | NotIterable

  /** `_no_validation`, the default. */
  const NoValidation: ValidationArg := Callable(_ => None)

  /** The resolved `_validation_callback`. */
  datatype Validator = Check(f: ConfigValue -> Option<string>) | Allowed(choices: InSequence)

  /** `_resolve_validation_callback`: callables are kept, strings refused, other iterables become `InSequence`. */
  function ResolveValidation(validation: ValidationArg): (r: Result<Validator, SettingError>)
    ensures r.Err? <==> validation.StrArg? || validation.NotIterable?
    ensures r.Err? ==> r.error == ValidationCallbackError("Unsupported validation callback type")
    ensures validation.Iterable? ==> r.Ok? && r.value.Allowed? && r.value.choices.condition == validation.items
  {
    match validation
    case Callable(f) => Ok(Check(f))
    case Iterable(items) => Ok(Allowed(InSequence(items)))
    case _ => Err(ValidationCallbackError("Unsupported validation callback type"))
  }

  /** `if error_message:` — the validator returned a non-empty message. */
  predicate Rejects(validator: Validator, v: ConfigValue)
  {
    var message := match validator
      case Check(f) => f(v)
      case Allowed(choices) => choices.Call(v);
    message.Some? && message.value != ""
  }

  /** An `InSequence` validator rejects exactly the values outside its sequence. */
  lemma AllowedRejects(items: seq<ConfigValue>, v: ConfigValue)
    ensures Rejects(Allowed(InSequence(items)), v) <==> forall i :: 0 <= i < |items| ==> !ConfigEq(v, items[i])
  {
    var m := InSequence(items).Call(v);
    if m.Some? {
      assert |m.value| >= |Preamble| > 0;
    }
  }

  /** `fallback`: absent, a plain value, or a callable evaluated on each read. */
  datatype Fallback = NoFallback | Constant(value: ConfigValue) | Computed(call: () -> Option<ConfigValue>)

  function FallbackValue(fallback: Fallback): Option<ConfigValue>
  {
    match fallback
    case NoFallback => None
    case Constant(v) => Some(v)
    case Computed(call) => call()
  }

  /** `_pretty_repr`: `None` shows as `<not-set>`, a sensitive value as `<sensitive>`. */
  function PrettyRepr(kind: Kind, key: string, sensitive: bool, value: Option<string>): (r: string)
    ensures value.None? ==> r == ClassName(kind) + "[" + key + "] = <not-set>"
    ensures value.Some? && sensitive ==> r == ClassName(kind) + "[" + key + "] = <sensitive>"
    ensures value.Some? && !sensitive ==> r == ClassName(kind) + "[" + key + "] = " + value.value
  {
    var valueStr := if value.None? then "<not-set>" else if sensitive then "<sensitive>" else value.value;
    ClassName(kind) + "[" + key + "] = " + valueStr
  }

  /** A sensitive setting prints the same whatever its value; a plain one shows the value. */
  lemma SensitiveHidden(kind: Kind, key: string, a: string, b: string)
    ensures PrettyRepr(kind, key, true, Some(a)) == PrettyRepr(kind, key, true, Some(b))
    ensures Occurs(a, PrettyRepr(kind, key, false, Some(a)))
  {
    var r := PrettyRepr(kind, key, false, Some(a));
    var prefix := ClassName(kind) + "[" + key + "] = ";
    assert r == prefix + a;
    assert a <= r[|prefix|..];
  }

  /** The error `__init__` raises: an unusable validation first, then a constant fallback that does not cast. */
  function InitError(kind: Kind, key: string, fallback: Fallback, sensitive: bool, validation: ValidationArg): (r: Option<SettingError>)
    ensures r.None? <==> ResolveValidation(validation).Ok? && (fallback.Constant? ==> Cast(kind, fallback.value).Some?)
    ensures r.Some? && ResolveValidation(validation).Ok? ==> r.value.TypeConversionConfigurationError?
  {
    match ResolveValidation(validation)
    case Err(e) => Some(e)
    case Ok(_) =>
      if fallback.Constant? && Cast(kind, fallback.value).None? then
        Some(TypeConversionConfigurationError(
          PrettyRepr(kind, key, sensitive, Some(StrOf(fallback.value))) + ": Conversion to desired type failed."))
      else None
  }

  // ------------------------------------------------------------ Setting

  class Setting {
    const kind: Kind
    const key: string
    const alternateKeys: seq<string>
    const fallback: Fallback
    const sensitive: bool
    const validator: Validator
    var override: Option<ConfigValue>
    var cacheValidated: Option<ConfigValue>
    var lastValue: Option<ConfigValue>

    /** The cached value is one the validator accepted, so skipping the validator for it changes nothing. */
    ghost predicate Valid()
      reads this
    {
      cacheValidated.Some? ==> !Rejects(validator, cacheValidated.value)
    }

    constructor (kind: Kind, key: string, fallback: Fallback, alternateKeys: seq<string>, sensitive: bool, validator: Validator)
      ensures this.kind == kind && this.key == key && this.fallback == fallback
      ensures this.alternateKeys == alternateKeys && this.sensitive == sensitive && this.validator == validator
      ensures override.None? && cacheValidated.None? && lastValue.None?
      ensures Valid()
    {
      this.kind := kind;
      this.key := key;
      this.alternateKeys := alternateKeys;
      this.fallback := fallback;
      this.sensitive := sensitive;
      this.validator := validator;
      override := None;
      cacheValidated := None;
      lastValue := None;
    }

    /** `Setting.__init__`: resolve the validation, then cast a constant fallback (never a callable one). */
    static method Create(kind: Kind, key: string, fallback: Fallback, alternateKeys: seq<string>, sensitive: bool,
                         validation: ValidationArg) returns (r: Result<Setting, SettingError>)
      ensures r.Err? <==> InitError(kind, key, fallback, sensitive, validation).Some?
      ensures r.Err? ==> r.error == InitError(kind, key, fallback, sensitive, validation).value
      ensures r.Ok? ==> fresh(r.value) && r.value.Valid()
                        && r.value.kind == kind && r.value.key == key && r.value.fallback == fallback
                        && r.value.alternateKeys == alternateKeys && r.value.sensitive == sensitive
                        && ResolveValidation(validation) == Ok(r.value.validator)
                        && r.value.override.None? && r.value.cacheValidated.None? && r.value.lastValue.None?
    {
      var resolved := ResolveValidation(validation);
      if resolved.Err? {
        return Err(resolved.error);
      }
      if fallback.Constant? && Cast(kind, fallback.value).None? {
        return Err(TypeConversionConfigurationError(
          PrettyRepr(kind, key, sensitive, Some(StrOf(fallback.value))) + ": Conversion to desired type failed."));
      }
      var s := new Setting(kind, key, fallback, alternateKeys, sensitive, resolved.value);
      return Ok(s);
    }

    /** The main key followed by the alternates. */
    function Keys(): (keys: seq<string>)
    {
      [key] + alternateKeys
    }

    /** The raw value when no override is set: the environment, then the fallback. */
    function Unoverridden(env: Environ): (r: Option<ConfigValue>)
      ensures FindIn(env, Keys()).Some? ==> r == Some(CStr(FindIn(env, Keys()).value))
      ensures FindIn(env, Keys()).None? ==> r == FallbackValue(fallback)
    {
      var found := FindIn(env, Keys());
      if found.Some? then Some(CStr(found.value)) else FallbackValue(fallback)
    }

    /** What `_get_value` returns: a non-None override wins, otherwise the environment, then the fallback. */
    function RawValue(env: Environ): (r: Option<ConfigValue>)
      reads this
      ensures override.Some? ==> r == override
      ensures override.None? ==> r == Unoverridden(env)
      ensures r.None? <==> override.None? && FindIn(env, Keys()).None? && FallbackValue(fallback).None?
    {
      if override.Some? then override else Unoverridden(env)
    }

    /** `_cast_or_raise`. */
    function CastOrRaise(v: ConfigValue): (r: Result<ConfigValue, SettingError>)
      ensures r.Ok? <==> Cast(kind, v).Some?
      ensures r.Ok? ==> r.value == Cast(kind, v).value && OfKind(kind, r.value)
      ensures r.Err? ==> r.error == TypeConversionConfigurationError(
                           PrettyRepr(kind, key, sensitive, Some(StrOf(v))) + ": Conversion to desired type failed.")
    {
      match Cast(kind, v)
      case Some(c) => Ok(c)
      case None => Err(TypeConversionConfigurationError(
                     PrettyRepr(kind, key, sensitive, Some(StrOf(v))) + ": Conversion to desired type failed."))
    }

    /** The outcome of validating a cast value, cache aside. */
    function Validated(v: ConfigValue): (r: Result<ConfigValue, SettingError>)
      ensures r.Ok? <==> !Rejects(validator, v)
      ensures r.Ok? ==> r.value == v
    {
      var message := match validator
        case Check(f) => f(v)
        case Allowed(choices) => choices.Call(v);
      if message.Some? && message.value != "" then
        Err(ValidationConfigurationError(PrettyRepr(kind, key, sensitive, Some(StrOf(v))) + ": " + message.value))
      else Ok(v)
    }

    /** `_cast_and_validate`, cache aside. */
    function Checked(v: ConfigValue): (r: Result<ConfigValue, SettingError>)
      ensures r.Ok? <==> Cast(kind, v).Some? && !Rejects(validator, Cast(kind, v).value)
      ensures r.Ok? ==> r.value == Cast(kind, v).value && OfKind(kind, r.value)
    {
      match CastOrRaise(v)
      case Err(e) => Err(e)
      case Ok(c) => Validated(c)
    }

    /** The `value` property: `None` when unset, otherwise the cast and validated raw value. */
    function ValueOf(env: Environ): (r: Result<Option<ConfigValue>, SettingError>)
      reads this
      ensures r == Ok(None) <==> RawValue(env).None?
      ensures r.Ok? && r.value.Some? ==> OfKind(kind, r.value.value) && !Rejects(validator, r.value.value)
      ensures RawValue(env).Some? ==> (r.Ok? <==> Checked(RawValue(env).value).Ok?)
      ensures RawValue(env).Some? && r.Ok? ==> r.value == Some(Cast(kind, RawValue(env).value).value)
      ensures RawValue(env).Some? && r.Err? ==> r.error == Checked(RawValue(env).value).error
    {
      match RawValue(env)
      case None => Ok(None)
      case Some(v) =>
        match Checked(v)
        case Err(e) => Err(e)
        case Ok(c) => Ok(Some(c))
    }

    /** `_get_value`: the raw value, remembered in `_last_value`. */
    method GetValue(env: Environ) returns (r: Option<ConfigValue>)
      modifies this
      ensures r == old(RawValue(env))
      ensures lastValue == r
      ensures override == old(override) && cacheValidated == old(cacheValidated)
    {
      var value: Option<ConfigValue>;
      if override.None? {
        var found := FindSettingLoop(env, Keys());
        value := if found.value.Some? then Some(CStr(found.value.value)) else None;
      } else {
        value := override;
      }
      if value.None? && !fallback.NoFallback? {
        value := match fallback
          case Constant(v) => Some(v)
          case Computed(call) => call();
      }
      lastValue := value;
      return value;
    }

    /** `_validate_or_raise`: the validator runs only for a value other than the cached one. */
    method ValidateOrRaise(v: ConfigValue) returns (r: Result<ConfigValue, SettingError>)
      requires Valid()
      modifies this
      ensures Valid()
      ensures r == Validated(v)
      ensures cacheValidated == if r.Ok? then Some(v) else old(cacheValidated)
      ensures override == old(override) && lastValue == old(lastValue)
    {
      if cacheValidated != Some(v) {
        var errorMessage := match validator
          case Check(f) => f(v)
          case Allowed(choices) => choices.Call(v);
        if errorMessage.Some? && errorMessage.value != "" {
          return Err(ValidationConfigurationError(PrettyRepr(kind, key, sensitive, Some(StrOf(v))) + ": " + errorMessage.value));
        }
        cacheValidated := Some(v);
      }
      return Ok(v);
    }

    /** `_cast_and_validate`. */
    method CastAndValidate(v: ConfigValue) returns (r: Result<ConfigValue, SettingError>)
      requires Valid()
      modifies this
      ensures Valid()
      ensures r == Checked(v)
      ensures cacheValidated == if r.Ok? then Some(r.value) else old(cacheValidated)
      ensures override == old(override) && lastValue == old(lastValue)
    {
      var c := CastOrRaise(v);
      if c.Err? {
        return Err(c.error);
      }
      r := ValidateOrRaise(c.value);
    }

    /** The `value` getter. */
    method Value(env: Environ) returns (r: Result<Option<ConfigValue>, SettingError>)
      requires Valid()
      modifies this
      ensures Valid()
      ensures r == old(ValueOf(env))
      ensures lastValue == old(RawValue(env)) && override == old(override)
      ensures cacheValidated == if r.Ok? && r.value.Some? then r.value else old(cacheValidated)
    {
      var value := GetValue(env);
      if value.None? {
        return Ok(None);
      }
      var c := CastAndValidate(value.value);
      if c.Err? {
        return Err(c.error);
      }
      return Ok(Some(c.value));
    }

    /** The `value` setter: a value overrides the environment and fallback; `None` restores them. */
    method SetValue(value: Option<ConfigValue>)
      modifies this
      ensures override == value
      ensures cacheValidated == old(cacheValidated) && lastValue == old(lastValue)
      ensures forall env :: RawValue(env) == if value.Some? then value else Unoverridden(env)
    {
      override := value;
    }

    /** `is_set`: the raw value is not `None` (whether or not it is valid). */
    method IsSet(env: Environ) returns (b: bool)
      modifies this
      ensures b <==> old(RawValue(env)).Some?
      ensures lastValue == old(RawValue(env))
      ensures override == old(override) && cacheValidated == old(cacheValidated)
    {
      var value := GetValue(env);
      return value.Some?;
    }

    /** `_raise_if_missing`. */
    method RaiseIfMissing(env: Environ) returns (err: Option<SettingError>)
      modifies this
      ensures err.Some? <==> old(RawValue(env)).None?
      ensures err.Some? ==> err.value == MandatoryConfigurationError("Mandatory config item \"" + key + "\" is missing.")
      ensures lastValue == old(RawValue(env))
      ensures override == old(override) && cacheValidated == old(cacheValidated)
    {
      var isSet := IsSet(env);
      if !isSet {
        return Some(MandatoryConfigurationError("Mandatory config item \"" + key + "\" is missing."));
      }
      return None;
    }

    /** `_raise_if_missing()` followed by `self.value`, the first step of `==`, `str`, `int`, `float`, `iter` and `in`. */
    method Mandatory(env: Environ) returns (r: Result<ConfigValue, SettingError>)
      requires Valid()
      modifies this
      ensures Valid()
      ensures old(RawValue(env)).None? ==> r.Err? && r.error.MandatoryConfigurationError?
      ensures old(RawValue(env)).Some? ==> r == old(Checked(RawValue(env).value))
      ensures override == old(override)
    {
      var missing := RaiseIfMissing(env);
      if missing.Some? {
        return Err(missing.value);
      }
      var value := Value(env);
      if value.Err? {
        return Err(value.error);
      }
      return Ok(value.value.value);
    }

    /** `__eq__`. */
    method Eq(env: Environ, other: ConfigValue) returns (r: Result<bool, SettingError>)
      requires Valid()
      modifies this
      ensures Valid()
      ensures r.Ok? <==> old(RawValue(env)).Some? && old(Checked(RawValue(env).value)).Ok?
      ensures r.Ok? ==> r.value == ConfigEq(other, old(Checked(RawValue(env).value)).value)
    {
      var value := Mandatory(env);
      if value.Err? {
        return Err(value.error);
      }
      return Ok(ConfigEq(other, value.value));
    }

    /** `__bool__`: an unset setting is false; a set one is the truth of its value. */
    method Bool(env: Environ) returns (r: Result<bool, SettingError>)
      requires Valid()
      modifies this
      ensures Valid()
      ensures old(RawValue(env)).None? ==> r == Ok(false)
      ensures old(RawValue(env)).Some? ==> (r.Ok? <==> old(Checked(RawValue(env).value)).Ok?)
      ensures old(RawValue(env)).Some? && r.Ok? ==> r.value == Truthy(old(Checked(RawValue(env).value)).value)
    {
      var value := Value(env);
      if value.Err? {
        return Err(value.error);
      }
      return Ok(value.value.Some? && Truthy(value.value.value));
    }

    /** `__str__`. */
    method Str(env: Environ) returns (r: Result<string, SettingError>)
      requires Valid()
      modifies this
      ensures Valid()
      ensures r.Ok? <==> old(RawValue(env)).Some? && old(Checked(RawValue(env).value)).Ok?
      ensures r.Ok? ==> r.value == StrOf(old(Checked(RawValue(env).value)).value)
    {
      var value := Mandatory(env);
      if value.Err? {
        return Err(value.error);
      }
      return Ok(StrOf(value.value));
    }

    /** `__int__`: `int()` of the value (a bool is 0 or 1, a string is parsed, a dict has no integer form). */
    method Int(env: Environ) returns (r: Result<int, SettingError>)
      requires Valid()
      modifies this
      ensures Valid()
      ensures old(RawValue(env)).None? ==> r.Err? && r.error.MandatoryConfigurationError?
      ensures r.Ok? ==> old(RawValue(env)).Some? && old(Checked(RawValue(env).value)).Ok?
      ensures r.Ok? <==> old(RawValue(env)).Some? && old(Checked(RawValue(env).value)).Ok?
                         && IntOf(old(Checked(RawValue(env).value)).value).Some?
      ensures r.Ok? ==> r.value == IntOf(old(Checked(RawValue(env).value)).value).value
      ensures (old(RawValue(env)).Some? && old(Checked(RawValue(env).value)).Ok?
               && IntOf(old(Checked(RawValue(env).value)).value).None?) ==> r == Err(ConversionError)
      ensures kind == IntKind && r.Ok? ==> CInt(r.value) == old(Checked(RawValue(env).value)).value
      ensures kind == IntKind && old(RawValue(env)).Some? && old(Checked(RawValue(env).value)).Ok? ==> r.Ok?
    {
      var value := Mandatory(env);
      if value.Err? {
        return Err(value.error);
      }
      var number := IntOf(value.value);
      if number.None? {
        return Err(ConversionError);
      }
      return Ok(number.value);
    }

    /** `__repr__`: shows the cached value, else the last raw value, else `<not-evaluated>`, without reading anything. */
    function Repr(): (r: string)
      reads this
      ensures sensitive ==> r == ClassName(kind) + "[" + key + "] = <sensitive>"
      ensures !sensitive && cacheValidated.Some? ==> r == ClassName(kind) + "[" + key + "] = " + StrOf(cacheValidated.value)
      ensures !sensitive && cacheValidated.None? && lastValue.Some? ==> r == ClassName(kind) + "[" + key + "] = " + StrOf(lastValue.value)
      ensures !sensitive && cacheValidated.None? && lastValue.None? ==> r == ClassName(kind) + "[" + key + "] = <not-evaluated>"
    {
      var shown := if cacheValidated.Some? then StrOf(cacheValidated.value)
                   else if lastValue.Some? then StrOf(lastValue.value)
                   else "<not-evaluated>";
      PrettyRepr(kind, key, sensitive, Some(shown))
    }
  }
}

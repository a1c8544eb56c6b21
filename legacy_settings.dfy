/**
 * `coveo_settings.settings`, the older setting classes: no override, no
 * validation callback, every read casts afresh, and cast failures become
 * `InvalidConfiguration`. Its `_find_setting` is the same code as the one in
 * `setting_abc.py` and is modelled once, as `SettingAbc.FindSetting`.
 */
module LegacySettings {
  import opened Wrappers
  import opened Text
  import opened ConfigValues
  import SettingAbc
  import IntSetting
  import StringSetting
  import BoolSetting
  import PyValues

  datatype LegacyError =
    | InvalidConfiguration(message: string)
    | AssertionFailure      // `DictSetting.cast`'s `assert isinstance(value, dict)`, which is not wrapped
    | ConversionError       // `int(...)` of a value that has no integer form
    | KeyError(key: string)

  /** The `Setting` subclass. `DictSetting` parses strings with `json.loads`, given here as `loads`. */
  datatype Kind =
    | AnyKind
    | BoolKind
    | StringKind
    | IntKind
    | DictKind(loads: string -> Option<ConfigValue>)

  function ClassName(kind: Kind): string
  {
    match kind
    case AnyKind => "AnySetting"
    case BoolKind => "BoolSetting"
    case StringKind => "StringSetting"
    case IntKind => "IntSetting"
    case DictKind(_) => "DictSetting"
  }

  const TrueValues: seq<string> := ["true", "yes", "1"]
  const FalseValues: seq<string> := ["false", "no", "0"]

  /** This module's `BoolSetting.cast`: three keywords each way. */
  function BoolCast(v: ConfigValue): (r: Result<bool, string>)
    ensures r.Ok? <==> BoolSetting.Keyword(v) in TrueValues || BoolSetting.Keyword(v) in FalseValues
    ensures r == Ok(true) <==> BoolSetting.Keyword(v) in TrueValues
  {
    var value := Lower(StrOf(v));
    if value !in TrueValues + FalseValues then Err("Cannot determine boolean from " + value)
    else Ok(value in TrueValues)
  }

  /** The newer cast accepts everything this one does, with the same answer, and adds `y` and `n`. */
  lemma NewerBoolCastExtends(v: ConfigValue)
    ensures BoolCast(v).Ok? ==> BoolSetting.Cast(v) == BoolCast(v)
    ensures BoolSetting.Keyword(v) in ["y", "n"] ==> BoolCast(v).Err? && BoolSetting.Cast(v).Ok?
  {
  }

  /** How `cast` can fail: with an error `cast_and_validate` wraps, or with one it lets through. */
  datatype CastFailure = Wrapped | Unwrapped

  /** `cast` of each subclass. */
  function Cast(kind: Kind, v: ConfigValue): (r: Result<ConfigValue, CastFailure>)
    ensures kind.AnyKind? ==> r == Ok(v)
    ensures kind.BoolKind? ==> (r.Ok? <==> BoolCast(v).Ok?) && (r.Ok? ==> r.value == CBool(BoolCast(v).value))
    ensures kind.StringKind? ==> (r.Ok? <==> StringSetting.Cast(v).Ok?) && (r.Ok? ==> r.value == CStr(StrOf(v)))
    ensures kind.IntKind? ==> (r.Ok? <==> IntSetting.Cast(v).Ok?) && (r.Ok? ==> r.value == CInt(IntSetting.Cast(v).value))
    ensures kind.DictKind? && r.Ok? ==> r.value.CDict?
    ensures kind.DictKind? && v.CDict? ==> r == Ok(v)
    ensures kind.DictKind? && v.CStr? ==>
              (r.Ok? <==> kind.loads(v.s).Some? && kind.loads(v.s).value.CDict?)
              && (r.Ok? ==> r.value == kind.loads(v.s).value)
              && (r == Err(Wrapped) <==> kind.loads(v.s).None?)
    ensures kind.DictKind? && !v.CStr? && !v.CDict? ==> r == Err(Unwrapped)
    ensures r == Err(Unwrapped) ==> kind.DictKind?
  {
    match kind
    case AnyKind => Ok(v)
    case BoolKind =>
      var c := BoolCast(v);
      if c.Ok? then Ok(CBool(c.value)) else Err(Wrapped)
    case StringKind =>
      var c := StringSetting.Cast(v);
      if c.Ok? then Ok(CStr(c.value)) else Err(Wrapped)
    case IntKind =>
      var c := IntSetting.Cast(v);
      if c.Ok? then Ok(CInt(c.value)) else Err(Wrapped)
    case DictKind(loads) =>
      var value := if v.CStr? then loads(v.s) else Some(v);
      if value.None? then Err(Wrapped)                 // json.JSONDecodeError is a ValueError
      else if value.value.CDict? then Ok(value.value)
      else Err(Unwrapped)
  }

  /** `cast_and_validate`: `TypeError`/`ValueError` become `InvalidConfiguration`. */
  function CastAndValidate(kind: Kind, v: ConfigValue): (r: Result<ConfigValue, LegacyError>)
    ensures r.Ok? <==> Cast(kind, v).Ok?
    ensures r.Ok? ==> r.value == Cast(kind, v).value
    ensures Cast(kind, v) == Err(Wrapped) ==>
              r == Err(InvalidConfiguration("An invalid configuration value was provided to " + ClassName(kind) + "."))
    ensures Cast(kind, v) == Err(Unwrapped) ==> r == Err(AssertionFailure)
  {
    match Cast(kind, v)
    case Ok(c) => Ok(c)
    case Err(Wrapped) => Err(InvalidConfiguration("An invalid configuration value was provided to " + ClassName(kind) + "."))
    case Err(Unwrapped) => Err(AssertionFailure)
  }

  /** A setting of this module; nothing about it changes after construction. */
  datatype LegacySetting = LegacySetting(kind: Kind, key: string, fallback: SettingAbc.Fallback, alternateKeys: seq<string>)
  {
    function SearchKeys(): seq<string>
    {
      [key] + alternateKeys
    }

    /** The environment, then the fallback (called if callable); no override exists in this module. */
    function Raw(env: Environ): (r: Option<ConfigValue>)
      ensures SettingAbc.FindIn(env, SearchKeys()).Some? ==> r == Some(CStr(SettingAbc.FindIn(env, SearchKeys()).value))
      ensures SettingAbc.FindIn(env, SearchKeys()).None? ==> r == SettingAbc.FallbackValue(fallback)
    {
      var found := SettingAbc.FindSetting(env, SearchKeys());
      if found.value.Some? then Some(CStr(found.value.value)) else SettingAbc.FallbackValue(fallback)
    }

    /** `value` (`_get_value`): `None` stays `None`, anything else is cast on every read. */
    function Value(env: Environ): (r: Result<Option<ConfigValue>, LegacyError>)
      ensures r == Ok(None) <==> Raw(env).None?
      ensures Raw(env).Some? ==> (r.Ok? <==> Cast(kind, Raw(env).value).Ok?)
      ensures r.Ok? && r.value.Some? ==> r.value.value == Cast(kind, Raw(env).value).value
    {
      match Raw(env)
      case None => Ok(None)
      case Some(v) =>
        match CastAndValidate(kind, v)
        case Err(e) => Err(e)
        case Ok(c) => Ok(Some(c))
    }

    /** `is_set`: reads `value`, so a value that fails to cast raises here too. */
    function IsSet(env: Environ): (r: Result<bool, LegacyError>)
      ensures r == Ok(false) <==> Raw(env).None?
      ensures r == Ok(true) <==> Raw(env).Some? && Cast(kind, Raw(env).value).Ok?
    {
      match Value(env)
      case Err(e) => Err(e)
      case Ok(v) => Ok(v.Some?)
    }

    /** `_raise_if_missing()` then `value`: the shared first step of `==`, `str`, `int` and `float`. */
    function Mandatory(env: Environ): (r: Result<ConfigValue, LegacyError>)
      ensures Raw(env).None? ==> r == Err(InvalidConfiguration("Mandatory config item \"" + key + "\" is missing."))
      ensures Raw(env).Some? ==> (r.Ok? <==> Cast(kind, Raw(env).value).Ok?)
      ensures r.Ok? ==> r.value == Cast(kind, Raw(env).value).value
    {
      match IsSet(env)
      case Err(e) => Err(e)
      case Ok(false) => Err(InvalidConfiguration("Mandatory config item \"" + key + "\" is missing."))
      case Ok(true) => Ok(Value(env).value.value)
    }

    /** `__eq__`. */
    function Eq(env: Environ, other: ConfigValue): (r: Result<bool, LegacyError>)
      ensures r.Ok? <==> Mandatory(env).Ok?
      ensures r.Ok? ==> r.value == ConfigEq(other, Mandatory(env).value)
    {
      match Mandatory(env)
      case Err(e) => Err(e)
      case Ok(v) => Ok(ConfigEq(other, v))
    }

    /** `__bool__`: unset is false. */
    function Bool(env: Environ): (r: Result<bool, LegacyError>)
      ensures Raw(env).None? ==> r == Ok(false)
      ensures Raw(env).Some? ==> (r.Ok? <==> Cast(kind, Raw(env).value).Ok?)
      ensures r.Ok? <==> Value(env).Ok?
      ensures r.Ok? ==> r.value == (Value(env).value.Some? && Truthy(Value(env).value.value))
    {
      match Value(env)
      case Err(e) => Err(e)
      case Ok(v) => Ok(v.Some? && Truthy(v.value))
    }

    /** `__str__`. */
    function Str(env: Environ): (r: Result<string, LegacyError>)
      ensures r.Ok? <==> Mandatory(env).Ok?
      ensures r.Ok? ==> r.value == StrOf(Mandatory(env).value)
    {
      match Mandatory(env)
      case Err(e) => Err(e)
      case Ok(v) => Ok(StrOf(v))
    }

    /** `__int__`. */
    function Int(env: Environ): (r: Result<int, LegacyError>)
      ensures Raw(env).None? ==> r.Err?
      ensures r.Ok? <==> Mandatory(env).Ok? && IntOf(Mandatory(env).value).Some?
      ensures r.Ok? ==> r.value == IntOf(Mandatory(env).value).value
      ensures Mandatory(env).Ok? && IntOf(Mandatory(env).value).None? ==> r == Err(ConversionError)
      ensures kind.IntKind? ==> (r.Ok? <==> Mandatory(env).Ok?)
      ensures kind.IntKind? && r.Ok? ==> CInt(r.value) == Mandatory(env).value
    {
      match Mandatory(env)
      case Err(e) => Err(e)
      case Ok(v) => if IntOf(v).Some? then Ok(IntOf(v).value) else Err(ConversionError)
    }

    /** `DictSetting`'s `self.value or {}`: the entries, with an unset or empty value read as `{}`. */
    function DictEntries(env: Environ): (r: Result<seq<(string, ConfigValue)>, LegacyError>)
      requires kind.DictKind?
      ensures Raw(env).None? ==> r == Ok([])
      ensures r.Ok? <==> Value(env).Ok?
      ensures r.Ok? && Value(env).value.Some? ==> r.value == Value(env).value.value.entries
    {
      match Value(env)
      case Err(e) => Err(e)
      case Ok(None) => Ok([])
      case Ok(Some(d)) => Ok(d.entries)
    }

    /** `DictSetting.__len__`. */
    function DictLen(env: Environ): (r: Result<nat, LegacyError>)
      requires kind.DictKind?
      ensures Raw(env).None? ==> r == Ok(0)
      ensures r.Ok? <==> DictEntries(env).Ok?
      ensures r.Ok? ==> r.value == |DictEntries(env).value|
    {
      match DictEntries(env)
      case Err(e) => Err(e)
      case Ok(entries) => Ok(|entries|)
    }

    /** `DictSetting.__getitem__`: a missing key (or an unset setting) is a `KeyError`. */
    function DictGet(env: Environ, k: string): (r: Result<ConfigValue, LegacyError>)
      requires kind.DictKind?
      ensures Raw(env).None? ==> r == Err(KeyError(k))
      ensures DictEntries(env).Ok? ==> (r.Ok? <==> k in PyValues.Keys(DictEntries(env).value))
      ensures r.Ok? ==> DictEntries(env).Ok? && PyValues.Get(DictEntries(env).value, k) == Some(r.value)
    {
      match DictEntries(env)
      case Err(e) => Err(e)
      case Ok(entries) => if PyValues.Get(entries, k).Some? then Ok(PyValues.Get(entries, k).value) else Err(KeyError(k))
    }

    /** `DictSetting.__iter__`: the keys, in order. */
    function DictIter(env: Environ): (r: Result<seq<string>, LegacyError>)
      requires kind.DictKind?
      ensures Raw(env).None? ==> r == Ok([])
      ensures r.Ok? <==> DictEntries(env).Ok?
      ensures r.Ok? ==> r.value == PyValues.Keys(DictEntries(env).value)
    {
      match DictEntries(env)
      case Err(e) => Err(e)
      case Ok(entries) => Ok(PyValues.Keys(entries))
    }
  }

  /** `Setting.__init__`: a constant fallback must cast; a callable one is not called. */
  function Create(kind: Kind, key: string, fallback: SettingAbc.Fallback, alternateKeys: seq<string>): (r: Result<LegacySetting, LegacyError>)
    ensures r.Err? <==> fallback.Constant? && Cast(kind, fallback.value).Err?
    ensures r.Err? ==> r.error == CastAndValidate(kind, fallback.value).error
    ensures r.Ok? ==> r.value == LegacySetting(kind, key, fallback, alternateKeys)
  {
    if fallback.Constant? && CastAndValidate(kind, fallback.value).Err? then Err(CastAndValidate(kind, fallback.value).error)
    else Ok(LegacySetting(kind, key, fallback, alternateKeys))
  }

  /** Unlike the newer `Setting`, whose `is_set` ignores validity, a set but malformed value makes `is_set` raise here. */
  lemma IsSetRaisesOnMalformed(s: LegacySetting, env: Environ)
    requires s.Raw(env).Some? && Cast(s.kind, s.Raw(env).value).Err?
    ensures s.IsSet(env).Err?
  {
  }
}

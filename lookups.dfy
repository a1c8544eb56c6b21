/**
 * `coveo_itertools.lookups.dict_lookup`: following a path of keys through
 * nested dicts and lists, with an optional default.
 *
 * Python's subscript `container[key]` on the values of `PyValues` is
 * modelled by `Subscript`; the three exceptions it can raise are its three
 * failure outcomes. `dict_lookup` raises only `KeyError`, either the one
 * the subscript raised (whose argument is the missing key) or the one it
 * builds from `IndexError`/`TypeError` (whose argument is the tuple of the
 * keys still to look up); `LookupError` tells the two apart.
 */
module Lookups {
  import opened Wrappers
  import opened PyValues

  /** The outcome of `container[key]`. */
  datatype Subscripted = Found(value: Value) | KeyErr | IndexErr | TypeErr

  /** `KeyError(key)` from a missing dict key, or `KeyError(keys)` from a failed index or type. */
  datatype LookupError = MissingKey(key: Value) | NotSubscriptable(keys: seq<Value>)

  /** The position `index` designates in a sequence of length `n`, counting from the end when negative. */
  function Position(index: int, n: nat): (r: Option<nat>)
    ensures r.Some? <==> -(n as int) <= index < n
    ensures r.Some? ==> r.value < n && (r.value == index || r.value == index + n)
  {
    if 0 <= index < n then Some(index)
    else if -(n as int) <= index < 0 then Some(index + n)
    else None
  }

  /** Python's `container[key]`. */
  function Subscript(container: Value, key: Value): (r: Subscripted)
    ensures r == KeyErr ==> container.VDict?
    ensures r == IndexErr ==> (container.VList? || container.VStr? || container.VBytes?) && AsInt(key).Some?
    ensures container.VDict? && key.VStr? ==> (r == KeyErr <==> key.s !in Keys(container.entries))
  {
    match container
    case VDict(entries) =>
      if !Hashable(key) then TypeErr
      else if !key.VStr? then KeyErr
      else
        (match Get(entries, key.s)
         case Some(v) => Found(v)
         case None => KeyErr)
    case VList(items) => Index(|items|, key, k requires 0 <= k < |items| => items[k])
    case VStr(s) => Index(|s|, key, k requires 0 <= k < |s| => VStr([s[k]]))
    case VBytes(bs) => Index(|bs|, key, k requires 0 <= k < |bs| => VInt(bs[k]))
    case _ => TypeErr
  }

  /** Indexing a sequence of length `n` whose items `item` gives: the index must be an int (or bool). */
  function Index(n: nat, key: Value, item: nat --> Value): (r: Subscripted)
    requires forall k :: 0 <= k < n ==> item.requires(k)
    ensures r != KeyErr
    ensures r == TypeErr <==> AsInt(key).None?
    ensures r == IndexErr <==> AsInt(key).Some? && Position(AsInt(key).value, n).None?
  {
    match AsInt(key)
    case None => TypeErr
    case Some(i) =>
      match Position(i, n)
      case None => IndexErr
      case Some(k) => Found(item(k))
  }

  /** The value at the end of `keys` when every step is a successful subscript. */
  function Path(source: Value, keys: seq<Value>): (r: Option<Value>)
    ensures keys == [] ==> r == Some(source)
    ensures r.Some? && keys != [] ==> Subscript(source, keys[0]).Found?
    decreases |keys|
  {
    if |keys| == 0 then Some(source)
    else
      match Subscript(source, keys[0])
      case Found(child) => Path(child, keys[1..])
      case _ => None
  }

  /** `dict_lookup(source, *keys, default=...)` as written; `default` is `None` when it is not given. */
  function DictLookup(source: Value, keys: seq<Value>, default: Option<Value>): (r: Result<Value, LookupError>)
    ensures keys == [] ==> r == Ok(source)
    ensures r.Err? && r.error.MissingKey? ==> default.None?
    ensures r.Err? && default.Some? ==> r == Err(NotSubscriptable(keys))
    decreases |keys|
  {
    if |keys| == 0 then Ok(source)
    else
      match Subscript(source, keys[0])
      case Found(child) =>
        (match DictLookup(child, keys[1..], None)
         case Ok(v) => Ok(v)
         case Err(e) => if default.None? then Err(e) else Ok(default.value))
      case KeyErr => if default.None? then Err(MissingKey(keys[0])) else Ok(default.value)
      case _ => Err(NotSubscriptable(keys))
  }

  /** `dict_lookup` with the default also returned when the first subscript fails with `IndexError` or `TypeError`. */
  function DictLookupIntended(source: Value, keys: seq<Value>, default: Option<Value>): Result<Value, LookupError>
  {
    if |keys| == 0 then Ok(source)
    else
      match Subscript(source, keys[0])
      case Found(child) =>
        (match DictLookup(child, keys[1..], None)
         case Ok(v) => Ok(v)
         case Err(e) => if default.None? then Err(e) else Ok(default.value))
      case KeyErr => if default.None? then Err(MissingKey(keys[0])) else Ok(default.value)
      case _ => if default.None? then Err(NotSubscriptable(keys)) else Ok(default.value)
  }

  /** The corrected lookup returns what the path leads to, or else the default when one is given; without one it is the lookup as written. */
  lemma IntendedDefault(source: Value, keys: seq<Value>, default: Option<Value>)
    ensures default.Some? ==>
              DictLookupIntended(source, keys, default) == Ok(if Path(source, keys).Some? then Path(source, keys).value else default.value)
    ensures default.None? ==> DictLookupIntended(source, keys, default) == DictLookup(source, keys, None)
  {
    if |keys| > 0 {
      var sub := Subscript(source, keys[0]);
      if sub.Found? {
        NoDefault(sub.value, keys[1..]);
      }
    }
  }

  /** Without a default, the lookup succeeds exactly when the path exists, and returns what is there. */
  lemma {:induction false} NoDefault(source: Value, keys: seq<Value>)
    ensures DictLookup(source, keys, None).Ok? <==> Path(source, keys).Some?
    ensures DictLookup(source, keys, None).Ok? ==> DictLookup(source, keys, None).value == Path(source, keys).value
    decreases |keys|
  {
    if |keys| > 0 {
      var sub := Subscript(source, keys[0]);
      if sub.Found? {
        NoDefault(sub.value, keys[1..]);
      }
    }
  }

  /** An existing path is found whatever the default. */
  lemma PathFound(source: Value, keys: seq<Value>, default: Option<Value>)
    requires Path(source, keys).Some?
    ensures DictLookup(source, keys, default) == Ok(Path(source, keys).value)
  {
    if |keys| > 0 {
      NoDefault(Subscript(source, keys[0]).value, keys[1..]);
    }
  }

  /** As written, a given default is returned for every missing path except when the first step is not a dict lookup that can fail with `KeyError`. */
  lemma DefaultAsWritten(source: Value, keys: seq<Value>, d: Value)
    ensures DictLookup(source, keys, Some(d)).Err? <==>
              |keys| > 0 && Subscript(source, keys[0]) in {IndexErr, TypeErr}
    ensures DictLookup(source, keys, Some(d)).Err? ==> DictLookup(source, keys, Some(d)) == Err(NotSubscriptable(keys))
    ensures DictLookup(source, keys, Some(d)).Ok? ==>
              DictLookup(source, keys, Some(d)).value == if Path(source, keys).Some? then Path(source, keys).value else d
  {
    if |keys| > 0 {
      var sub := Subscript(source, keys[0]);
      if sub.Found? {
        NoDefault(sub.value, keys[1..]);
      }
    }
  }

  /** The two versions differ: indexing an empty list with a default given raises instead of returning the default. */
  lemma DefaultIgnoredOnFirstIndex()
    ensures DictLookup(VList([]), [VInt(0)], Some(VInt(5))) == Err(NotSubscriptable([VInt(0)]))
    ensures DictLookupIntended(VList([]), [VInt(0)], Some(VInt(5))) == Ok(VInt(5))
  {
    assert Path(VList([]), [VInt(0)]).None? by {
      assert Subscript(VList([]), VInt(0)) == IndexErr;
    }
  }

  /** The same failure one level deeper is absorbed by the default, as the docstring promises. */
  lemma DefaultUsedOnDeeperIndex()
    ensures DictLookup(VDict([("a", VList([]))]), [VStr("a"), VInt(0)], Some(VInt(5))) == Ok(VInt(5))
  {
    var src := VDict([("a", VList([]))]);
    assert Subscript(src, VStr("a")) == Found(VList([]));
    assert [VStr("a"), VInt(0)][1..] == [VInt(0)];
    assert Subscript(VList([]), VInt(0)) == IndexErr;
  }

  /** Without a default the first missing dict key is reported. */
  lemma MissingKeyReported(entries: seq<(string, Value)>, key: string, more: seq<Value>)
    requires key !in Keys(entries)
    ensures DictLookup(VDict(entries), [VStr(key)] + more, None) == Err(MissingKey(VStr(key)))
  {
    assert ([VStr(key)] + more)[0] == VStr(key);
  }
}

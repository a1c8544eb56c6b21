/**
 * The values a setting can hold (`ConfigValue`: str, int, bool or dict),
 * Python's `str()`, truth and `==` on them, and the process environment as
 * an ordered list of `(name, value)` pairs.
 */
module ConfigValues {
  import opened Wrappers
  import opened Text
  import PyValues

  datatype ConfigValue =
    | CStr(s: string)
    | CInt(i: int)
    | CBool(b: bool)
    | CDict(entries: seq<(string, ConfigValue)>)

  /** `os.environ.items()`, in iteration order. */
  type Environ = seq<(string, string)>

  /** Python's `str(v)`. */
  function StrOf(v: ConfigValue): string
    decreases v, 1
  {
    match v
    case CStr(s) => s
    case CInt(i) => IntToString(i)
    case CBool(b) => if b then "True" else "False"
    case CDict(_) => "{" + EntriesText(v, 0) + "}"
  }

  /**
   * Python's `repr(v)`: strings are wrapped in single quotes, everything
   * else prints as `str`. Python's choice of double quotes for a string
   * holding `'` and no `"`, and its escaping of backslashes, quotes and
   * control characters, are not modelled.
   */
  function ReprOf(v: ConfigValue): string
    decreases v, 2
  {
    if v.CStr? then "'" + v.s + "'" else StrOf(v)
  }

  /** The `'key': value` pairs of a dict from position `i` on, separated by `", "`. */
  function EntriesText(d: ConfigValue, i: nat): string
    requires d.CDict?
    decreases d, 0, |d.entries| - i
  {
    if i >= |d.entries| then ""
    else
      var item := "'" + d.entries[i].0 + "': " + ReprOf(d.entries[i].1);
      if i + 1 == |d.entries| then item else item + ", " + EntriesText(d, i + 1)
  }

  /** Python's `bool(v)`. */
  predicate Truthy(v: ConfigValue)
  {
    match v
    case CStr(s) => s != ""
    case CInt(i) => i != 0
    case CBool(b) => b
    case CDict(entries) => entries != []
  }

  /**
   * Python's `a == b`: `True == 1` and `False == 0`, at any depth; dicts
   * compare as mappings, whatever the order of their entries; strings
   * compare as text.
   */
  predicate ConfigEq(a: ConfigValue, b: ConfigValue)
    decreases a
  {
    if (a.CInt? || a.CBool?) && (b.CInt? || b.CBool?) then NumberOf(a) == NumberOf(b)
    else match a
      case CDict(es) =>
        b.CDict? && PyValues.KeySet(es) == PyValues.KeySet(b.entries)
        && forall i, j ::
             (0 <= i < |es| && 0 <= j < |b.entries| && PyValues.FirstKey(es, i) && PyValues.FirstKey(b.entries, j)
              && es[i].0 == b.entries[j].0)
             ==> ConfigEq(es[i].1, b.entries[j].1)
      case _ => a == b
  }

  /** The order of a dict's entries and bools standing for ints do not affect `==`. */
  lemma DictEqIgnoresOrder()
    ensures ConfigEq(CDict([("a", CInt(1)), ("b", CInt(2))]), CDict([("b", CInt(2)), ("a", CBool(true))]))
    ensures !ConfigEq(CDict([("a", CInt(1))]), CDict([("a", CInt(1)), ("b", CInt(2))]))
  {
    var es := [("a", CInt(1)), ("b", CInt(2))];
    var fs := [("b", CInt(2)), ("a", CBool(true))];
    assert PyValues.KeySet(es) == {"a", "b"} by {
      assert es[0].0 == "a" && es[1].0 == "b";
    }
    assert PyValues.KeySet(fs) == {"a", "b"} by {
      assert fs[0].0 == "b" && fs[1].0 == "a";
    }
    assert "b" !in PyValues.KeySet([("a", CInt(1))]);
  }

  function NumberOf(v: ConfigValue): int
    requires v.CInt? || v.CBool?
  {
    if v.CInt? then v.i else if v.b then 1 else 0
  }

  /**
   * Python's `int(v)`: an int is itself and a bool the number it equals, a
   * string is parsed as a decimal integer, and a dict has no integer value.
   */
  function IntOf(v: ConfigValue): (r: Option<int>)
    ensures (v.CInt? || v.CBool?) ==> r == Some(NumberOf(v))
    ensures v.CDict? ==> r.None?
    ensures v.CStr? && r.Some? ==> '.' !in v.s
  {
    match v
    case CInt(i) => Some(i)
    case CBool(b) => Some(if b then 1 else 0)
    case CStr(s) => ParseInt(s)
    case CDict(_) => None
  }

  /** `int(str(i)) == int(i)`: an integer read back from its text is the same integer. */
  lemma IntOfPrinted(i: int)
    ensures IntOf(CStr(StrOf(CInt(i)))) == Some(i)
  {
    ParsePrintedInt(i);
  }

  /** `str()` of a dict starts with `{`, which no bool keyword or integer literal does. */
  lemma DictText(v: ConfigValue)
    requires v.CDict?
    ensures |StrOf(v)| > 0 && StrOf(v)[0] == '{'
  {
  }
}

/**
 * `BoolSetting._cast`: only a handful of keywords, compared on the
 * lowercased `str()` of the value, are accepted.
 */
module BoolSetting {
  import opened Wrappers
  import opened Text
  import opened ConfigValues

  const TrueValues: seq<string> := ["true", "yes", "1", "y"]
  const FalseValues: seq<string> := ["false", "no", "0", "n"]

  /** The lowercased text the keywords are compared with. */
  function Keyword(v: ConfigValue): string
  {
    Lower(StrOf(v))
  }

  /** `BoolSetting._cast`; the error carries the `ValueError` message. */
  function Cast(v: ConfigValue): (r: Result<bool, string>)
    ensures r.Ok? <==> Keyword(v) in TrueValues || Keyword(v) in FalseValues
    ensures r == Ok(true) <==> Keyword(v) in TrueValues
    ensures r == Ok(false) <==> Keyword(v) in FalseValues
    ensures r.Err? ==> r.error == "Cannot determine boolean from " + Keyword(v)
  {
    KeywordsDisjoint();
    var value := Keyword(v);
    if value !in TrueValues + FalseValues then Err("Cannot determine boolean from " + value)
    else Ok(value in TrueValues)
  }

  /** No keyword means both true and false. */
  lemma KeywordsDisjoint()
    ensures forall w :: w in TrueValues ==> w !in FalseValues
  {
  }

  /** A Python bool, or its `str()`, casts back to itself. */
  lemma CastBool(b: bool)
    ensures Cast(CBool(b)) == Ok(b)
    ensures Cast(CStr(StrOf(CBool(b)))) == Ok(b)
  {
    assert Keyword(CBool(b)) == if b then "true" else "false";
  }

  /** An int casts iff it is 0 or 1. */
  lemma CastInt(i: int)
    ensures Cast(CInt(i)).Ok? <==> i == 0 || i == 1
    ensures Cast(CInt(i)).Ok? ==> Cast(CInt(i)) == Ok(i == 1)
  {
    var s := StrOf(CInt(i));
    if i < 0 {
      assert s[0] == '-';
    } else if i >= 10 {
      assert |NatToString(i)| >= 2 by {
        assert NatToString(i) == NatToString(i / 10) + [DigitChar(i % 10)];
      }
      assert IsDigit(s[0]) && Keyword(CInt(i))[0] == s[0];
    } else if 2 <= i {
      assert s == [DigitChar(i)];
      assert Keyword(CInt(i)) == s;
    } else {
      assert Keyword(CInt(i)) == if i == 1 then "1" else "0";
    }
  }

  /** A dict never casts. */
  lemma CastDict(v: ConfigValue)
    requires v.CDict?
    ensures Cast(v).Err?
  {
    DictText(v);
    assert Keyword(v)[0] == '{';
  }

  /** Examples: matching ignores case. */
  lemma CaseInsensitive()
    ensures Cast(CStr("trUe")) == Ok(true)
    ensures Cast(CStr("YES")) == Ok(true)
    ensures Cast(CStr("N")) == Ok(false)
    ensures Cast(CStr("")).Err?
  {
    assert Keyword(CStr("trUe")) == "true";
    assert Keyword(CStr("YES")) == "yes";
    assert Keyword(CStr("N")) == "n";
    assert Keyword(CStr("")) == "";
  }
}

/** `StringSetting._cast`: scalars become their `str()`, and the result may not be empty. */
module StringSetting {
  import opened Wrappers
  import opened Text
  import opened ConfigValues

  datatype CastError = UnsupportedType | Empty

  /** `StringSetting._cast`. */
  function Cast(v: ConfigValue): (r: Result<string, CastError>)
    ensures v.CDict? ==> r == Err(UnsupportedType)
    ensures !v.CDict? ==> (r.Ok? <==> StrOf(v) != "")
    ensures r.Ok? ==> r.value == StrOf(v) && Truthy(CStr(r.value))
  {
    if v.CDict? then Err(UnsupportedType)
    else
      var value := StrOf(v);
      if value == "" then Err(Empty) else Ok(value)
  }

  /** A string is returned unchanged exactly when it is not empty. */
  lemma CastString(s: string)
    ensures Cast(CStr(s)) == (if s == "" then Err(Empty) else Ok(s))
  {
  }

  /** Ints and bools always cast, to their decimal text and to `True`/`False`. */
  lemma CastScalars(i: int, b: bool)
    ensures Cast(CInt(i)) == Ok(IntToString(i))
    ensures Cast(CBool(b)) == Ok(if b then "True" else "False")
  {
    assert |NatToString(if i < 0 then -i else i)| >= 1;
  }
}

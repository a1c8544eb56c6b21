/** `IntSetting._cast`: reject any text with a `.`, then parse as an integer. */
module IntSetting {
  import opened Wrappers
  import opened Text
  import opened ConfigValues

  datatype CastError = HasDot | NotAnInteger

  /** `IntSetting._cast`; the `str()` of the value is checked for a dot before `int()` sees it. */
  function Cast(v: ConfigValue): (r: Result<int, CastError>)
    ensures '.' in StrOf(v) ==> r == Err(HasDot)
    ensures r.Ok? <==> ParseInt(StrOf(v)).Some?
    ensures r.Ok? ==> r.value == ParseInt(StrOf(v)).value
  {
    var value := StrOf(v);
    if '.' in value then Err(HasDot)
    else match ParseInt(value)
      case None => Err(NotAnInteger)
      case Some(i) => Ok(i)
  }

  /** An int, or its decimal text, casts back to itself. */
  lemma CastPrinted(i: int)
    ensures Cast(CInt(i)) == Ok(i)
    ensures Cast(CStr(IntToString(i))) == Ok(i)
  {
    ParsePrintedInt(i);
  }

  /** Bools and dicts are rejected: their text is not an integer. */
  lemma CastRejectsBoolAndDict(v: ConfigValue)
    requires v.CBool? || v.CDict?
    ensures Cast(v).Err?
  {
    if v.CDict? {
      DictText(v);
      assert !IsDigit(StrOf(v)[0]);
    } else {
      assert !IsDigit(StrOf(v)[0]);
    }
  }

  /** Examples: signed forms parse, floats and other words do not. */
  lemma Examples()
    ensures Cast(CStr("-0")) == Ok(0)
    ensures Cast(CStr("-1")) == Ok(-1)
    ensures Cast(CStr("0.0")) == Err(HasDot)
    ensures Cast(CStr("hey")).Err?
    ensures Cast(CStr("")).Err?
    ensures Cast(CStr("0x56f")).Err?
  {
    assert "-0"[1..] == "0";
    assert "-1"[1..] == "1";
    assert DigitsValue("0") == DigitsValue("")*10 + 0;
    assert "1"[..0] == "";
    assert !IsDigit("0x56f"[1]);
    assert !IsDigit("hey"[0]);
  }
}

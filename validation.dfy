/** `InSequence`: the validation callback that accepts only the values it was built with. */
module Validation {
  import opened Wrappers
  import opened Text
  import opened ConfigValues

  const Preamble: string := "Valid values are : "

  /** The allowed values, fixed at construction. */
  datatype InSequence = InSequence(condition: seq<ConfigValue>)
  {
    /** `str()` of each allowed value, in order. */
    function Texts(): (texts: seq<string>)
      ensures |texts| == |condition|
      ensures forall i :: 0 <= i < |condition| ==> texts[i] == StrOf(condition[i])
    {
      seq(|condition|, i requires 0 <= i < |condition| => StrOf(condition[i]))
    }

    /** `__call__`: no message for an allowed value, otherwise a message listing every allowed value. */
    function Call(value: ConfigValue): (r: Option<string>)
      ensures r.None? <==> exists i :: 0 <= i < |condition| && ConfigEq(value, condition[i])
      ensures r.Some? ==> |r.value| >= |Preamble| && r.value[..|Preamble|] == Preamble
      ensures r.Some? ==> r.value == Preamble + Join(", ", Texts())
      ensures r.Some? ==> forall i :: 0 <= i < |condition| ==> Occurs(StrOf(condition[i]), r.value)
    {
      if exists i :: 0 <= i < |condition| && ConfigEq(value, condition[i]) then None
      else
        var message := Preamble + Join(", ", Texts());
        assert forall i :: 0 <= i < |condition| ==> Occurs(StrOf(condition[i]), message) by {
          forall i | 0 <= i < |condition| ensures Occurs(StrOf(condition[i]), message) {
            JoinHasPart(", ", Texts(), i);
            var j := Join(", ", Texts());
            var o :| 0 <= o <= |j| && Texts()[i] <= j[o..];
            assert message[|Preamble| + o..] == j[o..];
          }
        }
        Some(message)
    }
  }

  /** `True == 1`: a bool passes a check that allows the matching int, and the other way round. */
  lemma BoolMatchesInt(b: bool)
    ensures InSequence([CInt(if b then 1 else 0)]).Call(CBool(b)).None?
    ensures InSequence([CBool(b)]).Call(CInt(if b then 1 else 0)).None?
  {
    assert ConfigEq(CBool(b), CInt(if b then 1 else 0));
    assert ConfigEq(CInt(if b then 1 else 0), CBool(b));
  }
}

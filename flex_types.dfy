/** The constant type sets of the flex package: which hints are taken verbatim, without conversion. */
module FlexTypes {
  import opened PyValues
  import opened Hints

  /** `JSON_TYPES`. `list` is deliberately absent, so that lists of custom classes get converted. */
  const JsonTypes: seq<Hint> :=
    [Scalar(BytesType), Scalar(StrType), Scalar(BoolType), Scalar(IntType), Scalar(FloatType), NoneType, BareDict]

  /** `PASSTHROUGH_TYPES = {None, Any, *JSON_TYPES}`. */
  const PassthroughTypes: set<Hint> := {Obj(VNone), AnyHint} + (set i | 0 <= i < |JsonTypes| :: JsonTypes[i])

  /** `is_passthrough_type(h)`: membership in the passthrough set, and `False` rather than an error when `h` cannot be hashed. */
  predicate IsPassthroughType(h: Hint)
    ensures IsPassthroughType(h) <==>
      HashableHint(h) && (h == Obj(VNone) || h == AnyHint || h.Scalar? || h == NoneType || h == BareDict)
  {
    PassthroughMembers(h);
    HashableHint(h) && h in PassthroughTypes
  }

  lemma PassthroughMembers(h: Hint)
    ensures h in PassthroughTypes <==> h == Obj(VNone) || h == AnyHint || h.Scalar? || h == NoneType || h == BareDict
  {
    var js := set i | 0 <= i < |JsonTypes| :: JsonTypes[i];
    assert JsonTypes[0] == Scalar(BytesType) && JsonTypes[1] == Scalar(StrType) && JsonTypes[2] == Scalar(BoolType);
    assert JsonTypes[3] == Scalar(IntType) && JsonTypes[4] == Scalar(FloatType);
    assert JsonTypes[5] == NoneType && JsonTypes[6] == BareDict;
    assert js == {Scalar(BytesType), Scalar(StrType), Scalar(BoolType), Scalar(IntType), Scalar(FloatType), NoneType, BareDict};
    if h.Scalar? {
      match h.kind
      case BytesType => assert h == Scalar(BytesType);
      case StrType => assert h == Scalar(StrType);
      case BoolType => assert h == Scalar(BoolType);
      case IntType => assert h == Scalar(IntType);
      case FloatType => assert h == Scalar(FloatType);
    }
  }
}

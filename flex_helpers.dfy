/**
 * Normalising a type hint into an origin and its arguments, as the flex
 * deserializer needs it: `NoneType` is dropped, unions of JSON types pass,
 * and the only accepted mixed union is "a thing or a list of things",
 * always reported as `(T, List[T])`.
 */
module FlexHelpers {
  import opened Wrappers
  import opened PyValues
  import opened Hints
  import opened FlexTypes

  /** The exceptions the flex deserializer can raise. */
  datatype FlexError =
    | UnsupportedAnnotation   // `UnsupportedAnnotation`
    | TypeError               // hashing an unhashable hint or value, calling a non-callable
    | RecursionLimit          // adapters that keep handing out new hints
    | CallFailed(error: CallError)  // `cls(**kwargs)` rejected its keywords

  /** What resolving a hint yields: `(origin, args)`. */
  datatype Resolved = Resolved(origin: Hint, args: seq<Hint>)

  predicate AllPassthrough(args: seq<Hint>)
  {
    forall i :: 0 <= i < |args| ==> IsPassthroughType(args[i])
  }

  predicate AllHashable(args: seq<Hint>)
  {
    forall i :: 0 <= i < |args| ==> HashableHint(args[i])
  }

  // ------------------------------------------------------------ dropping NoneType

  /** The arguments with every `NoneType` removed, order kept. */
  function WithoutNone(args: seq<Hint>): (r: seq<Hint>)
    ensures |r| <= |args|
    decreases |args|
  {
    if |args| == 0 then []
    else if args[0] == NoneType then WithoutNone(args[1..])
    else [args[0]] + WithoutNone(args[1..])
  }

  /** `args.remove(x)`: the first occurrence goes. */
  function RemoveFirst(args: seq<Hint>, x: Hint): (r: seq<Hint>)
    requires x in args
    ensures |r| == |args| - 1
    decreases |args|
  {
    if args[0] == x then args[1..] else [args[0]] + RemoveFirst(args[1..], x)
  }

  lemma {:induction false} WithoutNoneMembers(args: seq<Hint>, x: Hint)
    ensures x in WithoutNone(args) <==> x in args && x != NoneType
    decreases |args|
  {
    if |args| > 0 {
      WithoutNoneMembers(args[1..], x);
      assert args == [args[0]] + args[1..];
    }
  }

  lemma {:induction false} WithoutNoneRemoveFirst(args: seq<Hint>)
    requires NoneType in args
    ensures WithoutNone(RemoveFirst(args, NoneType)) == WithoutNone(args)
    decreases |args|
  {
    if args[0] != NoneType {
      WithoutNoneRemoveFirst(args[1..]);
      assert ([args[0]] + RemoveFirst(args[1..], NoneType))[1..] == RemoveFirst(args[1..], NoneType);
    }
  }

  lemma {:induction false} WithoutNoneAbsent(args: seq<Hint>)
    requires NoneType !in args
    ensures WithoutNone(args) == args
    decreases |args|
  {
    if |args| > 0 {
      WithoutNoneAbsent(args[1..]);
      assert [args[0]] + args[1..] == args;
    }
  }

  lemma {:induction false} WithoutNoneSize(args: seq<Hint>)
    ensures SizeSum(WithoutNone(args)) <= SizeSum(args)
    decreases |args|
  {
    if |args| > 0 {
      WithoutNoneSize(args[1..]);
      if args[0] != NoneType {
        assert ([args[0]] + WithoutNone(args[1..]))[1..] == WithoutNone(args[1..]);
      }
    }
  }

  /** `while type(None) in args: args.remove(type(None))`. */
  method RemoveNoneTypes(args: seq<Hint>) returns (r: seq<Hint>)
    ensures r == WithoutNone(args)
    ensures NoneType !in r
  {
    r := args;
    while NoneType in r
      invariant WithoutNone(r) == WithoutNone(args)
      decreases |r|
    {
      WithoutNoneRemoveFirst(r);
      r := RemoveFirst(r, NoneType);
    }
    WithoutNoneAbsent(r);
  }

  // ------------------------------------------------------------ thing or list of things

  /**
   * The two variables of `_as_union_of_thing_or_list_of_things` after its
   * loop: the last argument without an origin, and the origin of the last
   * one with an origin.
   */
  function ScanKinds(hs: seq<Hint>): (Option<Hint>, Option<Hint>)
    decreases |hs|
  {
    if |hs| == 0 then (None, None)
    else
      var (target, container) := ScanKinds(hs[..|hs| - 1]);
      var h := hs[|hs| - 1];
      if GetOrigin(h).None? then (Some(h), container) else (target, GetOrigin(h))
  }

  /** `_as_union_of_thing_or_list_of_things(*hs)`. */
  function ThingOrList(hs: seq<Hint>): Result<seq<Hint>, FlexError>
  {
    if |hs| != 2 then Err(UnsupportedAnnotation)
    else
      var (target, container) := ScanKinds(hs);
      if container == Some(BareList) && target.Some? && target.value != Obj(VNone) then
        Ok([target.value, ListOf(target.value)])
      else Err(UnsupportedAnnotation)
  }

  /** A hint without a typing origin, other than `None` itself: what may stand as the "thing". */
  predicate BareThing(h: Hint)
  {
    GetOrigin(h).None? && h != Obj(VNone)
  }

  /** A pair of arguments forms "a thing or a list of things", in either order; the list's element type is not compared with the thing. */
  predicate IsThingOrListPair(a: Hint, b: Hint)
  {
    (BareThing(a) && b.ListOf?) || (a.ListOf? && BareThing(b))
  }

  /** The "thing" of such a pair: the member that is not a list. */
  function TheThing(a: Hint, b: Hint): Hint
    requires IsThingOrListPair(a, b)
  {
    if BareThing(a) then a else b
  }

  /** The accepted shapes are exactly one bare thing and one list generic, and the thing always comes first. */
  lemma ThingOrListSpec(hs: seq<Hint>)
    ensures ThingOrList(hs).Ok? <==> |hs| == 2 && IsThingOrListPair(hs[0], hs[1])
    ensures ThingOrList(hs).Ok? ==>
      var t := TheThing(hs[0], hs[1]);
      ThingOrList(hs).value == [t, ListOf(t)]
  {
    if |hs| == 2 {
      var a, b := hs[0], hs[1];
      assert hs[..1][..0] == [];
      assert hs[..2][..1] == hs[..1] && hs[..1] == [a];
      assert hs[..2] == hs;
      assert ScanKinds([a]) == if GetOrigin(a).None? then (Some(a), None) else (None, GetOrigin(a));
    }
  }

  /** The loop of `_as_union_of_thing_or_list_of_things`. */
  method ThingOrListLoop(hs: seq<Hint>) returns (r: Result<seq<Hint>, FlexError>)
    ensures r == ThingOrList(hs)
  {
    if |hs| != 2 {
      return Err(UnsupportedAnnotation);
    }
    var target: Option<Hint> := None;
    var container: Option<Hint> := None;
    for i := 0 to |hs|
      invariant (target, container) == ScanKinds(hs[..i])
    {
      assert hs[..i + 1][..i] == hs[..i];
      var origin := GetOrigin(hs[i]);
      if origin.None? {
        target := Some(hs[i]);
      } else {
        container := origin;
      }
    }
    assert hs[..|hs|] == hs;
    if container == Some(BareList) && target.Some? && target.value != Obj(VNone) {
      r := Ok([target.value, ListOf(target.value)]);
    } else {
      r := Err(UnsupportedAnnotation);
    }
  }

  // ------------------------------------------------------------ resolving

  /**
   * The part shared by `resolve_hint` and the deserializer's own
   * `_resolve_hint`, once the origin and `get_args` are known.
   * `literalAware` selects the `Literal` early return only the former has.
   */
  function ResolveArgs(origin: Hint, args: seq<Hint>, literalAware: bool): (r: Result<Resolved, FlexError>)
    ensures r.Ok? ==> r.value.origin == origin
    ensures origin == BareDict ==> r == Ok(Resolved(origin, args))
    ensures r.Ok? && origin != BareDict ==> NoneType !in r.value.args
    ensures r.Ok? ==> forall i :: 0 <= i < |r.value.args| ==> HintSize(r.value.args[i]) <= SizeSum(args)
    ensures r.Ok? && origin != BareDict && !(literalAware && origin == LiteralForm)
              && |r.value.args| == 2 && !AllPassthrough(r.value.args) ==>
              r.value.args[1] == ListOf(r.value.args[0])
  {
    if origin == BareDict then
      SumBoundsEach(args);
      Ok(Resolved(origin, args))
    else
      var rest := WithoutNone(args);
      assert NoneType !in rest by {
        WithoutNoneMembers(args, NoneType);
      }
      assert forall i :: 0 <= i < |rest| ==> HintSize(rest[i]) <= SizeSum(args) by {
        SumBoundsEach(rest);
        WithoutNoneSize(args);
      }
      if literalAware && origin == LiteralForm then Ok(Resolved(origin, rest))
      else if !AllHashable(rest) then Err(TypeError)
      else if AllPassthrough(rest) then Ok(Resolved(origin, rest))
      else if |rest| < 2 then Ok(Resolved(origin, rest))
      else if |rest| == 2 then
        match ThingOrList(rest)
        case Err(e) => Err(e)
        case Ok(pair) =>
          ThingOrListSizes(args, rest);
          Ok(Resolved(origin, pair))
      else Err(UnsupportedAnnotation)
  }

  /** The pair a thing-or-list union resolves to holds no `NoneType` and no hint heavier than the arguments together. */
  lemma ThingOrListSizes(args: seq<Hint>, rest: seq<Hint>)
    requires rest == WithoutNone(args) && NoneType !in rest && ThingOrList(rest).Ok?
    ensures var pair := ThingOrList(rest).value;
            |pair| == 2 && NoneType !in pair && pair[1] == ListOf(pair[0])
            && forall i :: 0 <= i < |pair| ==> HintSize(pair[i]) <= SizeSum(args)
  {
    var pair := ThingOrList(rest).value;
    ThingOrListSpec(rest);
    assert pair == [TheThing(rest[0], rest[1]), ListOf(TheThing(rest[0], rest[1]))];
    assert SizeSum(rest) == HintSize(rest[0]) + HintSize(rest[1]) by {
      assert rest[1..] == [rest[1]];
      assert SizeSum([rest[1]]) == HintSize(rest[1]) + SizeSum([]);
    }
    WithoutNoneSize(args);
    var t := pair[0];
    assert HintSize(pair[1]) == 1 + HintSize(t);
    assert HintSize(pair[1]) <= SizeSum(rest) by {
      if rest[0] == t {
        assert HintSize(rest[1]) == 1 + HintSize(rest[1].elem);
      } else {
        assert HintSize(rest[0]) == 1 + HintSize(rest[0].elem);
      }
    }
  }

  /**
   * The union rules, for every origin but `dict` (and `Literal` when
   * `literalAware`): passthrough-only or short argument lists pass as they
   * are, two arguments must be a thing and a list, three or more fail.
   */
  lemma ResolveRules(origin: Hint, args: seq<Hint>, literalAware: bool)
    requires origin != BareDict && !(literalAware && origin == LiteralForm)
    ensures !AllHashable(WithoutNone(args)) ==> ResolveArgs(origin, args, literalAware) == Err(TypeError)
    ensures AllHashable(WithoutNone(args)) && (AllPassthrough(WithoutNone(args)) || |WithoutNone(args)| < 2) ==>
              ResolveArgs(origin, args, literalAware) == Ok(Resolved(origin, WithoutNone(args)))
    ensures AllHashable(WithoutNone(args)) && !AllPassthrough(WithoutNone(args)) && |WithoutNone(args)| > 2 ==>
              ResolveArgs(origin, args, literalAware) == Err(UnsupportedAnnotation)
    ensures AllHashable(WithoutNone(args)) && !AllPassthrough(WithoutNone(args)) && |WithoutNone(args)| == 2 ==>
              var rest := WithoutNone(args);
              if IsThingOrListPair(rest[0], rest[1]) then
                ResolveArgs(origin, args, literalAware) ==
                  Ok(Resolved(origin, [TheThing(rest[0], rest[1]), ListOf(TheThing(rest[0], rest[1]))]))
              else ResolveArgs(origin, args, literalAware) == Err(UnsupportedAnnotation)
  {
    ThingOrListSpec(WithoutNone(args));
  }

  /** The arguments `get_args` reports never outweigh the hint they come from. */
  lemma ArgsSmaller(h: Hint)
    ensures SizeSum(GetArgs(h)) < HintSize(h)
  {
    match h
    case ListOf(e) =>
      assert SizeSum([e]) == HintSize(e) + SizeSum([e][1..]);
      assert [e][1..] == [];
    case DictOf(k, v) =>
      assert [k, v][1..] == [v] && [v][1..] == [];
      assert SizeSum([v]) == HintSize(v) + SizeSum([]);
      assert SizeSum([k, v]) == HintSize(k) + SizeSum([v]);
    case LiteralOf(vs) =>
      LiteralArgsSize(vs);
    case _ =>
  }

  lemma {:induction false} LiteralArgsSize(vs: seq<Value>)
    ensures SizeSum(GetArgs(LiteralOf(vs))) == |vs|
    decreases |vs|
  {
    if |vs| > 0 {
      LiteralArgsSize(vs[1..]);
      assert GetArgs(LiteralOf(vs))[1..] == GetArgs(LiteralOf(vs[1..]));
    }
  }

  /** `helpers.resolve_hint`: `InitVar` and `Literal` aware. */
  function ResolveHint(h: Hint): (r: Result<Resolved, FlexError>)
    ensures r.Ok? ==> forall i :: 0 <= i < |r.value.args| ==> HintSize(r.value.args[i]) < HintSize(h)
    decreases HintSize(h)
  {
    match h
    case InitVarTuple(_) => Err(UnsupportedAnnotation)
    case InitVarOf(inner) => ResolveHint(inner)
    case BareInitVar => ResolveArgs(AnyHint, [], true)
    case _ =>
      ArgsSmaller(h);
      ResolveArgs(OriginOf(h), GetArgs(h), true)
  }

  /** The deserializer's `_resolve_hint`: no `InitVar` unwrapping and no `Literal` early return. */
  function ResolveHintPlain(h: Hint): (r: Result<Resolved, FlexError>)
    ensures r.Ok? ==> r.value.origin == OriginOf(h)
    ensures r.Ok? ==> forall i :: 0 <= i < |r.value.args| ==> HintSize(r.value.args[i]) < HintSize(h)
  {
    ArgsSmaller(h);
    ResolveArgs(OriginOf(h), GetArgs(h), false)
  }

  /** `InitVar[T]` resolves as `T`, `InitVar[A, B]` is refused and a bare `InitVar` stands for `Any`. */
  lemma ResolveInitVar(t: Hint, items: seq<Hint>)
    ensures ResolveHint(InitVarOf(t)) == ResolveHint(t)
    ensures ResolveHint(InitVarTuple(items)) == Err(UnsupportedAnnotation)
    ensures ResolveHint(BareInitVar) == Ok(Resolved(AnyHint, []))
  {
  }

  /** A `Literal` comes back with all its values, untouched by the union rules, however many there are. */
  lemma ResolveLiteral(vs: seq<Value>)
    ensures ResolveHint(LiteralOf(vs)) == Ok(Resolved(LiteralForm, GetArgs(LiteralOf(vs))))
  {
    var args := GetArgs(LiteralOf(vs));
    assert NoneType !in args by {
      forall i | 0 <= i < |args| ensures args[i] != NoneType {
        assert args[i] == Obj(vs[i]);
      }
    }
    WithoutNoneAbsent(args);
  }

  /** A `Dict[K, V]` keeps both arguments, `NoneType` included, with no union rule applied. */
  lemma ResolveDict(k: Hint, v: Hint)
    ensures ResolveHint(DictOf(k, v)) == Ok(Resolved(BareDict, [k, v]))
  {
  }
}

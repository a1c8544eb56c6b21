/**
 * Python type hints as the flex package sees them at runtime, together with
 * the classes and enums they name, `typing.get_origin`/`get_args`,
 * `isinstance` and the call `cls(**kwargs)`.
 */
module Hints {
  import opened Wrappers
  import opened PyValues

  datatype ScalarKind = BytesType | StrType | BoolType | IntType | FloatType

  /**
   * A type hint. `Obj(v)` is any non-type object written where a hint is
   * expected (`None`, a literal value, an enum member); `Cls(name)` is a
   * user class or enum, described in a `ClassTable`. `UnionOf` holds the
   * arguments `get_args` reports (Python has already flattened nested
   * unions and turned `None` into `NoneType`); `Optional[X]` is
   * `UnionOf([X, NoneType])`.
   */
  datatype Hint =
    | Obj(v: Value)
    | AnyHint
    | NoneType
    | Scalar(kind: ScalarKind)
    | BareList
    | BareDict
    | ListOf(elem: Hint)
    | DictOf(key: Hint, val: Hint)
    | UnionOf(members: seq<Hint>)
    | LiteralOf(values: seq<Value>)
    | Cls(name: string)
    | InitVarOf(inner: Hint)
    | InitVarTuple(items: seq<Hint>)
    | BareInitVar
    | UnionForm
    | LiteralForm

  /** One `__init__` parameter: its name, its annotation if it has one, and its default if it has one. */
  datatype Param = Param(name: string, annotation: Option<Hint>, default: Option<Value>)

  /** A user class (its `__init__` signature; abstract or not) or an enum (its members in definition order). */
  datatype TypeDef =
    | ClassDef(moduleName: string, params: seq<Param>, isAbstract: bool)
    | EnumDef(moduleName: string, members: seq<(string, Value)>)

  type ClassTable = map<string, TypeDef>

  /** The definition behind `Cls(name)`; a name the table does not describe is a plain class without annotations. */
  function Lookup(table: ClassTable, name: string): TypeDef
  {
    if name in table then table[name] else ClassDef("", [], false)
  }

  /** `inspect.isabstract(h)`. */
  predicate IsAbstract(h: Hint, table: ClassTable)
  {
    h.Cls? && Lookup(table, h.name).ClassDef? && Lookup(table, h.name).isAbstract
  }

  /** `hash(h)` succeeds: generic aliases and unions hash their arguments, literals their values. */
  predicate HashableHint(h: Hint)
  {
    match h
    case Obj(v) => Hashable(v)
    case ListOf(e) => HashableHint(e)
    case DictOf(k, v) => HashableHint(k) && HashableHint(v)
    case UnionOf(ms) => forall i :: 0 <= i < |ms| ==> HashableHint(ms[i])
    case LiteralOf(vs) => forall i :: 0 <= i < |vs| ==> Hashable(vs[i])
    case _ => true
  }

  /** `typing.get_origin(h)`. */
  function GetOrigin(h: Hint): Option<Hint>
  {
    match h
    case ListOf(_) => Some(BareList)
    case DictOf(_, _) => Some(BareDict)
    case UnionOf(_) => Some(UnionForm)
    case LiteralOf(_) => Some(LiteralForm)
    case _ => None
  }

  /** `typing.get_args(h)`. */
  function GetArgs(h: Hint): (args: seq<Hint>)
    ensures forall i :: 0 <= i < |args| ==> HintSize(args[i]) < HintSize(h)
  {
    match h
    case ListOf(e) => [e]
    case DictOf(k, v) => [k, v]
    case UnionOf(ms) => SumBoundsEach(ms); ms
    case LiteralOf(vs) => seq(|vs|, i requires 0 <= i < |vs| => Obj(vs[i]))
    case _ => []
  }

  /** `get_origin(h) or h`. */
  function OriginOf(h: Hint): Hint
  {
    if GetOrigin(h).Some? then GetOrigin(h).value else h
  }

  /** Structural size of a hint; arguments are always smaller than the hint they come from. */
  function HintSize(h: Hint): (n: nat)
    ensures n >= 1
  {
    match h
    case ListOf(e) => 1 + HintSize(e)
    case DictOf(k, v) => 1 + HintSize(k) + HintSize(v)
    case UnionOf(ms) => 1 + SizeSum(ms)
    case LiteralOf(vs) => 1 + |vs|
    case InitVarOf(inner) => 1 + HintSize(inner)
    case InitVarTuple(items) => 1 + SizeSum(items)
    case _ => 1
  }

  function SizeSum(hs: seq<Hint>): nat
  {
    if |hs| == 0 then 0 else HintSize(hs[0]) + SizeSum(hs[1..])
  }

  lemma {:induction false} SumBoundsEach(hs: seq<Hint>)
    ensures forall i :: 0 <= i < |hs| ==> HintSize(hs[i]) <= SizeSum(hs)
  {
    if |hs| > 0 {
      SumBoundsEach(hs[1..]);
      assert forall i :: 1 <= i < |hs| ==> hs[i] == hs[1..][i - 1];
    }
  }

  /** Two different positions of a sequence of hints together weigh no more than the whole sequence. */
  lemma {:induction false} SumBoundsPair(hs: seq<Hint>, i: nat, j: nat)
    requires i < j < |hs|
    ensures HintSize(hs[i]) + HintSize(hs[j]) <= SizeSum(hs)
  {
    if i == 0 {
      SumBoundsEach(hs[1..]);
      assert hs[j] == hs[1..][j - 1];
    } else {
      SumBoundsPair(hs[1..], i - 1, j - 1);
    }
  }

  /** The runtime class of a value, as a hint. */
  function ClassOf(v: Value): Hint
  {
    match v
    case VNone => NoneType
    case VBool(_) => Scalar(BoolType)
    case VInt(_) => Scalar(IntType)
    case VStr(_) => Scalar(StrType)
    case VBytes(_) => Scalar(BytesType)
    case VList(_) => BareList
    case VDict(_) => BareDict
    case VEnum(e, _) => Cls(e)
    case VObj(c, _) => Cls(c)
  }

  /** `inspect.isclass(h)`. */
  predicate IsClass(h: Hint)
  {
    h.NoneType? || h.Scalar? || h.BareList? || h.BareDict? || h.Cls? || h.BareInitVar?
  }

  /** `isinstance(v, c)` for a class `c`; `bool` is a subclass of `int`. User classes are related only to themselves. */
  predicate IsInstance(v: Value, c: Hint)
  {
    ClassOf(v) == c || (v.VBool? && c == Scalar(IntType))
  }

  // ------------------------------------------------------------ calling a class

  datatype CallError =
    | UnexpectedKeywords(unexpected: set<string>)
    | MissingArguments(missing: seq<string>)

  function ParamNames(params: seq<Param>): (names: seq<string>)
    ensures |names| == |params|
    ensures forall i :: 0 <= i < |params| ==> names[i] == params[i].name
  {
    seq(|params|, i requires 0 <= i < |params| => params[i].name)
  }

  /** Names of the annotated parameters: what `find_annotations(cls.__init__)` lists, `return` aside. */
  function AnnotatedNames(params: seq<Param>): (names: seq<string>)
    ensures forall n :: n in names <==> exists i :: 0 <= i < |params| && params[i].annotation.Some? && params[i].name == n
  {
    if |params| == 0 then []
    else
      var rest := AnnotatedNames(params[1..]);
      assert forall i :: 1 <= i < |params| ==> params[i] == params[1..][i - 1];
      if params[0].annotation.Some? then [params[0].name] + rest else rest
  }

  /** Required parameters that the keywords do not supply, in signature order. */
  function MissingParams(params: seq<Param>, kwargs: map<string, Value>): (missing: seq<string>)
    ensures forall n :: n in missing <==>
      exists i :: 0 <= i < |params| && params[i].name == n && n !in kwargs && params[i].default.None?
  {
    if |params| == 0 then []
    else
      var rest := MissingParams(params[1..], kwargs);
      assert forall i :: 1 <= i < |params| ==> params[i] == params[1..][i - 1];
      if params[0].name !in kwargs && params[0].default.None? then [params[0].name] + rest else rest
  }

  /** The attributes a dataclass-style `__init__` stores: every parameter, given or defaulted, in signature order. */
  function BindParams(params: seq<Param>, kwargs: map<string, Value>): (attrs: seq<(string, Value)>)
    requires MissingParams(params, kwargs) == []
    ensures |attrs| == |params|
    ensures forall i :: 0 <= i < |params| ==> attrs[i].0 == params[i].name
    ensures forall i :: 0 <= i < |params| ==>
      attrs[i].1 == if params[i].name in kwargs then kwargs[params[i].name] else params[i].default.value
  {
    if |params| == 0 then []
    else
      var p := params[0];
      var rest := BindParams(params[1..], kwargs);
      [(p.name, if p.name in kwargs then kwargs[p.name] else p.default.value)] + rest
  }

  /**
   * `cls(**kwargs)` for a class whose `__init__` stores each parameter as
   * an attribute. An unknown keyword is reported before missing arguments.
   */
  function Instantiate(cls: string, params: seq<Param>, kwargs: map<string, Value>): (r: Result<Value, CallError>)
    ensures r.Ok? <==> (forall k :: k in kwargs ==> k in ParamNames(params))
                       && (forall i :: 0 <= i < |params| ==> params[i].name in kwargs || params[i].default.Some?)
    ensures r.Err? && r.error.UnexpectedKeywords? ==>
      r.error.unexpected != {} && forall k :: k in r.error.unexpected <==> k in kwargs && k !in ParamNames(params)
    ensures r.Err? && r.error.MissingArguments? ==>
      (forall k :: k in kwargs ==> k in ParamNames(params)) && r.error.missing == MissingParams(params, kwargs)
    ensures r.Ok? ==> r.value.VObj? && r.value.cls == cls && Keys(r.value.attrs) == ParamNames(params)
    ensures r.Ok? ==> forall i :: 0 <= i < |params| && params[i].name in kwargs ==>
      r.value.attrs[i].1 == kwargs[params[i].name]
  {
    var unexpected := set k | k in kwargs && k !in ParamNames(params);
    if unexpected != {} then Err(UnexpectedKeywords(unexpected))
    else
      assert forall k :: k in kwargs ==> k in ParamNames(params) by {
        forall k | k in kwargs ensures k in ParamNames(params) {
          assert k !in unexpected;
        }
      }
      var missing := MissingParams(params, kwargs);
      if missing != [] then
        assert exists i :: 0 <= i < |params| && params[i].name !in kwargs && params[i].default.None? by {
          assert missing[0] in missing;
        }
        Err(MissingArguments(missing))
      else
        assert forall i :: 0 <= i < |params| ==> params[i].name in kwargs || params[i].default.Some? by {
          forall i | 0 <= i < |params| ensures params[i].name in kwargs || params[i].default.Some? {
            assert params[i].name !in missing;
          }
        }
        Ok(VObj(cls, BindParams(params, kwargs)))
  }
}

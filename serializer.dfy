/**
 * `SerializationMetadata`: the module and class name of a runtime type,
 * plus the metadata of fields whose concrete class has to be remembered so
 * that a payload can later be turned back into the same classes.
 */
module Serializer {
  import opened Wrappers
  import opened PyValues
  import opened Hints
  import opened FlexHelpers

  datatype Metadata = Metadata(moduleName: string, className: string, generics: seq<Hint>, additional: map<string, Metadata>)

  /** What `from_instance` may be handed: an ordinary object, or a class object. */
  datatype Instance = Of(v: Value) | ClassObject(c: Hint)

  datatype SerialError =
    | NoneInstance                  // `from_instance(None)`
    | NotAnInstance                 // a class object
    | MissingAttribute(name: string)
    | NoClassName                   // the origin has no `__module__`/`__name__` pair
    | ResolveFailed(error: FlexError)

  /** The dataclass defaults: no generics, no additional metadata. */
  function NewMetadata(moduleName: string, className: string): (m: Metadata)
    ensures m.moduleName == moduleName && m.className == className
    ensures m.generics == [] && m.additional == map[]
  {
    Metadata(moduleName, className, [], map[])
  }

  function ScalarName(k: ScalarKind): string
  {
    match k
    case BytesType => "bytes"
    case StrType => "str"
    case BoolType => "bool"
    case IntType => "int"
    case FloatType => "float"
  }

  /** `(c.__module__, c.__name__)` of a class; other hints have no such pair. */
  function ClassIdentity(c: Hint, table: ClassTable): (r: Option<(string, string)>)
    ensures r.Some? <==> IsClass(c)
    ensures c.Cls? ==> r == Some((Lookup(table, c.name).moduleName, c.name))
  {
    match c
    case NoneType => Some(("builtins", "NoneType"))
    case Scalar(k) => Some(("builtins", ScalarName(k)))
    case BareList => Some(("builtins", "list"))
    case BareDict => Some(("builtins", "dict"))
    case Cls(name) => Some((Lookup(table, name).moduleName, name))
    case BareInitVar => Some(("dataclasses", "InitVar"))
    case _ => None
  }

  /** Every value other than `None` has a runtime class with a name. */
  lemma RuntimeClassNamed(v: Value, table: ClassTable)
    requires !v.VNone?
    ensures ClassIdentity(ClassOf(v), table).Some?
  {
  }

  /** `find_annotations(cls)`: the annotated fields of a user class; builtins and enums have none. */
  function Fields(c: Hint, table: ClassTable): seq<(string, Hint)>
  {
    if c.Cls? && Lookup(table, c.name).ClassDef? then FieldsOf(Lookup(table, c.name).params) else []
  }

  /** The annotated parameters, in order, each with its annotation. */
  function FieldsOf(params: seq<Param>): seq<(string, Hint)>
    decreases |params|
  {
    if |params| == 0 then []
    else (if params[0].annotation.Some? then [(params[0].name, params[0].annotation.value)] else []) + FieldsOf(params[1..])
  }

  /** Only user classes have fields, and every field name is one of the class's annotated names. */
  lemma FieldsAnnotated(c: Hint, table: ClassTable)
    ensures forall i :: 0 <= i < |Fields(c, table)| ==>
      c.Cls? && Lookup(table, c.name).ClassDef? && Fields(c, table)[i].0 in AnnotatedNames(Lookup(table, c.name).params)
  {
    if c.Cls? && Lookup(table, c.name).ClassDef? {
      var params := Lookup(table, c.name).params;
      FieldsOfAnnotated(params);
      assert Fields(c, table) == FieldsOf(params);
    } else {
      assert Fields(c, table) == [];
    }
  }

  lemma {:induction false} FieldsOfAnnotated(params: seq<Param>)
    ensures forall i :: 0 <= i < |FieldsOf(params)| ==> FieldsOf(params)[i].0 in AnnotatedNames(params)
    decreases |params|
  {
    if |params| > 0 {
      FieldsOfAnnotated(params[1..]);
      var head: seq<(string, Hint)> := if params[0].annotation.Some? then [(params[0].name, params[0].annotation.value)] else [];
      assert FieldsOf(params) == head + FieldsOf(params[1..]);
      forall i | 0 <= i < |FieldsOf(params)| ensures FieldsOf(params)[i].0 in AnnotatedNames(params) {
        if i < |head| {
          assert FieldsOf(params)[i].0 == params[0].name;
        } else {
          var n := FieldsOf(params)[i].0;
          assert n == FieldsOf(params[1..])[i - |head|].0;
          var k :| 0 <= k < |params[1..]| && params[1..][k].annotation.Some? && params[1..][k].name == n;
          assert params[k + 1] == params[1..][k];
        }
      }
    }
  }

  /** `getattr(instance, name)`: objects carry their attributes, other values have no annotated ones. */
  function Attr(v: Value, name: string): (r: Option<Value>)
    ensures r.Some? ==> r.value < v
  {
    if v.VObj? then
      var r := Get(v.attrs, name);
      if r.Some? then
        assert (name, r.value) in v.attrs;
        r
      else r
    else None
  }

  /**
   * Whether field metadata is recorded. As written, the outer instance's
   * class is compared with the field's annotation; `byValueClass` selects
   * the comparison the code's own comment describes, the field value's
   * class against the annotation.
   */
  predicate Records(outer: Hint, fieldValue: Value, annotation: Hint, byValueClass: bool)
  {
    if byValueClass then ClassOf(fieldValue) != annotation else outer != annotation
  }

  /** The metadata of a value (`from_instance` on an object), with the chosen recording rule. */
  function Describe(v: Value, table: ClassTable, byValueClass: bool): (r: Result<Metadata, SerialError>)
    ensures r.Err? ==> r.error != NotAnInstance && r.error != NoClassName && !r.error.ResolveFailed?
    ensures v.VNone? ==> r == Err(NoneInstance)
    ensures r.Ok? ==> Some((r.value.moduleName, r.value.className)) == ClassIdentity(ClassOf(v), table)
    ensures r.Ok? ==> r.value.generics == []
    decreases v, 1
  {
    if v.VNone? then Err(NoneInstance)
    else
      var cls := ClassOf(v);
      var identity := ClassIdentity(cls, table).value;
      match Collect(v, cls, Fields(cls, table), 0, map[], table, byValueClass)
      case Err(e) => Err(e)
      case Ok(additional) => Ok(Metadata(identity.0, identity.1, [], additional))
  }

  /** The loop of `from_instance`, from field `i` on, with the metadata gathered so far in `acc`. */
  function Collect(v: Value, cls: Hint, fields: seq<(string, Hint)>, i: nat, acc: map<string, Metadata>,
                   table: ClassTable, byValueClass: bool): (r: Result<map<string, Metadata>, SerialError>)
    requires i <= |fields|
    ensures r.Err? ==> r.error != NotAnInstance && r.error != NoClassName && !r.error.ResolveFailed?
    decreases v, 0, |fields| - i
  {
    if i == |fields| then Ok(acc)
    else
      match Attr(v, fields[i].0)
      case None => Err(MissingAttribute(fields[i].0))
      case Some(x) =>
        if Records(cls, x, fields[i].1, byValueClass) then
          match Describe(x, table, byValueClass)
          case Err(e) => Err(e)
          case Ok(m) => Collect(v, cls, fields, i + 1, acc[fields[i].0 := m], table, byValueClass)
        else Collect(v, cls, fields, i + 1, acc, table, byValueClass)
  }

  /** `SerializationMetadata.from_instance` as written. */
  function FromInstance(x: Instance, table: ClassTable): (r: Result<Metadata, SerialError>)
    ensures x.ClassObject? ==> r == Err(NotAnInstance)
    ensures x == Of(VNone) ==> r == Err(NoneInstance)
    ensures r.Ok? ==> x.Of? && Some((r.value.moduleName, r.value.className)) == ClassIdentity(ClassOf(x.v), table)
  {
    match x
    case ClassObject(_) => Err(NotAnInstance)
    case Of(v) => Describe(v, table, false)
  }

  /** `from_instance` with the comparison its comment intends: a field is recorded when its value's class is not its annotation. */
  function FromInstanceIntended(x: Instance, table: ClassTable): (r: Result<Metadata, SerialError>)
    ensures x.ClassObject? ==> r == Err(NotAnInstance)
    ensures x == Of(VNone) ==> r == Err(NoneInstance)
    ensures r.Ok? ==> x.Of? && Some((r.value.moduleName, r.value.className)) == ClassIdentity(ClassOf(x.v), table)
  {
    match x
    case ClassObject(_) => Err(NotAnInstance)
    case Of(v) => Describe(v, table, true)
  }

  predicate DistinctNames(fields: seq<(string, Hint)>)
  {
    forall i, j :: 0 <= i < j < |fields| ==> fields[i].0 != fields[j].0
  }

  /** Names of the fields, from `i` on, that the recording rule selects (all of them having attributes). */
  function RecordedFrom(v: Value, cls: Hint, fields: seq<(string, Hint)>, i: nat, byValueClass: bool): set<string>
    requires i <= |fields|
    decreases |fields| - i
  {
    if i == |fields| then {}
    else if Selected(v, cls, fields[i], byValueClass) then {fields[i].0} + RecordedFrom(v, cls, fields, i + 1, byValueClass)
    else RecordedFrom(v, cls, fields, i + 1, byValueClass)
  }

  /** A name is recorded from position `i` on iff some selected field at or after `i` carries it. */
  lemma {:induction false} RecordedFromMembers(v: Value, cls: Hint, fields: seq<(string, Hint)>, i: nat, byValueClass: bool, k: string)
    requires i <= |fields|
    ensures k in RecordedFrom(v, cls, fields, i, byValueClass) <==>
              exists j :: i <= j < |fields| && fields[j].0 == k && Selected(v, cls, fields[j], byValueClass)
    decreases |fields| - i
  {
    if i < |fields| {
      RecordedFromMembers(v, cls, fields, i + 1, byValueClass, k);
    }
  }

  /** The field has an attribute and the recording rule selects it. */
  predicate Selected(v: Value, cls: Hint, field: (string, Hint), byValueClass: bool)
  {
    Attr(v, field.0).Some? && Records(cls, Attr(v, field.0).value, field.1, byValueClass)
  }

  /** A field that the loop accepts: its attribute exists, and its metadata succeeds when it is recorded. */
  predicate FieldOk(v: Value, cls: Hint, field: (string, Hint), table: ClassTable, byValueClass: bool)
  {
    Attr(v, field.0).Some?
    && (Records(cls, Attr(v, field.0).value, field.1, byValueClass) ==> Describe(Attr(v, field.0).value, table, byValueClass).Ok?)
  }

  /** One step of the loop over a recorded field whose metadata succeeds. */
  lemma CollectStepRecorded(v: Value, cls: Hint, fields: seq<(string, Hint)>, i: nat, acc: map<string, Metadata>,
                            table: ClassTable, byValueClass: bool)
    requires i < |fields| && Attr(v, fields[i].0).Some?
    requires Records(cls, Attr(v, fields[i].0).value, fields[i].1, byValueClass)
    requires Describe(Attr(v, fields[i].0).value, table, byValueClass).Ok?
    ensures Collect(v, cls, fields, i, acc, table, byValueClass)
            == Collect(v, cls, fields, i + 1, acc[fields[i].0 := Describe(Attr(v, fields[i].0).value, table, byValueClass).value],
                       table, byValueClass)
  {
  }

  /** One step of the loop over a field that is not recorded. */
  lemma CollectStepSkipped(v: Value, cls: Hint, fields: seq<(string, Hint)>, i: nat, acc: map<string, Metadata>,
                           table: ClassTable, byValueClass: bool)
    requires i < |fields| && Attr(v, fields[i].0).Some?
    requires !Records(cls, Attr(v, fields[i].0).value, fields[i].1, byValueClass)
    ensures Collect(v, cls, fields, i, acc, table, byValueClass) == Collect(v, cls, fields, i + 1, acc, table, byValueClass)
  {
  }

  /** A field the loop does not accept stops it with an error. */
  lemma CollectStepFails(v: Value, cls: Hint, fields: seq<(string, Hint)>, i: nat, acc: map<string, Metadata>,
                         table: ClassTable, byValueClass: bool)
    requires i < |fields| && !FieldOk(v, cls, fields[i], table, byValueClass)
    ensures Collect(v, cls, fields, i, acc, table, byValueClass).Err?
  {
  }

  /** The loop fails iff some field has no attribute or a recorded field's own metadata fails. */
  lemma {:induction false} CollectOk(v: Value, cls: Hint, fields: seq<(string, Hint)>, i: nat, acc: map<string, Metadata>,
                                     table: ClassTable, byValueClass: bool)
    requires i <= |fields|
    ensures Collect(v, cls, fields, i, acc, table, byValueClass).Ok? <==>
              forall j {:trigger FieldOk(v, cls, fields[j], table, byValueClass)} :: i <= j < |fields| ==> FieldOk(v, cls, fields[j], table, byValueClass)
    decreases |fields| - i
  {
    if i < |fields| {
      if FieldOk(v, cls, fields[i], table, byValueClass) {
        var x := Attr(v, fields[i].0).value;
        if Records(cls, x, fields[i].1, byValueClass) {
          CollectStepRecorded(v, cls, fields, i, acc, table, byValueClass);
          CollectOk(v, cls, fields, i + 1, acc[fields[i].0 := Describe(x, table, byValueClass).value], table, byValueClass);
        } else {
          CollectStepSkipped(v, cls, fields, i, acc, table, byValueClass);
          CollectOk(v, cls, fields, i + 1, acc, table, byValueClass);
        }
      } else {
        CollectStepFails(v, cls, fields, i, acc, table, byValueClass);
      }
    }
  }

  /** A loop that succeeds records exactly the selected fields on top of what it started from. */
  lemma {:induction false} CollectKeys(v: Value, cls: Hint, fields: seq<(string, Hint)>, i: nat, acc: map<string, Metadata>,
                                       table: ClassTable, byValueClass: bool)
    requires i <= |fields|
    requires Collect(v, cls, fields, i, acc, table, byValueClass).Ok?
    ensures Collect(v, cls, fields, i, acc, table, byValueClass).value.Keys == acc.Keys + RecordedFrom(v, cls, fields, i, byValueClass)
    decreases |fields| - i
  {
    if i < |fields| {
      var x := Attr(v, fields[i].0).value;
      if Records(cls, x, fields[i].1, byValueClass) {
        var m := Describe(x, table, byValueClass).value;
        CollectStepRecorded(v, cls, fields, i, acc, table, byValueClass);
        CollectKeys(v, cls, fields, i + 1, acc[fields[i].0 := m], table, byValueClass);
      } else {
        CollectStepSkipped(v, cls, fields, i, acc, table, byValueClass);
        CollectKeys(v, cls, fields, i + 1, acc, table, byValueClass);
      }
    }
  }

  /** A loop that succeeds keeps every entry it started from whose name no later field takes. */
  lemma {:induction false} CollectKeepsAcc(v: Value, cls: Hint, fields: seq<(string, Hint)>, i: nat, acc: map<string, Metadata>,
                                           table: ClassTable, byValueClass: bool, k: string)
    requires i <= |fields| && k in acc
    requires forall j :: i <= j < |fields| ==> fields[j].0 != k
    requires Collect(v, cls, fields, i, acc, table, byValueClass).Ok?
    ensures k in Collect(v, cls, fields, i, acc, table, byValueClass).value
    ensures Collect(v, cls, fields, i, acc, table, byValueClass).value[k] == acc[k]
    decreases |fields| - i
  {
    if i < |fields| {
      var x := Attr(v, fields[i].0).value;
      if Records(cls, x, fields[i].1, byValueClass) {
        var m := Describe(x, table, byValueClass).value;
        CollectStepRecorded(v, cls, fields, i, acc, table, byValueClass);
        CollectKeepsAcc(v, cls, fields, i + 1, acc[fields[i].0 := m], table, byValueClass, k);
      } else {
        CollectStepSkipped(v, cls, fields, i, acc, table, byValueClass);
        CollectKeepsAcc(v, cls, fields, i + 1, acc, table, byValueClass, k);
      }
    }
  }

  /** A loop that succeeds stores, under each recorded field's name, the metadata of that field's value. */
  lemma {:induction false} CollectValues(v: Value, cls: Hint, fields: seq<(string, Hint)>, i: nat, acc: map<string, Metadata>,
                                         table: ClassTable, byValueClass: bool, j: nat)
    requires i <= j < |fields| && DistinctNames(fields)
    requires Collect(v, cls, fields, i, acc, table, byValueClass).Ok?
    requires Attr(v, fields[j].0).Some? && Records(cls, Attr(v, fields[j].0).value, fields[j].1, byValueClass)
    ensures fields[j].0 in Collect(v, cls, fields, i, acc, table, byValueClass).value
    ensures Ok(Collect(v, cls, fields, i, acc, table, byValueClass).value[fields[j].0])
            == Describe(Attr(v, fields[j].0).value, table, byValueClass)
    decreases |fields| - i
  {
    var x := Attr(v, fields[i].0).value;
    if Records(cls, x, fields[i].1, byValueClass) {
      var m := Describe(x, table, byValueClass).value;
      CollectStepRecorded(v, cls, fields, i, acc, table, byValueClass);
      if j == i {
        CollectKeepsAcc(v, cls, fields, i + 1, acc[fields[i].0 := m], table, byValueClass, fields[i].0);
      } else {
        CollectValues(v, cls, fields, i + 1, acc[fields[i].0 := m], table, byValueClass, j);
      }
    } else {
      CollectStepSkipped(v, cls, fields, i, acc, table, byValueClass);
      CollectValues(v, cls, fields, i + 1, acc, table, byValueClass, j);
    }
  }

  /**
   * `from_instance` succeeds iff every annotated field is present and every
   * recorded field can itself be described; each recorded field's entry is
   * the metadata of its value.
   */
  lemma DescribeFields(v: Value, table: ClassTable, byValueClass: bool)
    requires !v.VNone? && DistinctNames(Fields(ClassOf(v), table))
    ensures var fields := Fields(ClassOf(v), table);
            Describe(v, table, byValueClass).Ok? <==>
              forall j :: 0 <= j < |fields| ==> FieldOk(v, ClassOf(v), fields[j], table, byValueClass)
    ensures var fields := Fields(ClassOf(v), table);
            var r := Describe(v, table, byValueClass);
            r.Ok? ==> forall j :: 0 <= j < |fields| && Selected(v, ClassOf(v), fields[j], byValueClass) ==>
                        fields[j].0 in r.value.additional
                        && Ok(r.value.additional[fields[j].0]) == Describe(Attr(v, fields[j].0).value, table, byValueClass)
  {
    var cls := ClassOf(v);
    var fields := Fields(cls, table);
    CollectOk(v, cls, fields, 0, map[], table, byValueClass);
    if Collect(v, cls, fields, 0, map[], table, byValueClass).Ok? {
      forall j | 0 <= j < |fields| && Selected(v, cls, fields[j], byValueClass)
        ensures fields[j].0 in Collect(v, cls, fields, 0, map[], table, byValueClass).value
        ensures Ok(Collect(v, cls, fields, 0, map[], table, byValueClass).value[fields[j].0])
                == Describe(Attr(v, fields[j].0).value, table, byValueClass)
      {
        CollectValues(v, cls, fields, 0, map[], table, byValueClass, j);
      }
    }
  }

  /** `additional_metadata` only ever names annotated fields of the instance's class. */
  lemma AdditionalKeysAnnotated(v: Value, table: ClassTable, byValueClass: bool)
    requires !v.VNone? && DistinctNames(Fields(ClassOf(v), table))
    ensures Describe(v, table, byValueClass).Ok? ==>
              forall k :: k in Describe(v, table, byValueClass).value.additional ==>
                ClassOf(v).Cls? && Lookup(table, ClassOf(v).name).ClassDef?
                && k in AnnotatedNames(Lookup(table, ClassOf(v).name).params)
  {
    var cls := ClassOf(v);
    var fields := Fields(cls, table);
    var r := Collect(v, cls, fields, 0, map[], table, byValueClass);
    if r.Ok? {
      CollectKeys(v, cls, fields, 0, map[], table, byValueClass);
      forall k | k in r.value
        ensures cls.Cls? && Lookup(table, cls.name).ClassDef? && k in AnnotatedNames(Lookup(table, cls.name).params)
      {
        assert k in RecordedFrom(v, cls, fields, 0, byValueClass);
        RecordedFromMembers(v, cls, fields, 0, byValueClass, k);
        var j :| 0 <= j < |fields| && fields[j].0 == k && Selected(v, cls, fields[j], byValueClass);
        FieldsAnnotated(cls, table);
      }
    }
  }

  /**
   * The method `from_instance` runs: the loop over the annotated fields,
   * recursing into recorded field values.
   */
  method FromValueLoop(v: Value, table: ClassTable) returns (r: Result<Metadata, SerialError>)
    ensures r == Describe(v, table, false)
    decreases v
  {
    if v.VNone? {
      return Err(NoneInstance);
    }
    var actualType := ClassOf(v);
    var fields := Fields(actualType, table);
    var additional: map<string, Metadata> := map[];
    for i := 0 to |fields|
      invariant Collect(v, actualType, fields, i, additional, table, false) == Collect(v, actualType, fields, 0, map[], table, false)
    {
      var (argumentName, annotatedType) := fields[i];
      var value := Attr(v, argumentName);
      if value.None? {
        return Err(MissingAttribute(argumentName));
      }
      if actualType != annotatedType {
        var nested := FromValueLoop(value.value, table);
        if nested.Err? {
          return Err(nested.error);
        }
        additional := additional[argumentName := nested.value];
      }
    }
    var identity := ClassIdentity(actualType, table).value;
    return Ok(Metadata(identity.0, identity.1, [], additional));
  }

  /** `SerializationMetadata.from_annotations`: the origin `resolve_hint` finds, named, with its args as generics. */
  function FromAnnotations(h: Hint, table: ClassTable): (r: Result<Metadata, SerialError>)
    ensures ResolveHint(h).Err? ==> r == Err(ResolveFailed(ResolveHint(h).error))
    ensures r.Ok? ==> ResolveHint(h).Ok? && r.value.generics == ResolveHint(h).value.args && r.value.additional == map[]
    ensures r.Ok? ==> Some((r.value.moduleName, r.value.className)) == ClassIdentity(ResolveHint(h).value.origin, table)
    ensures ResolveHint(h).Ok? ==> (r.Ok? <==> IsClass(ResolveHint(h).value.origin))
  {
    match ResolveHint(h)
    case Err(e) => Err(ResolveFailed(e))
    case Ok(Resolved(origin, args)) =>
      match ClassIdentity(origin, table)
      case None => Err(NoClassName)
      case Some(identity) => Ok(Metadata(identity.0, identity.1, args, map[]))
  }

  /**
   * `from_annotations(List[C])` names `list` and keeps `C` as its generic;
   * `InitVar[C]` names `C` itself; `Optional[C]` is a union, whose origin
   * is not a class, so no name is found for it.
   */
  lemma FromAnnotationsExamples(name: string, table: ClassTable)
    ensures FromAnnotations(ListOf(Cls(name)), table) == Ok(Metadata("builtins", "list", [Cls(name)], map[]))
    ensures FromAnnotations(UnionOf([Cls(name), NoneType]), table).Err?
    ensures FromAnnotations(InitVarOf(Cls(name)), table) == FromAnnotations(Cls(name), table)
    ensures FromAnnotations(Cls(name), table) == Ok(Metadata(Lookup(table, name).moduleName, name, [], map[]))
  {
    FromAnnotationsList(name, table);
    FromAnnotationsOptional(name, table);
    FromAnnotationsClass(name, table);
    ResolveInitVar(Cls(name), []);
  }

  lemma FromAnnotationsList(name: string, table: ClassTable)
    ensures FromAnnotations(ListOf(Cls(name)), table) == Ok(Metadata("builtins", "list", [Cls(name)], map[]))
  {
    assert WithoutNone([Cls(name)]) == [Cls(name)] by {
      assert [Cls(name)][1..] == [];
    }
    ResolveRules(BareList, [Cls(name)], true);
  }

  lemma FromAnnotationsOptional(name: string, table: ClassTable)
    ensures FromAnnotations(UnionOf([Cls(name), NoneType]), table).Err?
  {
    assert WithoutNone([Cls(name), NoneType]) == [Cls(name)] by {
      assert [Cls(name), NoneType][1..] == [NoneType];
      assert [NoneType][1..] == [];
    }
    ResolveRules(UnionForm, [Cls(name), NoneType], true);
    assert ResolveHint(UnionOf([Cls(name), NoneType])) == Ok(Resolved(UnionForm, [Cls(name)]));
  }

  lemma FromAnnotationsClass(name: string, table: ClassTable)
    ensures FromAnnotations(Cls(name), table) == Ok(Metadata(Lookup(table, name).moduleName, name, [], map[]))
  {
    assert WithoutNone([]) == [];
    ResolveRules(Cls(name), [], true);
  }

  // ------------------------------------------------------------ the recording rule

  /**
   * Two fields that show `actual_type is not annotated_type` at work: `b: B` holding
   * a `B` is recorded although its value is exactly of the annotated class,
   * and `a: A` inside an `A`, holding a `C`, is not recorded although the
   * value's class differs from the annotation.
   */
  lemma AsWrittenRecordsByOuterClass()
    ensures var table := map["A" := ClassDef("m", [Param("b", Some(Cls("B")), None), Param("a", Some(Cls("A")), None)], false),
                             "B" := ClassDef("m", [], false),
                             "C" := ClassDef("m", [], false)];
            var v := VObj("A", [("b", VObj("B", [])), ("a", VObj("C", []))]);
            FromInstance(Of(v), table) == Ok(Metadata("m", "A", [], map["b" := Metadata("m", "B", [], map[])]))
            && FromInstanceIntended(Of(v), table) == Ok(Metadata("m", "A", [], map["a" := Metadata("m", "C", [], map[])]))
  {
    var table := map["A" := ClassDef("m", [Param("b", Some(Cls("B")), None), Param("a", Some(Cls("A")), None)], false),
                     "B" := ClassDef("m", [], false),
                     "C" := ClassDef("m", [], false)];
    var params := [Param("b", Some(Cls("B")), None), Param("a", Some(Cls("A")), None)];
    var b := VObj("B", []);
    var c := VObj("C", []);
    var v := VObj("A", [("b", b), ("a", c)]);
    assert params[1..] == [Param("a", Some(Cls("A")), None)];
    assert params[1..][1..] == [];
    var fields := [("b", Cls("B")), ("a", Cls("A"))];
    assert Fields(Cls("A"), table) == fields;
    assert Fields(Cls("B"), table) == [] && Fields(Cls("C"), table) == [];
    assert Get(v.attrs, "b") == Some(b);
    assert v.attrs[1..] == [("a", c)];
    assert Get(v.attrs, "a") == Some(c);
    assert Describe(b, table, false) == Ok(Metadata("m", "B", [], map[]));
    assert Describe(c, table, true) == Ok(Metadata("m", "C", [], map[]));
    assert Collect(v, Cls("A"), fields, 2, map["b" := Metadata("m", "B", [], map[])], table, false)
        == Ok(map["b" := Metadata("m", "B", [], map[])]);
    assert Collect(v, Cls("A"), fields, 0, map[], table, false) == Ok(map["b" := Metadata("m", "B", [], map[])]);
    assert Collect(v, Cls("A"), fields, 2, map["a" := Metadata("m", "C", [], map[])], table, true)
        == Ok(map["a" := Metadata("m", "C", [], map[])]);
    assert Collect(v, Cls("A"), fields, 1, map[], table, true) == Ok(map["a" := Metadata("m", "C", [], map[])]);
    assert Collect(v, Cls("A"), fields, 0, map[], table, true) == Ok(map["a" := Metadata("m", "C", [], map[])]);
  }

  /** With the intended rule, a field is recorded iff its value's class is not its annotation. */
  lemma IntendedRecordsByValueClass(v: Value, table: ClassTable)
    requires !v.VNone? && DistinctNames(Fields(ClassOf(v), table))
    ensures var r := FromInstanceIntended(Of(v), table);
            var fields := Fields(ClassOf(v), table);
            r.Ok? ==>
              forall j :: 0 <= j < |fields| ==>
                Attr(v, fields[j].0).Some?
                && (fields[j].0 in r.value.additional <==> ClassOf(Attr(v, fields[j].0).value) != fields[j].1)
  {
    var cls := ClassOf(v);
    var fields := Fields(cls, table);
    var r := Collect(v, cls, fields, 0, map[], table, true);
    if r.Ok? {
      CollectOk(v, cls, fields, 0, map[], table, true);
      CollectKeys(v, cls, fields, 0, map[], table, true);
      forall j | 0 <= j < |fields|
        ensures Attr(v, fields[j].0).Some?
        ensures fields[j].0 in r.value <==> ClassOf(Attr(v, fields[j].0).value) != fields[j].1
      {
        assert FieldOk(v, cls, fields[j], table, true);
        RecordedFromMembers(v, cls, fields, 0, true, fields[j].0);
        if fields[j].0 in r.value {
          var k :| 0 <= k < |fields| && fields[k].0 == fields[j].0 && Selected(v, cls, fields[k], true);
          assert k == j;
        }
      }
    }
  }
}

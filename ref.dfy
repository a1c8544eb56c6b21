/**
 * `coveo_ref._PythonReference`: a frozen record naming a Python symbol by
 * its module, its symbol in that module and the dotted attributes under the
 * symbol, with the string operations built on it, and the check `ref`
 * makes before answering for `mock.patch.object`.
 *
 * Python's truthiness of an optional string (neither `None` nor empty) is
 * `Truthy`.
 */
module Ref {
  import opened Wrappers
  import opened Text

  datatype Reference = Reference(moduleName: string, symbolName: Option<string>, attributes: Option<string>)

  datatype RefError =
    | CannotFindSymbol
      /** `UsageError` for `obj=True` on a reference without attributes; the message names the reference. */
    | NoAttribute(reference: string)
      /** `UsageError` for `obj=True` without an instance to patch. */
    | NoInstanceContext

  predicate Truthy(s: Option<string>)
  {
    s.Some? && s.value != ""
  }

  /** `filter(bool, (module_name, symbol_name, attributes))`. */
  function Parts(r: Reference): (parts: seq<string>)
    ensures forall k :: 0 <= k < |parts| ==> parts[k] != ""
    ensures r.moduleName != "" && Truthy(r.symbolName) && Truthy(r.attributes) ==>
              parts == [r.moduleName, r.symbolName.value, r.attributes.value]
  {
    (if r.moduleName != "" then [r.moduleName] else [])
    + (if Truthy(r.symbolName) then [r.symbolName.value] else [])
    + (if Truthy(r.attributes) then [r.attributes.value] else [])
  }

  /** `fully_qualified_name`, also `str(reference)`: the parts that are set, joined with `.`. */
  function FullyQualifiedName(r: Reference): (name: string)
    ensures r.moduleName != "" ==> |r.moduleName| <= |name| && name[..|r.moduleName|] == r.moduleName
    ensures name == "" <==> Parts(r) == []
  {
    Join(".", Parts(r))
  }

  /** `attributes_split`: nothing without attributes, otherwise the attributes split at `.`. */
  function AttributesSplit(r: Reference): (names: seq<string>)
    ensures Truthy(r.attributes) ==> |names| >= 1 && Join(".", names) == r.attributes.value
    ensures forall k :: 0 <= k < |names| ==> '.' !in names[k]
  {
    if !Truthy(r.attributes) then []
    else
      JoinSplit(r.attributes.value, '.');
      SplitPiecesFree(r.attributes.value, '.');
      Split(r.attributes.value, '.')
  }

  /** `nested_attributes`: the attribute names but the last. */
  function NestedAttributes(r: Reference): (names: seq<string>)
    ensures |names| == if Truthy(r.attributes) then |AttributesSplit(r)| - 1 else 0
    ensures forall k :: 0 <= k < |names| ==> names[k] == AttributesSplit(r)[k] && '.' !in names[k]
  {
    var names := AttributesSplit(r);
    if |names| == 0 then [] else names[..|names| - 1]
  }

  /** `last_attribute` as written: `self.attributes[-1]`, the last character of the dotted attributes. */
  function LastAttributeAsWritten(r: Reference): (last: Option<string>)
    ensures last.Some? <==> Truthy(r.attributes)
    ensures last.Some? ==> |last.value| == 1
  {
    if !Truthy(r.attributes) then None
    else
      var a := r.attributes.value;
      Some([a[|a| - 1]])
  }

  /** `last_attribute` as documented: the last name of the nested attributes. */
  function LastAttribute(r: Reference): (last: Option<string>)
    ensures last.Some? <==> Truthy(r.attributes)
    ensures last.Some? ==> '.' !in last.value
  {
    var names := AttributesSplit(r);
    if |names| == 0 then None else Some(names[|names| - 1])
  }

  /** The nested attributes and the last attribute make up the attributes again. */
  lemma NestedAndLast(r: Reference)
    requires Truthy(r.attributes)
    ensures NestedAttributes(r) + [LastAttribute(r).value] == AttributesSplit(r)
    ensures Join(".", NestedAttributes(r) + [LastAttribute(r).value]) == r.attributes.value
  {
    var names := AttributesSplit(r);
    assert names[..|names| - 1] + [names[|names| - 1]] == names;
  }

  /** The documented example: for `MyClass.NestedClass.attribute` the code answers `"e"`, not `"attribute"`. */
  lemma LastAttributeCharacter()
    ensures var r := Reference("module", Some("MyClass"), Some("NestedClass.attribute"));
            LastAttributeAsWritten(r) == Some("e") && LastAttribute(r) == Some("attribute")
  {
    var r := Reference("module", Some("MyClass"), Some("NestedClass.attribute"));
    ExampleLastCharacter(r);
    ExampleLastName(r);
  }

  lemma ExampleLastCharacter(r: Reference)
    requires r.attributes == Some("NestedClass.attribute")
    ensures LastAttributeAsWritten(r) == Some("e")
  {
    var a := r.attributes.value;
    assert a[|a| - 1] == 'e';
  }

  lemma ExampleLastName(r: Reference)
    requires r.attributes == Some("NestedClass.attribute")
    ensures LastAttribute(r) == Some("attribute")
  {
    var a := r.attributes.value;
    assert a == "NestedClass" + "." + "attribute";
    assert Join(".", ["NestedClass", "attribute"]) == a by {
      assert ["NestedClass", "attribute"][1..] == ["attribute"];
    }
    SplitJoin('.', ["NestedClass", "attribute"]);
    assert AttributesSplit(r) == ["NestedClass", "attribute"];
  }

  /** The two agree only when the last attribute name is a single character. */
  lemma LastAttributeDiffers(r: Reference)
    requires Truthy(r.attributes)
    ensures LastAttributeAsWritten(r) == LastAttribute(r) <==> |LastAttribute(r).value| == 1
  {
    NestedAndLast(r);
    var a := r.attributes.value;
    var last := LastAttribute(r).value;
    var nested := NestedAttributes(r);
    if |last| == 1 {
      if |nested| == 0 {
        assert a == last;
      } else {
        JoinAppend(".", nested, [last]);
        assert a == Join(".", nested) + "." + last;
      }
      assert a[|a| - 1] == last[0];
      assert [last[0]] == last;
    }
  }

  /** `with_module`: the same symbol and attributes in another module. */
  function WithModule(r: Reference, other: string): (r': Reference)
    ensures r'.moduleName == other && r'.symbolName == r.symbolName && r'.attributes == r.attributes
  {
    r.(moduleName := other)
  }

  /** `with_symbol`: another symbol of the same module, with the same attributes. */
  function WithSymbol(r: Reference, symbol: string): (r': Reference)
    ensures r'.moduleName == r.moduleName && r'.symbolName == Some(symbol) && r'.attributes == r.attributes
  {
    r.(symbolName := Some(symbol))
  }

  /** `with_attributes(*attributes, keep_nested_attributes=keep)`. */
  function WithAttributes(r: Reference, attributes: seq<string>, keep: bool): (r': Reference)
    ensures r'.moduleName == r.moduleName && r'.symbolName == r.symbolName
    ensures r'.attributes.Some?
  {
    var names := (if keep then NestedAttributes(r) else []) + attributes;
    Reference(r.moduleName, r.symbolName, Some(Join(".", names)))
  }

  /** Names that join and split back: not empty and without `.`. */
  predicate PlainNames(names: seq<string>)
  {
    forall k :: 0 <= k < |names| ==> names[k] != "" && '.' !in names[k]
  }

  /** The new attributes read back as the kept nested attributes followed by the given ones. */
  lemma WithAttributesSplit(r: Reference, attributes: seq<string>, keep: bool)
    requires PlainNames((if keep then NestedAttributes(r) else []) + attributes)
    ensures AttributesSplit(WithAttributes(r, attributes, keep)) ==
              (if keep then NestedAttributes(r) else []) + attributes
  {
    var names := (if keep then NestedAttributes(r) else []) + attributes;
    if |names| > 0 {
      SplitJoin('.', names);
      assert Join(".", names) != "" by {
        if |names| == 1 {
          assert Join(".", names) == names[0];
        } else {
          assert Join(".", names) == names[0] + "." + Join(".", names[1..]);
        }
      }
    }
  }

  /** Keeping the nested attributes and giving one name replaces just the last attribute. */
  lemma WithAttributesReplacesLast(r: Reference, name: string)
    requires Truthy(r.attributes)
    requires PlainNames(NestedAttributes(r) + [name])
    ensures NestedAttributes(WithAttributes(r, [name], true)) == NestedAttributes(r)
    ensures LastAttribute(WithAttributes(r, [name], true)) == Some(name)
  {
    WithAttributesSplit(r, [name], true);
    var names := NestedAttributes(r) + [name];
    assert names[..|names| - 1] == NestedAttributes(r);
  }

  /** `from_qualifiers(module_name, *qualifiers)`. */
  function FromQualifiers(moduleName: string, qualifiers: seq<string>): (r: Result<Reference, RefError>)
    ensures r.Err? <==> '<' in moduleName || exists k :: 0 <= k < |qualifiers| && '<' in qualifiers[k]
    ensures r.Err? ==> r.error == CannotFindSymbol
    ensures r.Ok? ==> r.value.moduleName == moduleName
    ensures r.Ok? && (forall k :: 0 <= k < |qualifiers| ==> qualifiers[k] == "") ==>
              r.value == Reference(moduleName, None, None)
  {
    if '<' in moduleName || exists k :: 0 <= k < |qualifiers| && '<' in qualifiers[k] then Err(CannotFindSymbol)
    else if forall k :: 0 <= k < |qualifiers| ==> qualifiers[k] == "" then Ok(Reference(moduleName, None, None))
    else if |qualifiers| == 1 then Ok(Reference(moduleName, Some(qualifiers[0]), None))
    else Ok(Reference(moduleName, Some(qualifiers[0]), Some(Join(".", qualifiers[1..]))))
  }

  /** Plain names never join to the empty string. */
  lemma {:induction false} JoinPlainNames(names: seq<string>)
    requires |names| >= 1 && PlainNames(names)
    ensures Join(".", names) != ""
    ensures '.' in Join(".", names) <==> |names| > 1
  {
    if |names| > 1 {
      assert Join(".", names) == names[0] + "." + Join(".", names[1..]);
      assert Join(".", names)[|names[0]|] == '.';
    } else {
      assert Join(".", names) == names[0];
    }
  }

  /** A symbol and, past the first qualifier, the others joined as attributes. */
  lemma FromQualifiersShape(moduleName: string, qualifiers: seq<string>)
    requires '<' !in moduleName
    requires |qualifiers| >= 1 && PlainNames(qualifiers)
    requires forall k :: 0 <= k < |qualifiers| ==> '<' !in qualifiers[k]
    ensures FromQualifiers(moduleName, qualifiers) ==
              Ok(Reference(moduleName, Some(qualifiers[0]),
                           if |qualifiers| == 1 then None else Some(Join(".", qualifiers[1..]))))
  {
    assert qualifiers[0] != "";
  }

  /**
   * A qualified name read back: for plain qualifiers the symbol is the first
   * qualifier and the attribute names are the others.
   */
  lemma FromQualifiersName(moduleName: string, qualifiers: seq<string>)
    requires '<' !in moduleName
    requires |qualifiers| >= 1 && PlainNames(qualifiers)
    requires forall k :: 0 <= k < |qualifiers| ==> '<' !in qualifiers[k]
    ensures FromQualifiers(moduleName, qualifiers).Ok?
    ensures FromQualifiers(moduleName, qualifiers).value.symbolName == Some(qualifiers[0])
    ensures AttributesSplit(FromQualifiers(moduleName, qualifiers).value) == qualifiers[1..]
  {
    FromQualifiersShape(moduleName, qualifiers);
    if |qualifiers| > 1 {
      JoinPlainNames(qualifiers[1..]);
      SplitJoin('.', qualifiers[1..]);
    }
  }

  /** The reference's full name is the module and the qualifiers joined with `.`. */
  lemma FromQualifiersFullName(moduleName: string, qualifiers: seq<string>)
    requires moduleName != "" && '<' !in moduleName
    requires |qualifiers| >= 1 && PlainNames(qualifiers)
    requires forall k :: 0 <= k < |qualifiers| ==> '<' !in qualifiers[k]
    ensures FromQualifiers(moduleName, qualifiers).Ok?
    ensures FullyQualifiedName(FromQualifiers(moduleName, qualifiers).value) == Join(".", [moduleName] + qualifiers)
  {
    FromQualifiersShape(moduleName, qualifiers);
    var r := FromQualifiers(moduleName, qualifiers).value;
    var all := [moduleName] + qualifiers;
    if |qualifiers| == 1 {
      assert Parts(r) == all;
    } else {
      var rest := qualifiers[1..];
      var a := Join(".", rest);
      JoinPlainNames(rest);
      var parts := [moduleName, qualifiers[0], a];
      assert Parts(r) == parts;
      JoinSplitAt(".", all, 2);
      JoinSplitAt(".", parts, 2);
      assert all[..2] == parts[..2] && all[2..] == rest && parts[2..] == [a];
    }
  }

  /** A full name built from a plain module and plain qualifiers splits back into them. */
  lemma FromQualifiersSplit(moduleName: string, qualifiers: seq<string>)
    requires moduleName != "" && '<' !in moduleName && '.' !in moduleName
    requires |qualifiers| >= 1 && PlainNames(qualifiers)
    requires forall k :: 0 <= k < |qualifiers| ==> '<' !in qualifiers[k]
    ensures FromQualifiers(moduleName, qualifiers).Ok?
    ensures Split(FullyQualifiedName(FromQualifiers(moduleName, qualifiers).value), '.') == [moduleName] + qualifiers
  {
    FromQualifiersFullName(moduleName, qualifiers);
    var all := [moduleName] + qualifiers;
    assert forall k :: 0 <= k < |all| ==> '.' !in all[k];
    SplitJoin('.', all);
  }

  /** An object, as far as `ref` looks at it: a class, or any other object. */
  datatype Obj = ClassObj(name: string) | InstanceObj(id: nat)

  /** The context given, or else the target's `__self__`. */
  function ChosenContext(context: Option<Obj>, boundSelf: Option<Obj>): Option<Obj>
  {
    if context.Some? then context else boundSelf
  }

  /**
   * `ref(target, context=context, obj=True)` once the target's reference is
   * known: the reference needs attributes, and the context (by default the
   * target's `__self__`) must be an instance unless the check is bypassed.
   */
  function PatchObject(source: Reference, context: Option<Obj>, boundSelf: Option<Obj>, bypass: bool)
    : (r: Result<(Option<Obj>, string), RefError>)
    ensures !Truthy(source.attributes) <==> r == Err(NoAttribute(FullyQualifiedName(source)))
    ensures r.Ok? ==> r.value.1 == source.attributes.value
    ensures r.Ok? ==> r.value.0 == ChosenContext(context, boundSelf)
    ensures r.Ok? && !bypass ==> r.value.0.Some? && r.value.0.value.InstanceObj?
    ensures r == Err(NoInstanceContext) <==>
              Truthy(source.attributes) && !bypass &&
              (ChosenContext(context, boundSelf).None? || ChosenContext(context, boundSelf).value.ClassObj?)
  {
    if !Truthy(source.attributes) then Err(NoAttribute(FullyQualifiedName(source)))
    else
      var ctx := ChosenContext(context, boundSelf);
      if (ctx.None? || ctx.value.ClassObj?) && !bypass then Err(NoInstanceContext)
      else Ok((ctx, source.attributes.value))
  }

  /** A function defined at module level has no attributes, so it can never be patched on an object. */
  lemma ModuleLevelNotPatchable(moduleName: string, name: string, context: Option<Obj>, boundSelf: Option<Obj>, bypass: bool)
    requires FromQualifiers(moduleName, [name]).Ok?
    ensures PatchObject(FromQualifiers(moduleName, [name]).value, context, boundSelf, bypass).Err?
  {
  }
}

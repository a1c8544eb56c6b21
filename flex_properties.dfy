/** What `deserialize` promises, stated over the model of `deserializer.py`. */
module FlexProperties {
  import opened Wrappers
  import opened PyValues
  import opened Hints
  import opened FlexTypes
  import opened FlexHelpers
  import opened Casing
  import opened FlexDeserializer

  // ------------------------------------------------------------ comprehensions

  /** The list comprehension succeeds iff every item does. */
  lemma {:induction false} ItemsOk(v: Value, i: nat, c: Hint, env: Env, fuel: nat)
    requires v.VList? && i <= |v.items|
    ensures DeserializeItems(v, i, c, env, fuel).Ok? <==>
              forall j :: i <= j < |v.items| ==> Deserialize(v.items[j], c, env, fuel).Ok?
    decreases |v.items| - i
  {
    if i < |v.items| {
      ItemsOk(v, i + 1, c, env, fuel);
      ItemsStep(v, i, c, env, fuel);
      assert (forall j :: i <= j < |v.items| ==> Deserialize(v.items[j], c, env, fuel).Ok?) <==>
             Deserialize(v.items[i], c, env, fuel).Ok? &&
             (forall j :: i + 1 <= j < |v.items| ==> Deserialize(v.items[j], c, env, fuel).Ok?);
    }
  }

  /** One step of the list comprehension: the item at `i`, then the rest. */
  lemma ItemsStep(v: Value, i: nat, c: Hint, env: Env, fuel: nat)
    requires v.VList? && i < |v.items|
    ensures DeserializeItems(v, i, c, env, fuel).Ok? <==>
              Deserialize(v.items[i], c, env, fuel).Ok? && DeserializeItems(v, i + 1, c, env, fuel).Ok?
    ensures DeserializeItems(v, i, c, env, fuel).Ok? ==>
              DeserializeItems(v, i, c, env, fuel).value ==
                [Deserialize(v.items[i], c, env, fuel).value] + DeserializeItems(v, i + 1, c, env, fuel).value
  {
  }

  /** A list comprehension that succeeds holds each item's result in place. */
  lemma {:induction false} ItemsValues(v: Value, i: nat, c: Hint, env: Env, fuel: nat)
    requires v.VList? && i <= |v.items| && DeserializeItems(v, i, c, env, fuel).Ok?
    ensures var out := DeserializeItems(v, i, c, env, fuel).value;
            |out| == |v.items| - i &&
            forall j :: i <= j < |v.items| ==> Ok(out[j - i]) == Deserialize(v.items[j], c, env, fuel)
    decreases |v.items| - i
  {
    if i < |v.items| {
      ItemsValues(v, i + 1, c, env, fuel);
    }
  }

  /** The dict comprehension succeeds iff every value does. */
  lemma {:induction false} EntriesOk(v: Value, i: nat, c: Hint, env: Env, fuel: nat)
    requires v.VDict? && i <= |v.entries|
    ensures DeserializeEntries(v, i, c, env, fuel).Ok? <==>
              forall j :: i <= j < |v.entries| ==> Deserialize(v.entries[j].1, c, env, fuel).Ok?
    decreases |v.entries| - i
  {
    if i < |v.entries| {
      EntriesOk(v, i + 1, c, env, fuel);
    }
  }

  /** A dict comprehension that succeeds keeps every key, in order, beside its value's result. */
  lemma {:induction false} EntriesValues(v: Value, i: nat, c: Hint, env: Env, fuel: nat)
    requires v.VDict? && i <= |v.entries| && DeserializeEntries(v, i, c, env, fuel).Ok?
    ensures var out := DeserializeEntries(v, i, c, env, fuel).value;
            |out| == |v.entries| - i &&
            forall j :: i <= j < |v.entries| ==>
              out[j - i].0 == v.entries[j].0 && Ok(out[j - i].1) == Deserialize(v.entries[j].1, c, env, fuel)
    decreases |v.entries| - i
  {
    if i < |v.entries| {
      EntriesValues(v, i + 1, c, env, fuel);
    }
  }

  /** Names of the annotated parameters, from index `i` on, that the mapped payload supplies. */
  function PayloadNames(params: seq<Param>, mapped: map<string, Value>, i: nat): set<string>
    requires i <= |params|
    decreases |params| - i
  {
    if i == |params| then {}
    else (if params[i].annotation.Some? && params[i].name in mapped then {params[i].name} else {})
         + PayloadNames(params, mapped, i + 1)
  }

  /** Each name in the payload belongs to an annotated parameter from position `i` on that key mapping reached. */
  lemma {:induction false} PayloadNamesFrom(params: seq<Param>, mapped: map<string, Value>, i: nat, k: string)
    requires i <= |params| && k in PayloadNames(params, mapped, i)
    ensures exists j :: i <= j < |params| && params[j].annotation.Some? && params[j].name in mapped && params[j].name == k
    decreases |params| - i
  {
    if params[i].annotation.Some? && params[i].name in mapped && params[i].name == k {
    } else {
      PayloadNamesFrom(params, mapped, i + 1, k);
    }
  }

  predicate NamesDistinct(params: seq<Param>)
  {
    forall i, j :: 0 <= i < j < |params| ==> params[i].name != params[j].name
  }

  /**
   * `prepare_payload_for_unpacking` passes on exactly the annotated
   * parameters that key mapping reached, each converted with its own
   * annotation, and fails iff one of those conversions fails.
   */
  lemma PayloadSpec(v: Value, params: seq<Param>, i: nat, acc: map<string, Value>, env: Env, fuel: nat)
    requires v.VDict? && i <= |params| && NamesDistinct(params)
    requires forall j :: i <= j < |params| ==> params[j].name !in acc
    ensures var mapped := UnflexCall(params, v.entries, true);
            var r := PreparePayload(v, params, i, acc, env, fuel);
            (r.Ok? <==> forall j :: i <= j < |params| && params[j].annotation.Some? && params[j].name in mapped ==>
                          Deserialize(mapped[params[j].name], params[j].annotation.value, env, fuel).Ok?)
            && (r.Ok? ==> r.value.Keys == acc.Keys + PayloadNames(params, mapped, i))
            && (r.Ok? ==> forall k :: k in acc ==> r.value[k] == acc[k])
            && (r.Ok? ==> forall j :: i <= j < |params| && params[j].annotation.Some? && params[j].name in mapped ==>
                          params[j].name in r.value &&
                          Deserialize(mapped[params[j].name], params[j].annotation.value, env, fuel) == Ok(r.value[params[j].name]))
  {
    var mapped := UnflexCall(params, v.entries, true);
    PayloadOk(v, params, i, acc, env, fuel, mapped);
    if PreparePayload(v, params, i, acc, env, fuel).Ok? {
      PayloadKeys(v, params, i, acc, env, fuel, mapped);
      PayloadKeepsGathered(v, params, i, acc, env, fuel, mapped);
      PayloadValues(v, params, i, acc, env, fuel, mapped);
    }
  }

  /** The payload is prepared iff every conversion it attempts succeeds. */
  lemma {:induction false} PayloadOk(v: Value, params: seq<Param>, i: nat, acc: map<string, Value>, env: Env, fuel: nat,
                                     mapped: map<string, Value>)
    requires v.VDict? && i <= |params| && mapped == UnflexCall(params, v.entries, true)
    ensures PreparePayload(v, params, i, acc, env, fuel).Ok? <==>
              forall j :: i <= j < |params| && params[j].annotation.Some? && params[j].name in mapped ==>
                Deserialize(mapped[params[j].name], params[j].annotation.value, env, fuel).Ok?
    decreases |params| - i
  {
    if i < |params| {
      var p := params[i];
      if p.annotation.Some? && p.name in mapped {
        var x := Deserialize(mapped[p.name], p.annotation.value, env, fuel);
        if x.Ok? {
          PayloadStepConverted(v, params, i, acc, env, fuel, mapped);
          PayloadOk(v, params, i + 1, acc[p.name := x.value], env, fuel, mapped);
        } else {
          PayloadStepNeeds(v, params, i, acc, env, fuel, mapped);
        }
      } else {
        PayloadStepSkipped(v, params, i, acc, env, fuel, mapped);
        PayloadOk(v, params, i + 1, acc, env, fuel, mapped);
      }
    }
  }

  /** A prepared payload holds what was gathered plus the converted parameters, and no other key. */
  lemma {:induction false} PayloadKeys(v: Value, params: seq<Param>, i: nat, acc: map<string, Value>, env: Env, fuel: nat,
                       mapped: map<string, Value>)
    requires v.VDict? && i <= |params| && NamesDistinct(params) && mapped == UnflexCall(params, v.entries, true)
    requires forall j :: i <= j < |params| ==> params[j].name !in acc
    requires PreparePayload(v, params, i, acc, env, fuel).Ok?
    ensures PreparePayload(v, params, i, acc, env, fuel).value.Keys == acc.Keys + PayloadNames(params, mapped, i)
    decreases |params| - i
  {
    if i < |params| {
      var p := params[i];
      if p.annotation.Some? && p.name in mapped {
        PayloadStepNeeds(v, params, i, acc, env, fuel, mapped);
        var x := Deserialize(mapped[p.name], p.annotation.value, env, fuel);
        PayloadStepConverted(v, params, i, acc, env, fuel, mapped);
        PayloadKeys(v, params, i + 1, acc[p.name := x.value], env, fuel, mapped);
      } else {
        PayloadStepSkipped(v, params, i, acc, env, fuel, mapped);
        PayloadKeys(v, params, i + 1, acc, env, fuel, mapped);
      }
    }
  }

  /** What was gathered before is passed on unchanged. */
  lemma {:induction false} PayloadKeepsGathered(v: Value, params: seq<Param>, i: nat, acc: map<string, Value>, env: Env, fuel: nat,
                       mapped: map<string, Value>)
    requires v.VDict? && i <= |params| && NamesDistinct(params) && mapped == UnflexCall(params, v.entries, true)
    requires forall j :: i <= j < |params| ==> params[j].name !in acc
    requires PreparePayload(v, params, i, acc, env, fuel).Ok?
    ensures var r := PreparePayload(v, params, i, acc, env, fuel).value;
            forall k :: k in acc ==> k in r && r[k] == acc[k]
    decreases |params| - i
  {
    if i < |params| {
      var p := params[i];
      if p.annotation.Some? && p.name in mapped {
        PayloadStepNeeds(v, params, i, acc, env, fuel, mapped);
        var x := Deserialize(mapped[p.name], p.annotation.value, env, fuel);
        PayloadStepConverted(v, params, i, acc, env, fuel, mapped);
        PayloadKeepsGathered(v, params, i + 1, acc[p.name := x.value], env, fuel, mapped);
      } else {
        PayloadStepSkipped(v, params, i, acc, env, fuel, mapped);
        PayloadKeepsGathered(v, params, i + 1, acc, env, fuel, mapped);
      }
    }
  }

  /** Each converted parameter holds its conversion. */
  lemma {:induction false} PayloadValues(v: Value, params: seq<Param>, i: nat, acc: map<string, Value>, env: Env, fuel: nat,
                       mapped: map<string, Value>)
    requires v.VDict? && i <= |params| && NamesDistinct(params) && mapped == UnflexCall(params, v.entries, true)
    requires forall j :: i <= j < |params| ==> params[j].name !in acc
    requires PreparePayload(v, params, i, acc, env, fuel).Ok?
    ensures var r := PreparePayload(v, params, i, acc, env, fuel).value;
            forall j :: i <= j < |params| && params[j].annotation.Some? && params[j].name in mapped ==>
              params[j].name in r && Deserialize(mapped[params[j].name], params[j].annotation.value, env, fuel) == Ok(r[params[j].name])
    decreases |params| - i
  {
    if i < |params| {
      var p := params[i];
      if p.annotation.Some? && p.name in mapped {
        PayloadStepNeeds(v, params, i, acc, env, fuel, mapped);
        var x := Deserialize(mapped[p.name], p.annotation.value, env, fuel);
        PayloadStepConverted(v, params, i, acc, env, fuel, mapped);
        PayloadValues(v, params, i + 1, acc[p.name := x.value], env, fuel, mapped);
        PayloadKeepsGathered(v, params, i + 1, acc[p.name := x.value], env, fuel, mapped);
      } else {
        PayloadStepSkipped(v, params, i, acc, env, fuel, mapped);
        PayloadValues(v, params, i + 1, acc, env, fuel, mapped);
      }
    }
  }

  // One step of `prepare_payload_for_unpacking`'s loop, in each of its three outcomes.

  lemma PayloadStepConverted(v: Value, params: seq<Param>, i: nat, acc: map<string, Value>, env: Env, fuel: nat,
                             mapped: map<string, Value>)
    requires v.VDict? && i < |params| && mapped == UnflexCall(params, v.entries, true)
    requires params[i].annotation.Some? && params[i].name in mapped
    requires Deserialize(mapped[params[i].name], params[i].annotation.value, env, fuel).Ok?
    ensures var x := Deserialize(mapped[params[i].name], params[i].annotation.value, env, fuel).value;
            PreparePayload(v, params, i, acc, env, fuel) == PreparePayload(v, params, i + 1, acc[params[i].name := x], env, fuel)
  {
  }

  lemma PayloadStepNeeds(v: Value, params: seq<Param>, i: nat, acc: map<string, Value>, env: Env, fuel: nat,
                         mapped: map<string, Value>)
    requires v.VDict? && i < |params| && mapped == UnflexCall(params, v.entries, true)
    requires params[i].annotation.Some? && params[i].name in mapped
    ensures PreparePayload(v, params, i, acc, env, fuel).Ok? ==>
              Deserialize(mapped[params[i].name], params[i].annotation.value, env, fuel).Ok?
  {
  }

  lemma PayloadStepSkipped(v: Value, params: seq<Param>, i: nat, acc: map<string, Value>, env: Env, fuel: nat,
                           mapped: map<string, Value>)
    requires v.VDict? && i < |params| && mapped == UnflexCall(params, v.entries, true)
    requires !(params[i].annotation.Some? && params[i].name in mapped)
    ensures PreparePayload(v, params, i, acc, env, fuel) == PreparePayload(v, params, i + 1, acc, env, fuel)
  {
  }

  /**
   * Building a class from a dict never trips over an unknown keyword: the
   * payload only carries annotated parameters, so the call fails exactly
   * when a required parameter is missing from it; a construction that
   * succeeds is an instance of that class with one attribute per parameter.
   */
  lemma ConstructSpec(v: Value, cls: string, params: seq<Param>, env: Env, fuel: nat)
    requires v.VDict? && NamesDistinct(params)
    ensures var r := Construct(v, cls, params, env, fuel);
            var p := PreparePayload(v, params, 0, map[], env, fuel);
            (p.Err? ==> r == Err(p.error))
            && (p.Ok? ==>
                  (forall k :: k in p.value ==> k in AnnotatedNames(params))
                  && (r.Ok? <==> forall i :: 0 <= i < |params| ==> params[i].name in p.value || params[i].default.Some?)
                  && (r.Err? ==> r.error == CallFailed(MissingArguments(MissingParams(params, p.value)))))
            && (r.Ok? ==> r.value.VObj? && r.value.cls == cls && Keys(r.value.attrs) == ParamNames(params))
  {
    var mapped := UnflexCall(params, v.entries, true);
    PayloadSpec(v, params, 0, map[], env, fuel);
    var p := PreparePayload(v, params, 0, map[], env, fuel);
    if p.Ok? {
      forall k | k in p.value ensures k in AnnotatedNames(params) && k in ParamNames(params) {
        PayloadNamesFrom(params, mapped, 0, k);
        var j :| 0 <= j < |params| && params[j].annotation.Some? && params[j].name in mapped && params[j].name == k;
        assert ParamNames(params)[j] == k;
      }
      var inst := Instantiate(cls, params, p.value);
      assert Construct(v, cls, params, env, fuel) == if inst.Ok? then Ok(inst.value) else Err(CallFailed(inst.error));
    }
  }

  // ------------------------------------------------------------ dispatch

  /** A `None` payload is returned as `None` whatever the hint, before adapters and validation. */
  lemma NoneIsNone(h: Hint, env: Env, fuel: nat)
    ensures Deserialize(VNone, h, env, fuel) == Ok(VNone)
  {
  }

  /** An adapter's answer replaces the hint; an abstract answer is refused. */
  lemma AdapterReplacesHint(v: Value, h: Hint, env: Env, fuel: nat)
    requires !v.VNone? && HashableHint(h) && h in env.adapters && fuel > 0
    ensures Deserialize(v, h, env, fuel) == DeserializeHint(v, env.adapters[h](v), env, fuel - 1)
    ensures IsAbstract(env.adapters[h](v), env.table) ==> Deserialize(v, h, env, fuel) == Err(UnsupportedAnnotation)
  {
  }

  /** Without an adapter, a hashable hint that is not an abstract class goes straight to the dispatch on its origin. */
  lemma ToDispatch(v: Value, h: Hint, env: Env, fuel: nat)
    requires !v.VNone? && HashableHint(h) && h !in env.adapters && !IsAbstract(h, env.table)
    ensures Deserialize(v, h, env, fuel) == Dispatch(v, h, env, fuel)
  {
  }

  /** A union of passthrough types hands the payload back untouched. */
  lemma PassthroughUnion(v: Value, ms: seq<Hint>, env: Env, fuel: nat)
    requires !v.VNone? && UnionOf(ms) !in env.adapters
    requires forall i :: 0 <= i < |ms| ==> IsPassthroughType(ms[i])
    ensures Deserialize(v, UnionOf(ms), env, fuel) == Ok(v)
  {
    var rest := WithoutNone(ms);
    forall i | 0 <= i < |rest| ensures IsPassthroughType(rest[i]) {
      WithoutNoneMembers(ms, rest[i]);
    }
    ResolveRules(UnionForm, ms, false);
    assert HashableHint(UnionOf(ms));
    ToDispatch(v, UnionOf(ms), env, fuel);
  }

  /** A union with a single non-`None` member deserializes as that member. */
  lemma OptionalUnion(v: Value, t: Hint, env: Env, fuel: nat)
    requires !v.VNone? && UnionOf([t, NoneType]) !in env.adapters && HashableHint(t) && t != NoneType
    requires !IsPassthroughType(t)
    ensures Deserialize(v, UnionOf([t, NoneType]), env, fuel) == Deserialize(v, t, env, fuel)
  {
    var h := UnionOf([t, NoneType]);
    assert WithoutNone([t, NoneType]) == [t] by {
      assert [t, NoneType][1..] == [NoneType];
      assert [NoneType][1..] == [];
    }
    ResolveRules(UnionForm, [t, NoneType], false);
    assert ResolveHintPlain(h) == Ok(Resolved(UnionForm, [t]));
    assert HashableHint(h) by {
      assert forall i :: 0 <= i < 2 ==> HashableHint([t, NoneType][i]);
    }
    assert !AllPassthrough([t]);
    ToDispatch(v, h, env, fuel);
  }

  /**
   * "A thing or a list of things": a list payload is deserialized as a
   * list of the thing, any other payload as the thing itself, whichever
   * order the union names them in.
   */
  lemma ThingOrListDispatch(v: Value, a: Hint, b: Hint, env: Env, fuel: nat)
    requires !v.VNone? && UnionOf([a, b]) !in env.adapters
    requires HashableHint(a) && HashableHint(b) && a != NoneType && b != NoneType
    requires IsThingOrListPair(a, b)
    ensures var t := TheThing(a, b);
            Deserialize(v, UnionOf([a, b]), env, fuel) ==
              if IsArrayLike(v) then Deserialize(v, ListOf(t), env, fuel) else Deserialize(v, t, env, fuel)
  {
    var h := UnionOf([a, b]);
    var t := TheThing(a, b);
    ResolveThingOrList(a, b);
    assert HashableHint(h) by {
      assert forall i :: 0 <= i < 2 ==> HashableHint([a, b][i]);
    }
    assert !IsPassthroughType([t, ListOf(t)][1]);
    ToDispatch(v, h, env, fuel);
  }

  /** `_resolve_hint(Union[a, b])` for a thing-or-list pair: the thing, then the list of the thing. */
  lemma ResolveThingOrList(a: Hint, b: Hint)
    requires HashableHint(a) && HashableHint(b) && a != NoneType && b != NoneType
    requires IsThingOrListPair(a, b)
    ensures ResolveHintPlain(UnionOf([a, b])) == Ok(Resolved(UnionForm, [TheThing(a, b), ListOf(TheThing(a, b))]))
  {
    var ms := [a, b];
    assert NoneType !in ms;
    WithoutNoneAbsent(ms);
    assert !IsPassthroughType(if a.ListOf? then a else b);
    assert !AllPassthrough(ms);
    assert AllHashable(ms);
    ResolveRules(UnionForm, ms, false);
  }

  /** `_resolve_hint(List[e])`: the list origin with the element type, unless that is `None`. */
  lemma ResolveList(e: Hint)
    requires HashableHint(e)
    ensures ResolveHintPlain(ListOf(e)) == Ok(Resolved(BareList, if e == NoneType then [] else [e]))
  {
    assert WithoutNone([e]) == if e == NoneType then [] else [e] by {
      assert [e][1..] == [];
    }
    ResolveRules(BareList, [e], false);
  }

  /**
   * A list hint converts an array-like payload item by item: same length,
   * same order, `None` items kept, and any failing item fails the whole.
   * Anything else is returned unchanged.
   */
  lemma ListHint(v: Value, e: Hint, env: Env, fuel: nat)
    requires !v.VNone? && ListOf(e) !in env.adapters && HashableHint(e)
    ensures var c := if e == NoneType then AnyHint else e;
            var r := Deserialize(v, ListOf(e), env, fuel);
            (!IsArrayLike(v) ==> r == Ok(v))
            && (IsArrayLike(v) ==>
                  (r.Ok? <==> forall j :: 0 <= j < |v.items| ==> Deserialize(v.items[j], c, env, fuel).Ok?)
                  && (r.Ok? ==>
                        r.value.VList? && |r.value.items| == |v.items|
                        && (forall j :: 0 <= j < |v.items| ==> Ok(r.value.items[j]) == Deserialize(v.items[j], c, env, fuel))
                        && (forall j :: 0 <= j < |v.items| && v.items[j].VNone? ==> r.value.items[j].VNone?)))
  {
    var c := if e == NoneType then AnyHint else e;
    ListDispatch(v, e, env, fuel);
    if IsArrayLike(v) {
      ItemsOk(v, 0, c, env, fuel);
      if DeserializeItems(v, 0, c, env, fuel).Ok? {
        ItemsValues(v, 0, c, env, fuel);
      }
    }
  }

  /** Without an adapter, a list hint goes to `_deserialize_list` with its element type, or `Any` for `None`. */
  lemma ListDispatch(v: Value, e: Hint, env: Env, fuel: nat)
    requires !v.VNone? && ListOf(e) !in env.adapters && HashableHint(e)
    ensures Deserialize(v, ListOf(e), env, fuel) == DeserializeList(v, if e == NoneType then AnyHint else e, env, fuel)
  {
    var h := ListOf(e);
    ResolveList(e);
    ToDispatch(v, h, env, fuel);
  }

  /**
   * A dict hint keeps exactly the payload's keys, in order, each value
   * converted with the value annotation (`Any` if that annotation is falsy);
   * a payload that is not a mapping is returned unchanged.
   */
  lemma DictHint(v: Value, k: Hint, val: Hint, env: Env, fuel: nat)
    requires !v.VNone? && DictOf(k, val) !in env.adapters && HashableHint(k) && HashableHint(val)
    ensures var c := if val.Obj? && !Truthy(val.v) then AnyHint else val;
            var r := Deserialize(v, DictOf(k, val), env, fuel);
            (!v.VDict? ==> r == Ok(v))
            && (v.VDict? ==>
                  (r.Ok? <==> forall j :: 0 <= j < |v.entries| ==> Deserialize(v.entries[j].1, c, env, fuel).Ok?)
                  && (r.Ok? ==>
                        r.value.VDict? && Keys(r.value.entries) == Keys(v.entries)
                        && forall j :: 0 <= j < |v.entries| ==>
                             Ok(r.value.entries[j].1) == Deserialize(v.entries[j].1, c, env, fuel)))
  {
    var c := if val.Obj? && !Truthy(val.v) then AnyHint else val;
    DictDispatch(v, k, val, env, fuel);
    if v.VDict? {
      EntriesOk(v, 0, c, env, fuel);
      var r := DeserializeEntries(v, 0, c, env, fuel);
      if r.Ok? {
        EntriesValues(v, 0, c, env, fuel);
        assert Keys(r.value) == Keys(v.entries);
      }
    }
  }

  /** Without an adapter, a dict hint goes to `_deserialize_dict` with its value type. */
  lemma DictDispatch(v: Value, k: Hint, val: Hint, env: Env, fuel: nat)
    requires !v.VNone? && DictOf(k, val) !in env.adapters && HashableHint(k) && HashableHint(val)
    ensures Deserialize(v, DictOf(k, val), env, fuel) == DeserializeDict(v, val, env, fuel)
  {
    var h := DictOf(k, val);
    ResolveDict(k, val);
    ToDispatch(v, h, env, fuel);
  }

  /** `_resolve_hint(Dict[k, v])`: the dict origin with both arguments. */
  lemma ResolveDict(k: Hint, val: Hint)
    requires HashableHint(k) && HashableHint(val)
    ensures ResolveHintPlain(DictOf(k, val)) == Ok(Resolved(BareDict, [k, val]))
  {
  }

  /**
   * The order in which `_deserialize_enum` tries its matches: a member
   * value first (the first equal one), then a member name (an alias
   * giving its canonical member), then the forgiving comparison over the
   * canonical members; with no match the raw value comes back.
   */
  lemma EnumMatchOrder(v: Value, name: string, members: seq<(string, Value)>, j: nat)
    requires j < |members|
    ensures PyEq(members[j].1, v) && (forall i :: 0 <= i < j ==> !PyEq(members[i].1, v)) ==>
              DeserializeEnum(v, name, members) == Ok(VEnum(name, members[j].0))
    ensures (forall i :: 0 <= i < |members| ==> !PyEq(members[i].1, v)) && v.VStr? && members[j].0 == v.s
              && (forall i :: 0 <= i < j ==> members[i].0 != v.s) ==>
              DeserializeEnum(v, name, members) == Ok(VEnum(name, members[Canonical(members, j)].0))
    ensures (forall i :: 0 <= i < |members| ==> !PyEq(members[i].1, v) && (v.VStr? ==> members[i].0 != v.s))
              && v.VStr? && IsCanonical(members, j) && FuzzyMatches(members[j], FlexTranslate(v.s))
              && (forall i :: 0 <= i < j ==> !(IsCanonical(members, i) && FuzzyMatches(members[i], FlexTranslate(v.s)))) ==>
              DeserializeEnum(v, name, members) == Ok(VEnum(name, members[j].0))
  {
    var fv := FindValue(members, v);
    if fv.Some? && PyEq(members[j].1, v) && (forall i :: 0 <= i < j ==> !PyEq(members[i].1, v)) {
      assert fv.value == j;
    }
    if v.VStr? {
      var fn := FindName(members, v.s);
      if fn.Some? && members[j].0 == v.s && (forall i :: 0 <= i < j ==> members[i].0 != v.s) {
        assert fn.value == j;
      }
      var ff := FindFuzzy(members, FlexTranslate(v.s), 0);
      if ff.Some? && IsCanonical(members, j) && FuzzyMatches(members[j], FlexTranslate(v.s))
         && (forall i :: 0 <= i < j ==> !(IsCanonical(members, i) && FuzzyMatches(members[i], FlexTranslate(v.s)))) {
        assert ff.value == j;
      }
    }
  }

  /** Without any match, an enum hint hands back the raw (hashable) value. */
  lemma EnumNoMatch(v: Value, name: string, members: seq<(string, Value)>)
    requires Hashable(v)
    requires forall i :: 0 <= i < |members| ==> !PyEq(members[i].1, v)
    requires v.VStr? ==> forall i :: 0 <= i < |members| ==>
               members[i].0 != v.s && !(IsCanonical(members, i) && FuzzyMatches(members[i], FlexTranslate(v.s)))
    ensures DeserializeEnum(v, name, members) == Ok(v)
  {
    var fv := FindValue(members, v);
    if v.VStr? {
      var fn := FindName(members, v.s);
      var ff := FindFuzzy(members, FlexTranslate(v.s), 0);
    }
  }

  /** `_resolve_hint` of a user class or enum: the class itself, no arguments. */
  lemma ResolveClass(name: string)
    ensures ResolveHintPlain(Cls(name)) == Ok(Resolved(Cls(name), []))
  {
    assert WithoutNone([]) == [];
    ResolveRules(Cls(name), [], false);
  }

  /**
   * A class hint with a dict payload constructs the class from the
   * payload; a payload already of that class, or of any other non-dict
   * shape, is returned untouched.
   */
  lemma ClassHint(v: Value, name: string, env: Env, fuel: nat)
    requires !v.VNone? && Cls(name) !in env.adapters
    requires Lookup(env.table, name).ClassDef? && !Lookup(env.table, name).isAbstract
    ensures v.VDict? ==> Deserialize(v, Cls(name), env, fuel) == Construct(v, name, Lookup(env.table, name).params, env, fuel)
    ensures !v.VDict? ==> Deserialize(v, Cls(name), env, fuel) == Ok(v)
  {
    var h := Cls(name);
    ResolveClass(name);
    assert !IsPassthroughType(h);
    ToDispatch(v, h, env, fuel);
    if !IsInstance(v, h) {
      assert Dispatch(v, h, env, fuel) == Fallback(v, h, env, fuel);
    }
  }

  /** An enum hint goes to `_deserialize_enum` unless the payload already is one of its members. */
  lemma EnumHint(v: Value, name: string, env: Env, fuel: nat)
    requires !v.VNone? && Cls(name) !in env.adapters && Lookup(env.table, name).EnumDef?
    ensures Deserialize(v, Cls(name), env, fuel) ==
              if IsInstance(v, Cls(name)) then Ok(v)
              else DeserializeEnum(v, name, Lookup(env.table, name).members)
  {
    var h := Cls(name);
    ResolveClass(name);
    assert !IsPassthroughType(h);
    ToDispatch(v, h, env, fuel);
    if !IsInstance(v, h) {
      assert Dispatch(v, h, env, fuel) == Fallback(v, h, env, fuel);
      assert Fallback(v, h, env, fuel) == DeserializeEnum(v, name, Lookup(env.table, name).members);
    } else {
      assert Dispatch(v, h, env, fuel) == Ok(v);
    }
  }

  // ------------------------------------------------------------ whole-call properties

  /** A payload that is not array-like never comes back array-like, whatever the hint and the adapters. */
  lemma {:induction false} NonArrayStays(v: Value, h: Hint, env: Env, fuel: nat)
    requires !IsArrayLike(v)
    ensures Deserialize(v, h, env, fuel).Ok? ==> !IsArrayLike(Deserialize(v, h, env, fuel).value)
    decreases v, fuel, HintSize(h) + 2, 2
  {
    if !v.VNone? && HashableHint(h) {
      if h in env.adapters {
        if fuel > 0 {
          var g := env.adapters[h](v);
          assert Deserialize(v, h, env, fuel) == DeserializeHint(v, g, env, fuel - 1);
          NonArrayStaysHint(v, g, env, fuel - 1);
        }
      } else {
        assert Deserialize(v, h, env, fuel) == DeserializeHint(v, h, env, fuel);
        NonArrayStaysHint(v, h, env, fuel);
      }
    }
  }

  lemma {:induction false} NonArrayStaysHint(v: Value, h: Hint, env: Env, fuel: nat)
    requires !IsArrayLike(v)
    ensures DeserializeHint(v, h, env, fuel).Ok? ==> !IsArrayLike(DeserializeHint(v, h, env, fuel).value)
    decreases v, fuel, HintSize(h) + 2, 1
  {
    if !IsAbstract(h, env.table) {
      NonArrayStaysDispatch(v, h, env, fuel);
    }
  }

  lemma {:induction false} NonArrayStaysDispatch(v: Value, h: Hint, env: Env, fuel: nat)
    requires !IsArrayLike(v)
    ensures Dispatch(v, h, env, fuel).Ok? ==> !IsArrayLike(Dispatch(v, h, env, fuel).value)
    decreases v, fuel, HintSize(h) + 2, 0
  {
    if ResolveHintPlain(h).Ok? {
      var args := ResolveHintPlain(h).value.args;
      if ResolveHintPlain(h).value.origin == UnionForm && !AllPassthrough(args) && 1 <= |args| <= 2 {
        assert Dispatch(v, h, env, fuel) == Deserialize(v, args[0], env, fuel);
        NonArrayStays(v, args[0], env, fuel);
      } else {
        NonArrayStaysLeaf(v, h, env, fuel);
      }
    }
  }

  /** The origins that do not hand the payload on to `deserialize` again keep a payload that is not array-like so. */
  lemma NonArrayStaysLeaf(v: Value, h: Hint, env: Env, fuel: nat)
    requires !IsArrayLike(v) && ResolveHintPlain(h).Ok?
    requires var res := ResolveHintPlain(h).value;
             !(res.origin == UnionForm && !AllPassthrough(res.args) && 1 <= |res.args| <= 2)
    ensures Dispatch(v, h, env, fuel).Ok? ==> !IsArrayLike(Dispatch(v, h, env, fuel).value)
  {
    var origin := ResolveHintPlain(h).value.origin;
    if origin == UnionForm {
      DispatchUnionCase(v, h, env, fuel);
    } else if origin == BareList {
      DispatchListCase(v, h, env, fuel);
    } else if origin == BareDict {
      DispatchDictCase(v, h, env, fuel);
    } else {
      DispatchOtherCase(v, h, env, fuel);
      FallbackShape(v, origin, env, fuel);
    }
  }

  /** A union resolves to passthrough types only, or to one or two arguments. */
  lemma UnionArity(h: Hint)
    requires ResolveHintPlain(h).Ok? && ResolveHintPlain(h).value.origin == UnionForm
    ensures var args := ResolveHintPlain(h).value.args;
            AllPassthrough(args) || 1 <= |args| <= 2
  {
    ResolveRules(UnionForm, GetArgs(h), false);
  }

  // The four shapes of the dispatch on the resolved origin.

  lemma DispatchUnionCase(v: Value, h: Hint, env: Env, fuel: nat)
    requires ResolveHintPlain(h).Ok? && ResolveHintPlain(h).value.origin == UnionForm
    ensures var args := ResolveHintPlain(h).value.args;
            AllPassthrough(args) ==> Dispatch(v, h, env, fuel) == Ok(v)
    ensures var args := ResolveHintPlain(h).value.args;
            !AllPassthrough(args) && |args| == 1 ==> Dispatch(v, h, env, fuel) == Deserialize(v, args[0], env, fuel)
    ensures var args := ResolveHintPlain(h).value.args;
            !AllPassthrough(args) && |args| == 2 ==>
              Dispatch(v, h, env, fuel) ==
                if IsArrayLike(v) then Deserialize(v, ListOf(args[0]), env, fuel) else Deserialize(v, args[0], env, fuel)
  {
  }

  lemma DispatchListCase(v: Value, h: Hint, env: Env, fuel: nat)
    requires ResolveHintPlain(h).Ok? && ResolveHintPlain(h).value.origin == BareList
    ensures var args := ResolveHintPlain(h).value.args;
            Dispatch(v, h, env, fuel) == DeserializeList(v, if |args| > 0 then args[0] else AnyHint, env, fuel)
  {
  }

  lemma DispatchDictCase(v: Value, h: Hint, env: Env, fuel: nat)
    requires ResolveHintPlain(h).Ok? && ResolveHintPlain(h).value.origin == BareDict
    ensures var args := ResolveHintPlain(h).value.args;
            Dispatch(v, h, env, fuel) == DeserializeDict(v, if |args| >= 2 then args[1] else AnyHint, env, fuel)
  {
  }

  lemma DispatchOtherCase(v: Value, h: Hint, env: Env, fuel: nat)
    requires ResolveHintPlain(h).Ok?
    requires var o := ResolveHintPlain(h).value.origin; o != UnionForm && o != BareList && o != BareDict
    ensures var o := ResolveHintPlain(h).value.origin;
            Dispatch(v, h, env, fuel) ==
              if !HashableHint(o) then Err(TypeError)
              else if IsPassthroughType(o) || (IsClass(o) && IsInstance(v, o)) then Ok(v)
              else Fallback(v, o, env, fuel)
  {
  }

  /**
   * With no adapter registered, deserializing is idempotent: feeding a
   * result back in with the same hint gives that same result.
   */
  lemma {:induction false} Idempotent(v: Value, h: Hint, env: Env, fuel: nat)
    requires env.adapters == map[]
    ensures Deserialize(v, h, env, fuel).Ok? ==>
              Deserialize(Deserialize(v, h, env, fuel).value, h, env, fuel) == Deserialize(v, h, env, fuel)
    decreases v, fuel, HintSize(h) + 2, 2
  {
    if !v.VNone? && HashableHint(h) && !IsAbstract(h, env.table) {
      IdempotentDispatch(v, h, env, fuel);
    }
  }

  lemma {:induction false} IdempotentDispatch(v: Value, h: Hint, env: Env, fuel: nat)
    requires env.adapters == map[] && !v.VNone? && HashableHint(h) && !IsAbstract(h, env.table)
    ensures Dispatch(v, h, env, fuel).Ok? ==>
              Deserialize(Dispatch(v, h, env, fuel).value, h, env, fuel) == Dispatch(v, h, env, fuel)
    decreases v, fuel, HintSize(h) + 2, 0
  {
    ToDispatch(v, h, env, fuel);
    var r := Dispatch(v, h, env, fuel);
    if r.Ok? && !r.value.VNone? && r.value != v {
      var y := r.value;
      ToDispatch(y, h, env, fuel);
      var origin := ResolveHintPlain(h).value.origin;
      var args := ResolveHintPlain(h).value.args;
      var target := if |args| > 0 then args[0] else AnyHint;
      if origin == UnionForm {
        UnionArity(h);
      }
      if origin == UnionForm && AllPassthrough(args) {
      } else if origin == UnionForm && |args| == 1 {
        DispatchUnionCase(v, h, env, fuel);
        DispatchUnionCase(y, h, env, fuel);
        Idempotent(v, args[0], env, fuel);
      } else if origin == UnionForm && |args| == 2 {
        DispatchUnionCase(v, h, env, fuel);
        DispatchUnionCase(y, h, env, fuel);
        assert args[1] == ListOf(target);
        if IsArrayLike(v) {
          Idempotent(v, ListOf(target), env, fuel);
          ListHint(v, target, env, fuel);
        } else {
          Idempotent(v, target, env, fuel);
          NonArrayStays(v, target, env, fuel);
        }
      } else if origin == BareList {
        DispatchListCase(v, h, env, fuel);
        DispatchListCase(y, h, env, fuel);
        IdempotentList(v, target, env, fuel);
      } else if origin == BareDict {
        DispatchDictCase(v, h, env, fuel);
        DispatchDictCase(y, h, env, fuel);
        IdempotentDict(v, if |args| >= 2 then args[1] else AnyHint, env, fuel);
      } else {
        DispatchOtherCase(v, h, env, fuel);
        DispatchOtherCase(y, h, env, fuel);
        FallbackShape(v, origin, env, fuel);
      }
    }
  }

  lemma {:induction false} IdempotentList(v: Value, c: Hint, env: Env, fuel: nat)
    requires env.adapters == map[]
    ensures DeserializeList(v, c, env, fuel).Ok? ==>
              DeserializeList(DeserializeList(v, c, env, fuel).value, c, env, fuel) == DeserializeList(v, c, env, fuel)
    decreases v, fuel, 1, 1
  {
    if v.VList? {
      IdempotentItems(v, c, env, fuel);
    }
  }

  lemma {:induction false} IdempotentItems(v: Value, c: Hint, env: Env, fuel: nat)
    requires env.adapters == map[] && v.VList?
    ensures DeserializeItems(v, 0, c, env, fuel).Ok? ==>
              var out := DeserializeItems(v, 0, c, env, fuel).value;
              DeserializeItems(VList(out), 0, c, env, fuel) == Ok(out)
    decreases v, fuel, 1, 0
  {
    var r := DeserializeItems(v, 0, c, env, fuel);
    if r.Ok? {
      ItemsValues(v, 0, c, env, fuel);
      var out := r.value;
      forall j | 0 <= j < |out| ensures Deserialize(out[j], c, env, fuel) == Ok(out[j]) {
        Idempotent(v.items[j], c, env, fuel);
      }
      ItemsFixed(VList(out), 0, c, env, fuel);
      assert out[0..] == out;
    }
  }

  lemma {:induction false} IdempotentDict(v: Value, c: Hint, env: Env, fuel: nat)
    requires env.adapters == map[]
    ensures DeserializeDict(v, c, env, fuel).Ok? ==>
              DeserializeDict(DeserializeDict(v, c, env, fuel).value, c, env, fuel) == DeserializeDict(v, c, env, fuel)
    decreases v, fuel, 1, 1
  {
    if v.VDict? {
      IdempotentEntries(v, if c.Obj? && !Truthy(c.v) then AnyHint else c, env, fuel);
    }
  }

  lemma {:induction false} IdempotentEntries(v: Value, c: Hint, env: Env, fuel: nat)
    requires env.adapters == map[] && v.VDict?
    ensures DeserializeEntries(v, 0, c, env, fuel).Ok? ==>
              var out := DeserializeEntries(v, 0, c, env, fuel).value;
              DeserializeEntries(VDict(out), 0, c, env, fuel) == Ok(out)
    decreases v, fuel, 1, 0
  {
    var r := DeserializeEntries(v, 0, c, env, fuel);
    if r.Ok? {
      EntriesValues(v, 0, c, env, fuel);
      var out := r.value;
      forall j | 0 <= j < |out| ensures Deserialize(out[j].1, c, env, fuel) == Ok(out[j].1) {
        assert v.entries[j] in v.entries;
        Idempotent(v.entries[j].1, c, env, fuel);
      }
      EntriesFixed(VDict(out), 0, c, env, fuel);
    }
  }

  /** Items that each convert to themselves make the list comprehension a no-op. */
  lemma {:induction false} ItemsFixed(w: Value, i: nat, c: Hint, env: Env, fuel: nat)
    requires w.VList? && i <= |w.items|
    requires forall j :: i <= j < |w.items| ==> Deserialize(w.items[j], c, env, fuel) == Ok(w.items[j])
    ensures DeserializeItems(w, i, c, env, fuel) == Ok(w.items[i..])
    decreases |w.items| - i
  {
    if i < |w.items| {
      ItemsFixed(w, i + 1, c, env, fuel);
      assert w.items[i..] == [w.items[i]] + w.items[i + 1..];
    } else {
      assert w.items[i..] == [];
    }
  }

  /** Entries that each convert to themselves make the dict comprehension a no-op. */
  lemma {:induction false} EntriesFixed(w: Value, i: nat, c: Hint, env: Env, fuel: nat)
    requires w.VDict? && i <= |w.entries|
    requires forall j :: i <= j < |w.entries| ==> Deserialize(w.entries[j].1, c, env, fuel) == Ok(w.entries[j].1)
    ensures DeserializeEntries(w, i, c, env, fuel) == Ok(w.entries[i..])
    decreases |w.entries| - i
  {
    if i < |w.entries| {
      EntriesFixed(w, i + 1, c, env, fuel);
      assert w.entries[i..] == [(w.entries[i].0, w.entries[i].1)] + w.entries[i + 1..];
    } else {
      assert w.entries[i..] == [];
    }
  }

  /** Building an object from a dict yields an instance of the class named. */
  lemma ConstructShape(v: Value, cls: string, params: seq<Param>, env: Env, fuel: nat)
    requires v.VDict?
    ensures Construct(v, cls, params, env, fuel).Ok? ==>
              Construct(v, cls, params, env, fuel).value.VObj? && Construct(v, cls, params, env, fuel).value.cls == cls
  {
    var p := PreparePayload(v, params, 0, map[], env, fuel);
    if p.Ok? {
      assert Construct(v, cls, params, env, fuel) == match Instantiate(cls, params, p.value)
        case Err(ce) => Err(CallFailed(ce))
        case Ok(obj) => Ok(obj);
    }
  }

  /** What the fallback dispatch can produce besides the payload itself: a built object or an enum member, of the origin's class when the origin is one. */
  lemma FallbackShape(v: Value, origin: Hint, env: Env, fuel: nat)
    ensures var r := Fallback(v, origin, env, fuel);
            r.Ok? && r.value != v ==>
              (r.value.VObj? || r.value.VEnum?) && (origin.Cls? ==> IsInstance(r.value, origin))
  {
    match origin
    case Cls(name) => FallbackClass(v, name, env, fuel);
    case BareInitVar => FallbackInitVar(v, env, fuel);
    case _ =>
  }

  lemma FallbackClass(v: Value, name: string, env: Env, fuel: nat)
    ensures var r := Fallback(v, Cls(name), env, fuel);
            r.Ok? && r.value != v ==> (r.value.VObj? || r.value.VEnum?) && IsInstance(r.value, Cls(name))
  {
    if Lookup(env.table, name).EnumDef? {
      FallbackEnum(v, name, env, fuel);
    } else {
      FallbackObject(v, name, env, fuel);
    }
  }

  lemma FallbackEnum(v: Value, name: string, env: Env, fuel: nat)
    requires Lookup(env.table, name).EnumDef?
    ensures var r := Fallback(v, Cls(name), env, fuel);
            r.Ok? && r.value != v ==> r.value.VEnum? && IsInstance(r.value, Cls(name))
  {
    FallbackEnumCase(v, name, env, fuel);
  }

  lemma FallbackObject(v: Value, name: string, env: Env, fuel: nat)
    requires Lookup(env.table, name).ClassDef?
    ensures var r := Fallback(v, Cls(name), env, fuel);
            r.Ok? && r.value != v ==> r.value.VObj? && IsInstance(r.value, Cls(name))
  {
    FallbackObjectCase(v, name, env, fuel);
    if v.VDict? {
      ConstructShape(v, name, Lookup(env.table, name).params, env, fuel);
    }
  }

  lemma FallbackEnumCase(v: Value, name: string, env: Env, fuel: nat)
    requires Lookup(env.table, name).EnumDef?
    ensures Fallback(v, Cls(name), env, fuel) == DeserializeEnum(v, name, Lookup(env.table, name).members)
  {
  }

  lemma FallbackObjectCase(v: Value, name: string, env: Env, fuel: nat)
    requires Lookup(env.table, name).ClassDef?
    ensures Fallback(v, Cls(name), env, fuel) ==
              if v.VDict? then Construct(v, name, Lookup(env.table, name).params, env, fuel) else Ok(v)
  {
  }

  lemma FallbackInitVar(v: Value, env: Env, fuel: nat)
    ensures var r := Fallback(v, BareInitVar, env, fuel);
            r.Ok? && r.value != v ==> r.value.VObj?
  {
    if v.VDict? {
      assert Fallback(v, BareInitVar, env, fuel) == Construct(v, "InitVar", InitVarParams, env, fuel);
      ConstructShape(v, "InitVar", InitVarParams, env, fuel);
    }
  }
}

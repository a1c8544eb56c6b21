/**
 * The two adapter registries of the flex package: subclass adapters (a
 * payload inspector that picks the concrete hint for an abstract one) and
 * factory adapters (a payload-to-instance factory per hint). Both are
 * module-level dicts that refuse a second registration for the same key.
 */
module Adapters {
  import opened Wrappers
  import opened PyValues
  import opened Hints

  datatype RegistryError =
    | AlreadyRegistered   // RuntimeError: the key already has an entry
    | UnhashableKey       // TypeError raised by `key in registry`

  /** `registry[key] = entry` after the `key in registry` guard. */
  function Registered<V>(m: map<Hint, V>, key: Hint, entry: V): (r: Result<map<Hint, V>, RegistryError>)
    ensures r.Ok? <==> HashableHint(key) && key !in m
    ensures r.Err? ==> r.error == (if HashableHint(key) then AlreadyRegistered else UnhashableKey)
    ensures r.Ok? ==> key in r.value && r.value[key] == entry
    ensures r.Ok? ==> forall k :: k != key ==> (k in r.value <==> k in m)
    ensures r.Ok? ==> forall k :: k != key && k in m ==> r.value[k] == m[k]
  {
    if !HashableHint(key) then Err(UnhashableKey)
    else if key in m then Err(AlreadyRegistered)
    else Ok(m[key := entry])
  }

  /** `get_subclass_adapter`: `dict.get`, which raises `TypeError` for an unhashable key. */
  function SubclassLookup<V>(m: map<Hint, V>, key: Hint): Result<Option<V>, RegistryError>
  {
    if !HashableHint(key) then Err(UnhashableKey)
    else if key in m then Ok(Some(m[key]))
    else Ok(None)
  }

  /** `get_factory_adapter`: an unhashable hint has no factory rather than raising. */
  function FactoryLookup<V>(m: map<Hint, V>, key: Hint): Option<V>
  {
    if HashableHint(key) && key in m then Some(m[key]) else None
  }

  /** A successful registration is what both lookups return afterwards. */
  lemma LookupAfterRegister<V>(m: map<Hint, V>, key: Hint, entry: V)
    requires Registered(m, key, entry).Ok?
    ensures SubclassLookup(Registered(m, key, entry).value, key) == Ok(Some(entry))
    ensures FactoryLookup(Registered(m, key, entry).value, key) == Some(entry)
  {
  }

  /** A second registration for a key fails and the first entry stays visible. */
  lemma RegisterTwice<V>(m: map<Hint, V>, key: Hint, first: V, second: V)
    requires Registered(m, key, first).Ok?
    ensures var m1 := Registered(m, key, first).value;
            Registered(m1, key, second) == Err(AlreadyRegistered)
            && SubclassLookup(m1, key) == Ok(Some(first))
            && FactoryLookup(m1, key) == Some(first)
  {
  }

  /** Registration leaves every other key's lookup as it was. */
  lemma RegisterKeepsOthers<V>(m: map<Hint, V>, key: Hint, entry: V, other: Hint)
    requires Registered(m, key, entry).Ok? && other != key
    ensures SubclassLookup(Registered(m, key, entry).value, other) == SubclassLookup(m, other)
    ensures FactoryLookup(Registered(m, key, entry).value, other) == FactoryLookup(m, other)
  {
  }

  /** `_subclass_adapters` with its two functions. */
  class SubclassAdapters {
    var adapters: map<Hint, Value -> Hint>

    constructor ()
      ensures adapters == map[]
    {
      adapters := map[];
    }

    /** `register_subclass_adapter`. */
    method Register(baseClass: Hint, adapter: Value -> Hint) returns (err: Option<RegistryError>)
      modifies this
      ensures Registered(old(adapters), baseClass, adapter).Ok? ==>
                err.None? && adapters == Registered(old(adapters), baseClass, adapter).value
      ensures Registered(old(adapters), baseClass, adapter).Err? ==>
                err == Some(Registered(old(adapters), baseClass, adapter).error) && adapters == old(adapters)
    {
      if !HashableHint(baseClass) {
        return Some(UnhashableKey);
      }
      if baseClass in adapters {
        return Some(AlreadyRegistered);
      }
      adapters := adapters[baseClass := adapter];
      return None;
    }

    /** `get_subclass_adapter`. */
    function Get(baseClass: Hint): (r: Result<Option<Value -> Hint>, RegistryError>)
      reads this
      ensures r.Ok? <==> HashableHint(baseClass)
      ensures r.Ok? ==> (r.value.Some? <==> baseClass in adapters)
      ensures r.Ok? && r.value.Some? ==> r.value.value == adapters[baseClass]
    {
      SubclassLookup(adapters, baseClass)
    }
  }

  /** `_factory_adapters` with its two functions. */
  class FactoryAdapters {
    var factories: map<Hint, Value -> Value>

    constructor ()
      ensures factories == map[]
    {
      factories := map[];
    }

    /** `register_factory_adapter`. */
    method Register(hint: Hint, factory: Value -> Value) returns (err: Option<RegistryError>)
      modifies this
      ensures Registered(old(factories), hint, factory).Ok? ==>
                err.None? && factories == Registered(old(factories), hint, factory).value
      ensures Registered(old(factories), hint, factory).Err? ==>
                err == Some(Registered(old(factories), hint, factory).error) && factories == old(factories)
    {
      if !HashableHint(hint) {
        return Some(UnhashableKey);
      }
      if hint in factories {
        return Some(AlreadyRegistered);
      }
      factories := factories[hint := factory];
      return None;
    }

    /** `get_factory_adapter`. */
    function Get(hint: Hint): (r: Option<Value -> Value>)
      reads this
      ensures r.Some? <==> HashableHint(hint) && hint in factories
      ensures r.Some? ==> r.value == factories[hint]
    {
      FactoryLookup(factories, hint)
    }
  }
}

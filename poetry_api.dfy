/**
 * `coveo_stew.metadata.poetry_api`: the poetry sections of a
 * `pyproject.toml` — dependencies given as a version string
 * (`mypy = "*"`) or a table (`cdf = { path = "../cdf" }`), turned into
 * `Dependency` objects through `flexfactory`, and the package's name in
 * its import-safe form.
 */
module PoetryApi {
  import opened Wrappers
  import opened PyValues
  import opened Hints
  import opened Casing

  /** The signature of `Dependency.__init__`: only `name` is required. */
  const DependencyParams: seq<Param> := [
    Param("name", Some(Scalar(StrType)), None),
    Param("optional", Some(Scalar(BoolType)), Some(VBool(false))),
    Param("path", Some(UnionOf([Cls("Path"), Scalar(StrType)])), Some(VNone)),
    Param("version", Some(Scalar(StrType)), Some(VStr("*"))),
    Param("extras", Some(ListOf(Scalar(StrType))), Some(VNone)),
    Param("source", Some(Scalar(StrType)), Some(VNone)),
    Param("allow_prerelease", Some(Scalar(BoolType)), Some(VNone))
  ]

  /** A `pathlib.Path` built from a string. */
  function PathOf(s: string): Value
  {
    VObj("Path", [("path", VStr(s))])
  }

  /** A poetry dependency; the attributes keep whatever values the keywords held. */
  datatype Dependency = Dependency(
    name: Value, optional: Value, path: Value, version: Value,
    extras: Value, source: Value, allowPrereleases: Value)

  /** `is_local`: the dependency has a path. */
  predicate IsLocal(d: Dependency)
  {
    d.path != VNone
  }

  /**
   * `Dependency(**kwargs)`: the call fails on an unknown keyword or a missing
   * `name`; otherwise each attribute is its keyword or its default, and a
   * string path becomes a `Path`.
   */
  function NewDependency(kwargs: map<string, Value>): (r: Result<Dependency, CallError>)
    ensures r.Err? <==> Instantiate("Dependency", DependencyParams, kwargs).Err?
  {
    match Instantiate("Dependency", DependencyParams, kwargs)
    case Err(e) => Err(e)
    case Ok(obj) =>
      var a := obj.attrs;
      assert |a| == |Keys(a)| == 7;
      var path := if a[2].1.VStr? then PathOf(a[2].1.s) else a[2].1;
      Ok(Dependency(a[0].1, a[1].1, path, a[3].1, a[4].1, a[5].1, a[6].1))
  }

  /** The keyword, or the default when it is not given. */
  function Given(kwargs: map<string, Value>, key: string, default: Value): Value
  {
    if key in kwargs then kwargs[key] else default
  }

  /** Each attribute is its keyword or its default (`optional=False`, `version="*"`, the rest `None`); `is_local` holds exactly when a path was given and is not `None`. */
  lemma NewDependencyFields(kwargs: map<string, Value>)
    requires NewDependency(kwargs).Ok?
    ensures var d := NewDependency(kwargs).value;
            && "name" in kwargs && d.name == kwargs["name"]
            && d.optional == Given(kwargs, "optional", VBool(false))
            && (var p := Given(kwargs, "path", VNone); d.path == if p.VStr? then PathOf(p.s) else p)
            && d.version == Given(kwargs, "version", VStr("*"))
            && d.extras == Given(kwargs, "extras", VNone)
            && d.source == Given(kwargs, "source", VNone)
            && d.allowPrereleases == Given(kwargs, "allow_prerelease", VNone)
            && (IsLocal(d) <==> Given(kwargs, "path", VNone) != VNone)
  {
    var r := Instantiate("Dependency", DependencyParams, kwargs);
    assert DependencyParams[0].name == "name" && DependencyParams[0].default.None?;
    assert DependencyParams[0].name in kwargs;
    var missing := MissingParams(DependencyParams, kwargs);
    assert missing == [];
    var attrs := BindParams(DependencyParams, kwargs);
    assert r.value.attrs == attrs;
  }

  /** A dependency's specification in the poetry section: a version string or a table. */
  datatype Spec = VersionSpec(version: string) | TableSpec(entries: seq<(string, Value)>)

  /**
   * The keywords `Dependency.factory` passes to `flexfactory`: a version
   * string becomes `{"name": name, "version": version}`; a table gets its
   * `name` entry set to the key, in place, so the caller's table afterwards
   * is this value too.
   */
  function FactoryKwargs(name: string, spec: Spec): seq<(string, Value)>
  {
    match spec
    case VersionSpec(version) => [("name", VStr(name)), ("version", VStr(version))]
    case TableSpec(entries) => Put(entries, "name", VStr(name))
  }

  /** The lookup `flexfactory` builds from `Dependency.__init__`. */
  function DependencyLookup(): map<string, string>
  {
    CreateLookup(AnnotatedNames(DependencyParams))
  }

  /** What `Dependency.factory` raises. */
  datatype FactoryError =
      /** `TypeError`: a `cls` key also names `flexfactory`'s first parameter. */
    | MultipleValues(keyword: string)
      /** `TypeError` from `Dependency(**kwargs)`. */
    | CallFailed(error: CallError)

  /** The entries whose key is not `key`, in order. */
  function WithoutKey(entries: seq<(string, Value)>, key: string): (r: seq<(string, Value)>)
    ensures forall p :: p in r <==> p in entries && p.0 != key
    ensures key !in Keys(entries) ==> r == entries
    decreases |entries|
  {
    if |entries| == 0 then []
    else
      assert Keys(entries) == [entries[0].0] + Keys(entries[1..]);
      (if entries[0].0 == key then [] else [entries[0]]) + WithoutKey(entries[1..], key)
  }

  /** `flexfactory`'s own keyword `strip_extra`: `True` unless the keywords give it, then its truth value. */
  function StripFlag(kwargs: seq<(string, Value)>): bool
  {
    match Get(kwargs, "strip_extra")
    case None => true
    case Some(v) => Truthy(v)
  }

  /**
   * `Dependency.factory`: `flexfactory(Dependency, **kwargs)`. A `cls` key
   * collides with `flexfactory`'s first parameter; a `strip_extra` key is
   * `flexfactory`'s own keyword and is not passed on; the other keys are
   * unflexed onto the parameters of `Dependency`, unknown ones stripped
   * unless `strip_extra` is falsy (see `FactoryOk`).
   */
  function Factory(name: string, spec: Spec): (r: Result<Dependency, FactoryError>)
    ensures "cls" in Keys(FactoryKwargs(name, spec)) ==> r == Err(MultipleValues("cls"))
  {
    var kwargs := FactoryKwargs(name, spec);
    if "cls" in Keys(kwargs) then Err(MultipleValues("cls"))
    else
      match NewDependency(UnflexCall(DependencyParams, WithoutKey(kwargs, "strip_extra"), StripFlag(kwargs)))
      case Err(e) => Err(CallFailed(e))
      case Ok(d) => Ok(d)
  }

  /** The names `flexfactory` can reach: every parameter is annotated. */
  lemma DependencyNames()
    ensures AnnotatedNames(DependencyParams) == ParamNames(DependencyParams)
    ensures ParamNames(DependencyParams) ==
              ["name", "optional", "path", "version", "extras", "source", "allow_prerelease"]
  {
    assert DependencyParams[1..][1..][1..][1..][1..][1..][1..] == [];
  }

  lemma {:induction false} TranslateNoSeparator(s: string)
    requires forall i :: 0 <= i < |s| ==> !Deleted(s[i])
    ensures Translate(s) == s
    decreases |s|
  {
    if |s| > 0 {
      TranslateNoSeparator(s[1..]);
      assert [s[0]] + s[1..] == s;
    }
  }

  /** A lowercase name without separators is its own lookup key. */
  lemma LookupKeyLower(s: string)
    requires forall i :: 0 <= i < |s| ==> 'a' <= s[i] <= 'z'
    ensures LookupKey(s) == s
  {
    TranslateNoSeparator(s);
  }

  /** `allow_prerelease` is reached by `allowprerelease`, whatever its separators. */
  lemma LookupKeyAllowPrerelease()
    ensures LookupKey("allow_prerelease") == "allowprerelease"
  {
    AllowPrereleaseJoin();
    AllowPrereleaseTail();
    AllowPrereleaseHead();
    AllowPrereleaseConcat();
    AllowPrereleaseKey();
    TranslateAppend("allow", "_prerelease");
  }

  lemma AllowPrereleaseJoin()
    ensures "allow" + "_prerelease" == "allow_prerelease"
  {
  }

  lemma AllowPrereleaseTail()
    ensures Translate("_prerelease") == "prerelease"
  {
    assert "_prerelease"[1..] == "prerelease";
    TranslateNoSeparator("prerelease");
  }

  lemma AllowPrereleaseHead()
    ensures Translate("allow") == "allow"
  {
    TranslateNoSeparator("allow");
  }

  lemma AllowPrereleaseConcat()
    ensures "allow" + "prerelease" == "allowprerelease"
  {
  }

  lemma AllowPrereleaseKey()
    ensures LookupKey("allowprerelease") == "allowprerelease"
  {
    LookupKeyLower("allowprerelease");
  }

  lemma KeyName() ensures LookupKey("name") == "name" { LookupKeyLower("name"); }
  lemma KeyOptional() ensures LookupKey("optional") == "optional" { LookupKeyLower("optional"); }
  lemma KeyPath() ensures LookupKey("path") == "path" { LookupKeyLower("path"); }
  lemma KeyVersion() ensures LookupKey("version") == "version" { LookupKeyLower("version"); }
  lemma KeyExtras() ensures LookupKey("extras") == "extras" { LookupKeyLower("extras"); }
  lemma KeySource() ensures LookupKey("source") == "source" { LookupKeyLower("source"); }

  /** The lookup keys of the seven parameter names. */
  lemma DependencyKeys()
    ensures LookupKey("name") == "name" && LookupKey("optional") == "optional"
    ensures LookupKey("path") == "path" && LookupKey("version") == "version"
    ensures LookupKey("extras") == "extras" && LookupKey("source") == "source"
    ensures LookupKey("allow_prerelease") == "allowprerelease"
  {
    KeyName();
    KeyOptional();
    KeyPath();
    KeyVersion();
    KeyExtras();
    KeySource();
    LookupKeyAllowPrerelease();
  }

  /** `name` and `version` are reached by their own spelling, and a name is only reached by its own lookup key. */
  lemma DependencyLookupEntries()
    ensures LookupFacts(DependencyLookup())
  {
    DependencyNames();
    LookupEntries(AnnotatedNames(DependencyParams));
  }

  lemma LookupEntries(names: seq<string>)
    requires names == ["name", "optional", "path", "version", "extras", "source", "allow_prerelease"]
    ensures "name" in CreateLookup(names) && CreateLookup(names)["name"] == "name"
    ensures "version" in CreateLookup(names) && CreateLookup(names)["version"] == "version"
  {
    var lookup := CreateLookup(names);
    LookupOf(names, lookup, "name");
    LookupOf(names, lookup, "version");
  }

  lemma LookupOf(names: seq<string>, lookup: map<string, string>, n: string)
    requires names == ["name", "optional", "path", "version", "extras", "source", "allow_prerelease"]
    requires n == "name" || n == "version"
    requires forall a :: a in names && a != "return" ==> LookupKey(a) in lookup
    requires forall k :: k in lookup ==> lookup[k] in names && LookupKey(lookup[k]) == k
    ensures n in lookup && lookup[n] == n
  {
    KeysDistinct(names);
    KeyName();
    KeyVersion();
    UniqueKey(names, lookup, n);
  }

  /** A name whose lookup key no other name shares is what its key leads to. */
  lemma UniqueKey(names: seq<string>, lookup: map<string, string>, n: string)
    requires n in names && n != "return" && LookupKey(n) == n
    requires forall a :: a in names && a != n ==> LookupKey(a) != LookupKey(n)
    requires forall a :: a in names && a != "return" ==> LookupKey(a) in lookup
    requires forall k :: k in lookup ==> lookup[k] in names && LookupKey(lookup[k]) == k
    ensures n in lookup && lookup[n] == n
  {
  }

  lemma KeysDistinct(names: seq<string>)
    requires names == ["name", "optional", "path", "version", "extras", "source", "allow_prerelease"]
    ensures forall a :: a in names && a != "name" ==> LookupKey(a) != LookupKey("name")
    ensures forall a :: a in names && a != "version" ==> LookupKey(a) != LookupKey("version")
  {
    FirstLetters(names);
    forall a | a in names
      ensures |LookupKey(a)| > 0 && LookupKey(a)[0] == a[0]
    {
      LookupKeyFirst(a);
    }
  }

  /** A key starting with a lowercase letter keeps it first. */
  lemma LookupKeyFirst(a: string)
    requires |a| > 0 && 'a' <= a[0] <= 'z'
    ensures |LookupKey(a)| > 0 && LookupKey(a)[0] == a[0]
  {
    assert Translate(a) == [a[0]] + Translate(a[1..]);
  }

  /** The seven names start with lowercase letters, and no other name starts like `name` or `version`. */
  lemma FirstLetters(names: seq<string>)
    requires names == ["name", "optional", "path", "version", "extras", "source", "allow_prerelease"]
    ensures forall a :: a in names ==> |a| > 0 && 'a' <= a[0] <= 'z'
    ensures forall a :: a in names && a != "name" ==> a[0] != 'n'
    ensures forall a :: a in names && a != "version" ==> a[0] != 'v'
  {
    forall a | a in names
      ensures |a| > 0 && 'a' <= a[0] <= 'z'
      ensures a != "name" ==> a[0] != 'n'
      ensures a != "version" ==> a[0] != 'v'
    {
      var k :| 0 <= k < |names| && names[k] == a;
      assert k == 0 || k == 1 || k == 2 || k == 3 || k == 4 || k == 5 || k == 6;
    }
  }

  /** What `flexfactory`'s lookup for `Dependency` provides: `name` and `version` reached by their own spelling, and only parameters reached. */
  predicate LookupFacts(lookup: map<string, string>)
  {
    && "name" in lookup && lookup["name"] == "name"
    && "version" in lookup && lookup["version"] == "version"
    && forall k :: k in lookup ==> lookup[k] in ParamNames(DependencyParams) && LookupKey(lookup[k]) == k
  }

  /** A dirty key is filed under `name` exactly when its lookup key is `name`; whatever it is filed under is a parameter. */
  lemma TargetName(lookup: map<string, string>, key: string)
    requires LookupFacts(lookup)
    ensures Target(lookup, key, true) == Some("name") <==> LookupKey(key) == "name"
    ensures Target(lookup, key, true).Some? ==> Target(lookup, key, true).value in ParamNames(DependencyParams)
  {
  }

  /** A name reached only by entries holding `v` gets `v`. */
  lemma {:induction false} UnflexedOnly(lookup: map<string, string>, kwargs: seq<(string, Value)>, t: string, v: Value)
    requires exists i :: 0 <= i < |kwargs| && Target(lookup, kwargs[i].0, true) == Some(t)
    requires forall i :: 0 <= i < |kwargs| && Target(lookup, kwargs[i].0, true) == Some(t) ==> kwargs[i].1 == v
    ensures t in Unflexed(lookup, kwargs, true) && Unflexed(lookup, kwargs, true)[t] == v
    decreases |kwargs|
  {
    var n := |kwargs| - 1;
    var init := kwargs[..n];
    if Target(lookup, kwargs[n].0, true) != Some(t) {
      var i :| 0 <= i < |kwargs| && Target(lookup, kwargs[i].0, true) == Some(t);
      assert init[i] == kwargs[i];
      assert forall j :: 0 <= j < |init| ==> init[j] == kwargs[j];
      UnflexedOnly(lookup, init, t, v);
    }
  }

  /** With such a lookup, the keywords holding a `name` key give a clean dict that binds `name` and nothing but parameters. */
  lemma CleanKwargs(lookup: map<string, string>, kwargs: seq<(string, Value)>)
    requires LookupFacts(lookup)
    requires exists i :: 0 <= i < |kwargs| && kwargs[i].0 == "name"
    ensures "name" in Unflexed(lookup, kwargs, true)
    ensures forall k :: k in Unflexed(lookup, kwargs, true) ==> k in ParamNames(DependencyParams)
  {
    var i :| 0 <= i < |kwargs| && kwargs[i].0 == "name";
    KeyName();
    TargetName(lookup, kwargs[i].0);
    UnflexedKeys(lookup, kwargs, true, "name");
    forall k | k in Unflexed(lookup, kwargs, true) ensures k in ParamNames(DependencyParams) {
      UnflexedKeys(lookup, kwargs, true, k);
      var j :| 0 <= j < |kwargs| && Target(lookup, kwargs[j].0, true) == Some(k);
      TargetName(lookup, kwargs[j].0);
    }
  }

  /** `Dependency(**kwargs)` succeeds when only parameters are given and `name` is one of them. */
  lemma NewDependencyOk(kwargs: map<string, Value>)
    requires "name" in kwargs && forall k :: k in kwargs ==> k in ParamNames(DependencyParams)
    ensures NewDependency(kwargs).Ok?
  {
    assert forall i :: 1 <= i < |DependencyParams| ==> DependencyParams[i].default.Some?;
    assert DependencyParams[0].name == "name";
  }

  /** In a table with distinct keys, `d[key] = v` leaves exactly one entry under `key`, holding `v`. */
  lemma {:induction false} PutOnly(entries: seq<(string, Value)>, key: string, v: Value)
    requires forall i, j :: 0 <= i < j < |entries| ==> entries[i].0 != entries[j].0
    ensures exists i :: 0 <= i < |Put(entries, key, v)| && Put(entries, key, v)[i].0 == key
    ensures forall i :: 0 <= i < |Put(entries, key, v)| && Put(entries, key, v)[i].0 == key ==> Put(entries, key, v)[i].1 == v
    ensures forall i :: 0 <= i < |Put(entries, key, v)| ==> Put(entries, key, v)[i].0 == key || Put(entries, key, v)[i].0 in Keys(entries)
    decreases |entries|
  {
    var r := Put(entries, key, v);
    if |entries| == 0 {
      assert r[0].0 == key;
    } else if entries[0].0 == key {
      assert r[0].0 == key;
      assert forall i :: 0 < i < |r| ==> r[i] == entries[i];
    } else {
      PutOnly(entries[1..], key, v);
      var rest := Put(entries[1..], key, v);
      assert r == [entries[0]] + rest;
      var k :| 0 <= k < |rest| && rest[k].0 == key;
      assert r[k + 1].0 == key;
      forall i | 0 <= i < |r| && r[i].0 == key ensures r[i].1 == v {
        assert r[i] == rest[i - 1];
      }
      forall i | 0 <= i < |r| ensures r[i].0 == key || r[i].0 in Keys(entries) {
        if i > 0 {
          assert r[i] == rest[i - 1];
          if r[i].0 != key {
            var m :| 0 <= m < |entries[1..]| && Keys(entries[1..])[m] == r[i].0;
            assert Keys(entries)[m + 1] == r[i].0;
          }
        } else {
          assert Keys(entries)[0] == r[0].0;
        }
      }
    }
  }

  /** The keywords of `factory` always hold `name`, bound to the key. */
  lemma FactoryName(name: string, spec: Spec)
    ensures ("name", VStr(name)) in FactoryKwargs(name, spec)
  {
    var kwargs := FactoryKwargs(name, spec);
    if spec.TableSpec? {
      PutGet(spec.entries, "name", VStr(name));
    } else {
      assert kwargs[0] == ("name", VStr(name));
    }
  }

  /** Every name of `Dependency.__init__` is reached by its own lookup key. */
  predicate Reaches(lookup: map<string, string>)
  {
    forall n :: n in ParamNames(DependencyParams) ==> LookupKey(n) in lookup
  }

  lemma DependencyReaches()
    ensures Reaches(DependencyLookup())
  {
    DependencyNames();
  }

  /** Every key but `strip_extra` spells a parameter of `Dependency`. */
  predicate Known(kwargs: seq<(string, Value)>)
  {
    forall i :: 0 <= i < |kwargs| && kwargs[i].0 != "strip_extra" ==> LookupKey(kwargs[i].0) in DependencyLookup()
  }

  /** A key kept by a falsy `strip_extra` that spells no parameter makes `Dependency(**kwargs)` fail. */
  lemma UnknownFails(lookup: map<string, string>, rest: seq<(string, Value)>, j: nat)
    requires Reaches(lookup)
    requires j < |rest| && LookupKey(rest[j].0) !in lookup
    ensures NewDependency(Unflexed(lookup, rest, false)).Err?
    ensures NewDependency(Unflexed(lookup, rest, false)).error.UnexpectedKeywords?
  {
    var k := rest[j].0;
    UnflexedKeys(lookup, rest, false, k);
    assert Target(lookup, rest[j].0, false) == Some(k);
  }

  /** Keywords holding `name` unflex to a successful call when unknown keys are stripped or there are none, and otherwise fail on them. */
  lemma CallOkOn(lookup: map<string, string>, rest: seq<(string, Value)>, strip: bool)
    requires LookupFacts(lookup) && Reaches(lookup)
    requires exists i :: 0 <= i < |rest| && rest[i].0 == "name"
    ensures var call := NewDependency(Unflexed(lookup, rest, strip));
            (call.Ok? <==> strip || forall j :: 0 <= j < |rest| ==> LookupKey(rest[j].0) in lookup)
            && (call.Err? ==> call.error.UnexpectedKeywords?)
  {
    if strip {
      CleanKwargs(lookup, rest);
      NewDependencyOk(Unflexed(lookup, rest, true));
    } else if forall j :: 0 <= j < |rest| ==> LookupKey(rest[j].0) in lookup {
      CleanKwargs(lookup, rest);
      UnflexedKnown(lookup, rest);
      NewDependencyOk(Unflexed(lookup, rest, true));
    } else {
      var j :| 0 <= j < |rest| && LookupKey(rest[j].0) !in lookup;
      UnknownFails(lookup, rest, j);
    }
  }

  /** The keywords but `strip_extra` all spell a name of the lookup exactly when those of `factory` do. */
  lemma KnownRest(lookup: map<string, string>, kwargs: seq<(string, Value)>)
    ensures (forall i :: 0 <= i < |kwargs| && kwargs[i].0 != "strip_extra" ==> LookupKey(kwargs[i].0) in lookup)
            <==> forall j :: 0 <= j < |WithoutKey(kwargs, "strip_extra")| ==>
                   LookupKey(WithoutKey(kwargs, "strip_extra")[j].0) in lookup
  {
    if forall i :: 0 <= i < |kwargs| && kwargs[i].0 != "strip_extra" ==> LookupKey(kwargs[i].0) in lookup {
      KnownToRest(lookup, kwargs);
    } else {
      var i :| 0 <= i < |kwargs| && kwargs[i].0 != "strip_extra" && LookupKey(kwargs[i].0) !in lookup;
      UnknownInRest(lookup, kwargs, i);
    }
  }

  lemma KnownToRest(lookup: map<string, string>, kwargs: seq<(string, Value)>)
    requires forall i :: 0 <= i < |kwargs| && kwargs[i].0 != "strip_extra" ==> LookupKey(kwargs[i].0) in lookup
    ensures forall j :: 0 <= j < |WithoutKey(kwargs, "strip_extra")| ==>
              LookupKey(WithoutKey(kwargs, "strip_extra")[j].0) in lookup
  {
    var rest := WithoutKey(kwargs, "strip_extra");
    forall j | 0 <= j < |rest| ensures LookupKey(rest[j].0) in lookup {
      assert rest[j] in kwargs;
      var i :| 0 <= i < |kwargs| && kwargs[i] == rest[j];
    }
  }

  lemma UnknownInRest(lookup: map<string, string>, kwargs: seq<(string, Value)>, i: nat)
    requires i < |kwargs| && kwargs[i].0 != "strip_extra" && LookupKey(kwargs[i].0) !in lookup
    ensures exists j :: 0 <= j < |WithoutKey(kwargs, "strip_extra")| &&
              LookupKey(WithoutKey(kwargs, "strip_extra")[j].0) !in lookup
  {
    var rest := WithoutKey(kwargs, "strip_extra");
    assert kwargs[i] in rest;
    var j :| 0 <= j < |rest| && rest[j] == kwargs[i];
  }

  /** Dropping `strip_extra` keeps `name`. */
  lemma NameRest(kwargs: seq<(string, Value)>)
    requires exists i :: 0 <= i < |kwargs| && kwargs[i].0 == "name"
    ensures exists j :: 0 <= j < |WithoutKey(kwargs, "strip_extra")| && WithoutKey(kwargs, "strip_extra")[j].0 == "name"
  {
    var rest := WithoutKey(kwargs, "strip_extra");
    var n :| 0 <= n < |kwargs| && kwargs[n].0 == "name";
    assert kwargs[n] in rest;
  }

  /** Past the `cls` check, `factory` is the call, its error wrapped. */
  lemma FactoryCall(name: string, spec: Spec)
    requires "cls" !in Keys(FactoryKwargs(name, spec))
    ensures var kwargs := FactoryKwargs(name, spec);
            var call := NewDependency(UnflexCall(DependencyParams, WithoutKey(kwargs, "strip_extra"), StripFlag(kwargs)));
            (Factory(name, spec).Ok? <==> call.Ok?)
            && (call.Err? ==> Factory(name, spec) == Err(CallFailed(call.error)))
            && (call.Ok? ==> Factory(name, spec) == Ok(call.value))
  {
  }

  /**
   * `Dependency.factory` fails exactly on a `cls` key, or, when a falsy
   * `strip_extra` keeps unknown keys, on a key that spells no parameter;
   * `name` is always given, so the call never misses an argument.
   */
  lemma FactoryOk(name: string, spec: Spec)
    ensures Factory(name, spec).Ok? <==>
              "cls" !in Keys(FactoryKwargs(name, spec))
              && (StripFlag(FactoryKwargs(name, spec)) || Known(FactoryKwargs(name, spec)))
    ensures Factory(name, spec).Err? && Factory(name, spec).error.CallFailed? ==>
              Factory(name, spec).error.error.UnexpectedKeywords?
  {
    var kwargs := FactoryKwargs(name, spec);
    if "cls" !in Keys(kwargs) {
      FactoryName(name, spec);
      var n :| 0 <= n < |kwargs| && kwargs[n] == ("name", VStr(name));
      NameRest(kwargs);
      DependencyLookupEntries();
      DependencyReaches();
      KnownRest(DependencyLookup(), kwargs);
      CallOkOn(DependencyLookup(), WithoutKey(kwargs, "strip_extra"), StripFlag(kwargs));
      FactoryCall(name, spec);
    }
  }

  /** No parameter name of `Dependency.__init__` has the lookup key `homepage`. */
  lemma NoParamSpellsHomepage(t: string)
    requires t in ["name", "optional", "path", "version", "extras", "source", "allow_prerelease"]
    ensures LookupKey(t) != LookupKey("homepage")
  {
    LookupKeyLower("homepage");
    if t == "name" { KeyName(); }
    else if t == "optional" { KeyOptional(); }
    else if t == "path" { KeyPath(); }
    else if t == "version" { KeyVersion(); }
    else if t == "extras" { KeyExtras(); }
    else if t == "source" { KeySource(); }
    else { LookupKeyAllowPrerelease(); }
  }

  /** `homepage` spells no parameter of `Dependency`. */
  lemma HomepageUnknown(lookup: map<string, string>)
    requires LookupFacts(lookup)
    ensures LookupKey("homepage") !in lookup
  {
    if LookupKey("homepage") in lookup {
      var t := lookup[LookupKey("homepage")];
      DependencyNames();
      NoParamSpellsHomepage(t);
    }
  }

  /** The keywords of a table `{"strip_extra": flag, "homepage": "x"}`: the table with `name` appended. */
  lemma HomepageEntries(name: string, flag: bool)
    ensures FactoryKwargs(name, TableSpec([("strip_extra", VBool(flag)), ("homepage", VStr("x"))])) ==
              [("strip_extra", VBool(flag)), ("homepage", VStr("x")), ("name", VStr(name))]
  {
    var entries := [("strip_extra", VBool(flag)), ("homepage", VStr("x"))];
    var tail := [("homepage", VStr("x"))];
    assert entries[1..] == tail && tail[1..] == [];
    assert entries[0].0 != "name" && tail[0].0 != "name";
    assert Put(tail, "name", VStr(name)) == tail + [("name", VStr(name))];
  }

  /** Those keywords give no `cls`, give `flag` as `strip_extra`, and hold a key that spells no parameter. */
  lemma HomepageKwargs(name: string, flag: bool)
    ensures var kwargs := FactoryKwargs(name, TableSpec([("strip_extra", VBool(flag)), ("homepage", VStr("x"))]));
            "cls" !in Keys(kwargs) && StripFlag(kwargs) == flag && !Known(kwargs)
  {
    var kwargs := [("strip_extra", VBool(flag)), ("homepage", VStr("x")), ("name", VStr(name))];
    HomepageEntries(name, flag);
    assert Keys(kwargs) == ["strip_extra", "homepage", "name"];
    assert Get(kwargs, "strip_extra") == Some(VBool(flag));
    HomepageNotKnown(kwargs);
  }

  /** Keywords holding `homepage` are not all known. */
  lemma HomepageNotKnown(kwargs: seq<(string, Value)>)
    requires |kwargs| > 1 && kwargs[1].0 == "homepage"
    ensures !Known(kwargs)
  {
    DependencyLookupEntries();
    HomepageUnknown(DependencyLookup());
  }

  /** With a falsy `strip_extra`, a key that spells no parameter reaches `Dependency` and fails. */
  lemma FactoryRaisesUnknown(name: string)
    ensures Factory(name, TableSpec([("strip_extra", VBool(false)), ("homepage", VStr("x"))])).Err?
  {
    HomepageKwargs(name, false);
    FactoryOk(name, TableSpec([("strip_extra", VBool(false)), ("homepage", VStr("x"))]));
  }

  /** With a truthy `strip_extra`, the same key is stripped. */
  lemma FactoryStripsUnknown(name: string)
    ensures Factory(name, TableSpec([("strip_extra", VBool(true)), ("homepage", VStr("x"))])).Ok?
  {
    HomepageKwargs(name, true);
    FactoryOk(name, TableSpec([("strip_extra", VBool(true)), ("homepage", VStr("x"))]));
  }

  /** A `cls` key always raises. */
  lemma FactoryRaisesCls(name: string)
    ensures Factory(name, TableSpec([("cls", VStr("x"))])) == Err(MultipleValues("cls"))
  {
    var cls := [("cls", VStr("x"))];
    assert FactoryKwargs(name, TableSpec(cls)) == cls + [("name", VStr(name))];
    assert Keys(cls + [("name", VStr(name))])[0] == "cls";
  }

  /** A version string gives a dependency on that version, named after its key, with every other attribute defaulted. */
  lemma FactoryVersion(name: string, version: string)
    ensures Factory(name, VersionSpec(version)) ==
              Ok(Dependency(VStr(name), VBool(false), VNone, VStr(version), VNone, VNone, VNone))
    ensures !IsLocal(Factory(name, VersionSpec(version)).value)
  {
    var kwargs := FactoryKwargs(name, VersionSpec(version));
    VersionKwargs(name, version);
    FactoryPlain(name, VersionSpec(version));
    DependencyLookupEntries();
    var clean := VersionClean(DependencyLookup(), name, version, kwargs);
    assert "name" in ParamNames(DependencyParams) && "version" in ParamNames(DependencyParams) by {
      DependencyNames();
    }
    NewDependencyOk(clean);
    VersionFields(name, version, clean);
  }

  /** A version string gives `flexfactory` neither `cls` nor `strip_extra`. */
  lemma VersionKwargs(name: string, version: string)
    ensures "cls" !in Keys(FactoryKwargs(name, VersionSpec(version)))
    ensures "strip_extra" !in Keys(FactoryKwargs(name, VersionSpec(version)))
  {
    assert Keys(FactoryKwargs(name, VersionSpec(version))) == ["name", "version"];
  }

  /** Without `cls` and `strip_extra`, `factory` is the unflexed call with unknown keys stripped. */
  lemma FactoryPlain(name: string, spec: Spec)
    requires "cls" !in Keys(FactoryKwargs(name, spec)) && "strip_extra" !in Keys(FactoryKwargs(name, spec))
    ensures NewDependency(UnflexCall(DependencyParams, FactoryKwargs(name, spec), true)).Ok? ==>
              Factory(name, spec) == Ok(NewDependency(UnflexCall(DependencyParams, FactoryKwargs(name, spec), true)).value)
  {
    var kwargs := FactoryKwargs(name, spec);
    assert WithoutKey(kwargs, "strip_extra") == kwargs;
    assert StripFlag(kwargs);
  }

  lemma VersionFields(name: string, version: string, clean: map<string, Value>)
    requires clean == map["name" := VStr(name), "version" := VStr(version)]
    requires NewDependency(clean).Ok?
    ensures NewDependency(clean).value == Dependency(VStr(name), VBool(false), VNone, VStr(version), VNone, VNone, VNone)
  {
    NewDependencyFields(clean);
    assert "optional" !in clean && "path" !in clean && "extras" !in clean;
    assert "source" !in clean && "allow_prerelease" !in clean;
  }

  /** The clean dict of a version string: `name` and `version`, nothing else. */
  lemma VersionClean(lookup: map<string, string>, name: string, version: string, kwargs: seq<(string, Value)>)
    returns (clean: map<string, Value>)
    requires LookupFacts(lookup)
    requires kwargs == [("name", VStr(name)), ("version", VStr(version))]
    ensures clean == Unflexed(lookup, kwargs, true)
    ensures clean == map["name" := VStr(name), "version" := VStr(version)]
  {
    KeyName();
    KeyVersion();
    assert kwargs[..1] == [("name", VStr(name))] && kwargs[..1][..0] == [];
    clean := Unflexed(lookup, kwargs, true);
  }

  /** A table with distinct keys, none but `name` itself a spelling of `name`. */
  predicate PlainTable(entries: seq<(string, Value)>)
  {
    && (forall i, j :: 0 <= i < j < |entries| ==> entries[i].0 != entries[j].0)
    && (forall i :: 0 <= i < |entries| && LookupKey(entries[i].0) == "name" ==> entries[i].0 == "name")
  }

  /** Keywords that hold `name`, only with the value `VStr(name)`, and no other spelling of it. */
  predicate NamedOnly(name: string, kwargs: seq<(string, Value)>)
  {
    && (exists i :: 0 <= i < |kwargs| && kwargs[i].0 == "name")
    && (forall i :: 0 <= i < |kwargs| && kwargs[i].0 == "name" ==> kwargs[i].1 == VStr(name))
    && (forall i :: 0 <= i < |kwargs| ==> kwargs[i].0 == "name" || LookupKey(kwargs[i].0) != "name")
  }

  /** The keywords of a plain table hold `name` only as the key, and no other spelling of it. */
  lemma TableKwargs(name: string, entries: seq<(string, Value)>)
    requires PlainTable(entries)
    ensures NamedOnly(name, FactoryKwargs(name, TableSpec(entries)))
  {
    var kwargs := FactoryKwargs(name, TableSpec(entries));
    PutOnly(entries, "name", VStr(name));
    forall i | 0 <= i < |kwargs| && kwargs[i].0 != "name"
      ensures LookupKey(kwargs[i].0) != "name"
    {
      var m :| 0 <= m < |entries| && Keys(entries)[m] == kwargs[i].0;
    }
  }

  /** Dropping `strip_extra` keeps `name` and its spellings as they were. */
  lemma NamedRest(name: string, kwargs: seq<(string, Value)>)
    requires NamedOnly(name, kwargs)
    ensures NamedOnly(name, WithoutKey(kwargs, "strip_extra"))
  {
    var rest := WithoutKey(kwargs, "strip_extra");
    var n :| 0 <= n < |kwargs| && kwargs[n].0 == "name";
    assert kwargs[n] in rest;
    forall i | 0 <= i < |rest|
      ensures rest[i].0 == "name" ==> rest[i].1 == VStr(name)
      ensures rest[i].0 == "name" || LookupKey(rest[i].0) != "name"
    {
      assert rest[i] in kwargs;
      var j :| 0 <= j < |kwargs| && kwargs[j] == rest[i];
    }
  }

  /** A successful call on keywords that give `name` only as `name` builds a dependency of that name. */
  lemma CallName(lookup: map<string, string>, name: string, rest: seq<(string, Value)>, strip: bool)
    requires LookupFacts(lookup)
    requires NamedOnly(name, rest)
    requires strip || forall j :: 0 <= j < |rest| ==> LookupKey(rest[j].0) in lookup
    ensures NewDependency(Unflexed(lookup, rest, strip)).Ok? ==>
              NewDependency(Unflexed(lookup, rest, strip)).value.name == VStr(name)
  {
    TableName(lookup, name, rest);
    if !strip {
      UnflexedKnown(lookup, rest);
    }
    if NewDependency(Unflexed(lookup, rest, strip)).Ok? {
      NewDependencyFields(Unflexed(lookup, rest, strip));
    }
  }

  /** The call `factory` makes on such keywords builds a dependency of that name. */
  lemma CallNamed(name: string, kwargs: seq<(string, Value)>)
    requires NamedOnly(name, WithoutKey(kwargs, "strip_extra"))
    requires StripFlag(kwargs) || Known(kwargs)
    ensures var call := NewDependency(UnflexCall(DependencyParams, WithoutKey(kwargs, "strip_extra"), StripFlag(kwargs)));
            call.Ok? ==> call.value.name == VStr(name)
  {
    KnownRest(DependencyLookup(), kwargs);
    DependencyLookupEntries();
    CallName(DependencyLookup(), name, WithoutKey(kwargs, "strip_extra"), StripFlag(kwargs));
  }

  /**
   * A table gives a dependency named after its key, whatever `name` entry
   * the table held, provided no other key of the table is a spelling of
   * `name` (such as `Name` or `n_a_m_e`), which `flexfactory` would also
   * file under `name`.
   */
  lemma FactoryTable(name: string, entries: seq<(string, Value)>)
    requires PlainTable(entries)
    ensures Factory(name, TableSpec(entries)).Ok? ==> Factory(name, TableSpec(entries)).value.name == VStr(name)
  {
    if Factory(name, TableSpec(entries)).Ok? {
      var kwargs := FactoryKwargs(name, TableSpec(entries));
      FactoryOk(name, TableSpec(entries));
      TableKwargs(name, entries);
      NamedRest(name, kwargs);
      CallNamed(name, kwargs);
      FactoryCall(name, TableSpec(entries));
    }
  }

  /** Keywords holding `name` only with the value `v`, and no other spelling of `name`, bind `name` to `v`. */
  lemma TableName(lookup: map<string, string>, name: string, kwargs: seq<(string, Value)>)
    requires LookupFacts(lookup)
    requires NamedOnly(name, kwargs)
    ensures "name" in Unflexed(lookup, kwargs, true) && Unflexed(lookup, kwargs, true)["name"] == VStr(name)
  {
    KeyName();
    forall i | 0 <= i < |kwargs| && Target(lookup, kwargs[i].0, true) == Some("name")
      ensures kwargs[i].1 == VStr(name)
    {
      TargetName(lookup, kwargs[i].0);
    }
    var i :| 0 <= i < |kwargs| && kwargs[i].0 == "name";
    TargetName(lookup, kwargs[i].0);
    UnflexedOnly(lookup, kwargs, "name", VStr(name));
  }

  /**
   * Every result of a map, or, when some fail, every error under its key:
   * the comprehension `dependencies_factory` runs, with its exceptions
   * gathered instead of the first one raised.
   */
  function Gathered<K(!new), V, E>(results: map<K, Result<V, E>>): (r: Result<map<K, V>, map<K, E>>)
    ensures r.Err? <==> exists k :: k in results && results[k].Err?
    ensures r.Err? ==> r.error.Keys != {} && forall k :: k in r.error <==> k in results && results[k].Err?
    ensures r.Err? ==> forall k :: k in r.error ==> results[k] == Err(r.error[k])
    ensures r.Ok? ==> r.value.Keys == results.Keys && forall k :: k in results ==> results[k] == Ok(r.value[k])
  {
    var failed := map k | k in results && results[k].Err? :: results[k].error;
    if failed.Keys != {} then Err(failed)
    else
      assert forall k :: k in results ==> results[k].Ok? by {
        forall k | k in results ensures results[k].Ok? {
          assert k !in failed;
        }
      }
      Ok(map k | k in results :: results[k].value)
  }

  /** What `factory` gives for each entry of a section. */
  function Built(section: map<string, Spec>): (r: map<string, Result<Dependency, FactoryError>>)
    ensures r.Keys == section.Keys
    ensures forall k :: k in section ==> r[k] == Factory(k, section[k])
  {
    map k | k in section :: Factory(k, section[k])
  }

  /**
   * `dependencies_factory`: one `Dependency` per entry, under the same key; a
   * missing or empty section gives none. When entries raise, the error is
   * given for each of them.
   */
  function DependenciesFactory(section: Option<map<string, Spec>>)
    : (r: Result<map<string, Dependency>, map<string, FactoryError>>)
    ensures section.None? ==> r == Ok(map[])
    ensures r.Err? <==> section.Some? && exists k :: k in section.value && Factory(k, section.value[k]).Err?
    ensures r.Err? ==> section.Some? && r.error.Keys != {}
                       && forall k :: k in r.error <==> k in section.value && Factory(k, section.value[k]).Err?
    ensures r.Err? ==> forall k :: k in r.error ==> Factory(k, section.value[k]) == Err(r.error[k])
    ensures r.Ok? && section.Some? ==> r.value.Keys == section.value.Keys
    ensures r.Ok? && section.Some? ==> forall k :: k in section.value ==> Factory(k, section.value[k]) == Ok(r.value[k])
  {
    if section.None? then Ok(map[]) else Gathered(Built(section.value))
  }

  /** A version string, or a table without `cls` and `strip_extra`, gives `flexfactory` neither. */
  lemma PlainKwargs(name: string, spec: Spec)
    requires spec.TableSpec? ==> "cls" !in Keys(spec.entries) && "strip_extra" !in Keys(spec.entries)
    ensures "cls" !in Keys(FactoryKwargs(name, spec)) && "strip_extra" !in Keys(FactoryKwargs(name, spec))
  {
    match spec
    case VersionSpec(v) => VersionKwargs(name, v);
    case TableSpec(entries) => PutKeys(entries, "name", VStr(name));
  }

  /** An entry without `cls` and `strip_extra` never raises. */
  lemma EntryOk(name: string, spec: Spec)
    requires spec.TableSpec? ==> "cls" !in Keys(spec.entries) && "strip_extra" !in Keys(spec.entries)
    ensures Factory(name, spec).Ok?
  {
    PlainKwargs(name, spec);
    FactoryOk(name, spec);
  }

  /** A section whose tables give neither `cls` nor `strip_extra` never raises. */
  lemma SectionOk(section: map<string, Spec>)
    requires forall k :: k in section && section[k].TableSpec? ==>
               "cls" !in Keys(section[k].entries) && "strip_extra" !in Keys(section[k].entries)
    ensures DependenciesFactory(Some(section)).Ok?
  {
    forall k | k in section ensures Factory(k, section[k]).Ok? {
      EntryOk(k, section[k]);
    }
  }

  /** Every dependency built is named after its key. */
  lemma DependenciesNamed(section: map<string, Spec>)
    requires forall k :: k in section && section[k].TableSpec? ==> PlainTable(section[k].entries)
    ensures DependenciesFactory(Some(section)).Ok? ==>
              forall k :: k in section ==> DependenciesFactory(Some(section)).value[k].name == VStr(k)
  {
    if DependenciesFactory(Some(section)).Ok? {
      forall k | k in section
        ensures DependenciesFactory(Some(section)).value[k].name == VStr(k)
      {
        match section[k]
        case VersionSpec(v) => FactoryVersion(k, v);
        case TableSpec(entries) => FactoryTable(k, entries);
      }
    }
  }

  /** `name.replace("-", "_")`. */
  function SafeName(name: string): (r: string)
    ensures |r| == |name|
    ensures forall i :: 0 <= i < |name| ==> r[i] == if name[i] == '-' then '_' else name[i]
  {
    seq(|name|, i requires 0 <= i < |name| => if name[i] == '-' then '_' else name[i])
  }

  /** The safe name has no `-`, differs from the name only where it had one, and is its own safe name. */
  lemma SafeNameProperties(name: string)
    ensures '-' !in SafeName(name)
    ensures '-' !in name ==> SafeName(name) == name
    ensures SafeName(SafeName(name)) == SafeName(name)
  {
    if '-' !in name {
      assert forall i :: 0 <= i < |name| ==> name[i] != '-';
    }
  }

  /** The poetry section: its attributes are final once `__init__` has set them. */
  datatype Poetry = Poetry(
    name: string, safeName: string, authors: seq<string>, version: string, description: string,
    dependencies: map<string, Dependency>, devDependencies: map<string, Dependency>)

  /** `PoetryAPI.__init__`: the regular section is built first, so its error is the one raised. */
  function NewPoetry(name: string, version: string, description: string, authors: seq<string>,
                     dependencies: Option<map<string, Spec>>, devDependencies: Option<map<string, Spec>>)
    : (r: Result<Poetry, map<string, FactoryError>>)
    ensures r.Ok? <==> DependenciesFactory(dependencies).Ok? && DependenciesFactory(devDependencies).Ok?
    ensures DependenciesFactory(dependencies).Err? ==> r == Err(DependenciesFactory(dependencies).error)
    ensures DependenciesFactory(dependencies).Ok? && DependenciesFactory(devDependencies).Err? ==>
              r == Err(DependenciesFactory(devDependencies).error)
    ensures r.Ok? ==> r.value.name == name && r.value.safeName == SafeName(name)
                      && r.value.dependencies == DependenciesFactory(dependencies).value
                      && r.value.devDependencies == DependenciesFactory(devDependencies).value
  {
    match DependenciesFactory(dependencies)
    case Err(e) => Err(e)
    case Ok(regular) =>
      match DependenciesFactory(devDependencies)
      case Err(e) => Err(e)
      case Ok(dev) => Ok(Poetry(name, SafeName(name), authors, version, description, regular, dev))
  }

  /** `all_dependencies`: both sections, the dev entry winning on a shared name. */
  function AllDependencies(p: Poetry): (r: map<string, Dependency>)
    ensures forall k :: k in r <==> k in p.dependencies || k in p.devDependencies
  {
    p.dependencies + p.devDependencies
  }

  /** Every name of either section is present; a dev dependency wins over a regular one of the same name. */
  lemma AllDependenciesMerge(p: Poetry)
    ensures AllDependencies(p).Keys == p.dependencies.Keys + p.devDependencies.Keys
    ensures forall k :: k in p.devDependencies ==> AllDependencies(p)[k] == p.devDependencies[k]
    ensures forall k :: k in p.dependencies && k !in p.devDependencies ==> AllDependencies(p)[k] == p.dependencies[k]
  {
  }
}

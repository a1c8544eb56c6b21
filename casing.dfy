/**
 * Case- and separator-insensitive keyword mapping: dirty keys such as
 * `ArG_1` or `arg-1` are mapped to the parameter name `arg1` of a callable.
 */
module Casing {
  import opened Wrappers
  import opened Text
  import opened PyValues
  import opened Hints

  /** The characters `TRANSLATION_TABLE` deletes. */
  predicate Deleted(c: char)
  {
    c == '_' || c == '-' || c == '.' || c == ' '
  }

  /** `s.translate(TRANSLATION_TABLE)`. */
  function Translate(s: string): (r: string)
    ensures forall i :: 0 <= i < |r| ==> !Deleted(r[i])
    decreases |s|
  {
    if |s| == 0 then ""
    else if Deleted(s[0]) then Translate(s[1..])
    else [s[0]] + Translate(s[1..])
  }

  /** `_lookup_key`: separators removed, then lowercased. */
  function LookupKey(key: string): string
  {
    Lower(Translate(key))
  }

  lemma {:induction false} TranslateAppend(a: string, b: string)
    ensures Translate(a + b) == Translate(a) + Translate(b)
    decreases |a|
  {
    if |a| == 0 {
      assert a + b == b;
    } else {
      assert (a + b)[1..] == a[1..] + b;
      TranslateAppend(a[1..], b);
    }
  }

  lemma {:induction false} TranslateLower(s: string)
    ensures Translate(Lower(s)) == Lower(Translate(s))
    decreases |s|
  {
    if |s| > 0 {
      TranslateLower(s[1..]);
      assert Lower(s)[1..] == Lower(s[1..]);
      if !Deleted(s[0]) {
        assert Lower([s[0]] + Translate(s[1..])) == [LowerChar(s[0])] + Lower(Translate(s[1..]));
      }
    }
  }

  /** A separator anywhere in a key does not change its lookup key. */
  lemma LookupKeyIgnoresSeparator(a: string, c: char, b: string)
    requires Deleted(c)
    ensures LookupKey(a + [c] + b) == LookupKey(a + b)
  {
    TranslateAppend(a + [c], b);
    TranslateAppend(a, [c]);
    TranslateAppend(a, b);
    assert Translate([c]) == "";
    assert Translate(a) + "" == Translate(a);
  }

  /** Keys that differ only in ASCII letter case share a lookup key. */
  lemma LookupKeyIgnoresCase(s: string)
    ensures LookupKey(Lower(s)) == LookupKey(s)
  {
    TranslateLower(s);
    assert Lower(Lower(s)) == Lower(s);
    TranslateLower(Lower(s));
  }

  /**
   * `create_lookup(fn, extras)`: each annotation name and each allowed
   * extra, except `return`, reachable from its lookup key; when two names
   * share a key the later one is kept.
   */
  function CreateLookup(names: seq<string>): (lookup: map<string, string>)
    ensures forall a :: a in names && a != "return" ==> LookupKey(a) in lookup
    ensures forall k :: k in lookup ==> lookup[k] in names && lookup[k] != "return" && LookupKey(lookup[k]) == k
    decreases |names|
  {
    if |names| == 0 then map[]
    else
      var init := names[..|names| - 1];
      var last := names[|names| - 1];
      var m := CreateLookup(init);
      assert names == init + [last];
      if last == "return" then m else m[LookupKey(last) := last]
  }

  /** Where `unflex` files a dirty key: its canonical name, itself when it is unknown and kept, nowhere when stripped. */
  function Target(lookup: map<string, string>, key: string, stripExtra: bool): Option<string>
  {
    if LookupKey(key) in lookup then Some(lookup[LookupKey(key)])
    else if stripExtra then None
    else Some(key)
  }

  /** The dict `_FlexcaseDecorator.unflex` returns for keyword arguments given in iteration order. */
  function Unflexed<V>(lookup: map<string, string>, kwargs: seq<(string, V)>, stripExtra: bool): (clean: map<string, V>)
    ensures |clean| <= |kwargs|
    decreases |kwargs|
  {
    if |kwargs| == 0 then map[]
    else
      var m := Unflexed(lookup, kwargs[..|kwargs| - 1], stripExtra);
      match Target(lookup, kwargs[|kwargs| - 1].0, stripExtra)
      case None => m
      case Some(t) => m[t := kwargs[|kwargs| - 1].1]
  }

  /** When every dirty key spells a name, `strip_extra` makes no difference. */
  lemma {:induction false} UnflexedKnown<V>(lookup: map<string, string>, kwargs: seq<(string, V)>)
    requires forall i :: 0 <= i < |kwargs| ==> LookupKey(kwargs[i].0) in lookup
    ensures Unflexed(lookup, kwargs, false) == Unflexed(lookup, kwargs, true)
    decreases |kwargs|
  {
    if |kwargs| > 0 {
      var init := kwargs[..|kwargs| - 1];
      assert forall i :: 0 <= i < |init| ==> init[i] == kwargs[i];
      UnflexedKnown(lookup, init);
    }
  }

  /** The clean dict has exactly the names some dirty key is filed under. */
  lemma {:induction false} UnflexedKeys<V>(lookup: map<string, string>, kwargs: seq<(string, V)>, stripExtra: bool, k: string)
    ensures k in Unflexed(lookup, kwargs, stripExtra) <==>
      exists i :: 0 <= i < |kwargs| && Target(lookup, kwargs[i].0, stripExtra) == Some(k)
    decreases |kwargs|
  {
    if |kwargs| > 0 {
      var init := kwargs[..|kwargs| - 1];
      UnflexedKeys(lookup, init, stripExtra, k);
      if k in Unflexed(lookup, init, stripExtra) {
        var i :| 0 <= i < |init| && Target(lookup, init[i].0, stripExtra) == Some(k);
        assert kwargs[i] == init[i];
      }
      if exists i :: 0 <= i < |kwargs| && Target(lookup, kwargs[i].0, stripExtra) == Some(k) {
        var i :| 0 <= i < |kwargs| && Target(lookup, kwargs[i].0, stripExtra) == Some(k);
        if i < |init| {
          assert kwargs[i] == init[i];
        }
      }
    }
  }

  /** Every value in the clean dict is the value of some dirty key. */
  lemma {:induction false} UnflexedValues<V>(lookup: map<string, string>, kwargs: seq<(string, V)>, stripExtra: bool, k: string)
    requires k in Unflexed(lookup, kwargs, stripExtra)
    ensures exists i :: 0 <= i < |kwargs| && Unflexed(lookup, kwargs, stripExtra)[k] == kwargs[i].1
    decreases |kwargs|
  {
    var init := kwargs[..|kwargs| - 1];
    var last := |kwargs| - 1;
    if Target(lookup, kwargs[last].0, stripExtra) == Some(k) {
      assert Unflexed(lookup, kwargs, stripExtra)[k] == kwargs[last].1;
    } else {
      UnflexedValues(lookup, init, stripExtra, k);
      var i :| 0 <= i < |init| && Unflexed(lookup, init, stripExtra)[k] == init[i].1;
      assert kwargs[i] == init[i];
    }
  }

  /** Of several dirty keys filed under the same name, the last one's value is kept, untouched. */
  lemma {:induction false} UnflexLastWins<V>(lookup: map<string, string>, kwargs: seq<(string, V)>, stripExtra: bool, j: nat)
    requires j < |kwargs| && Target(lookup, kwargs[j].0, stripExtra).Some?
    requires forall i :: j < i < |kwargs| ==>
      Target(lookup, kwargs[i].0, stripExtra) != Target(lookup, kwargs[j].0, stripExtra)
    ensures Target(lookup, kwargs[j].0, stripExtra).value in Unflexed(lookup, kwargs, stripExtra)
    ensures Unflexed(lookup, kwargs, stripExtra)[Target(lookup, kwargs[j].0, stripExtra).value] == kwargs[j].1
    decreases |kwargs|
  {
    if j < |kwargs| - 1 {
      var init := kwargs[..|kwargs| - 1];
      assert init[j] == kwargs[j];
      assert forall i :: j < i < |init| ==> init[i] == kwargs[i];
      UnflexLastWins(lookup, init, stripExtra, j);
    }
  }

  /** `_FlexcaseDecorator.unflex`: the loop that builds the clean dict. */
  method Unflex<V>(lookup: map<string, string>, kwargs: seq<(string, V)>, stripExtra: bool) returns (clean: map<string, V>)
    ensures clean == Unflexed(lookup, kwargs, stripExtra)
  {
    clean := map[];
    var i := 0;
    while i < |kwargs|
      invariant 0 <= i <= |kwargs|
      invariant clean == Unflexed(lookup, kwargs[..i], stripExtra)
    {
      var key := kwargs[i].0;
      var lookupKey := LookupKey(key);
      UnflexedStep(lookup, kwargs, i, stripExtra);
      if lookupKey !in lookup {
        if !stripExtra {
          clean := clean[key := kwargs[i].1];
        }
      } else {
        clean := clean[lookup[lookupKey] := kwargs[i].1];
      }
      i := i + 1;
    }
    assert kwargs[..i] == kwargs;
  }

  /** Filing one more dirty key updates the clean dict built so far under that key's name, if it has one. */
  lemma UnflexedStep<V>(lookup: map<string, string>, kwargs: seq<(string, V)>, i: nat, stripExtra: bool)
    requires i < |kwargs|
    ensures var t := Target(lookup, kwargs[i].0, stripExtra);
            Unflexed(lookup, kwargs[..i + 1], stripExtra)
            == if t.None? then Unflexed(lookup, kwargs[..i], stripExtra)
               else Unflexed(lookup, kwargs[..i], stripExtra)[t.value := kwargs[i].1]
  {
    assert kwargs[..i + 1][..i] == kwargs[..i];
  }

  /** Module-level `unflex(fn, dirty_kwargs, strip_extra)`: the lookup is built from the callable's annotations. */
  function UnflexCall(params: seq<Param>, kwargs: seq<(string, Value)>, stripExtra: bool): map<string, Value>
  {
    Unflexed(CreateLookup(AnnotatedNames(params)), kwargs, stripExtra)
  }

  /** The keyword arguments a `flexcase`-wrapped function receives. */
  function Flexcase(params: seq<Param>, allowedExtras: seq<string>, stripExtra: bool, kwargs: seq<(string, Value)>)
    : (passed: map<string, Value>)
    ensures stripExtra ==> forall k :: k in passed ==> k in AnnotatedNames(params) + allowedExtras
    ensures forall i :: 0 <= i < |kwargs| && kwargs[i].0 in AnnotatedNames(params) + allowedExtras && kwargs[i].0 != "return" ==>
              exists k :: k in passed && LookupKey(k) == LookupKey(kwargs[i].0)
  {
    var lookup := CreateLookup(AnnotatedNames(params) + allowedExtras);
    var passed := Unflexed(lookup, kwargs, stripExtra);
    assert stripExtra ==> forall k :: k in passed ==> k in AnnotatedNames(params) + allowedExtras by {
      forall k | stripExtra && k in passed ensures k in AnnotatedNames(params) + allowedExtras {
        UnflexedKeys(lookup, kwargs, stripExtra, k);
      }
    }
    assert forall i :: 0 <= i < |kwargs| && kwargs[i].0 in AnnotatedNames(params) + allowedExtras && kwargs[i].0 != "return" ==>
             lookup[LookupKey(kwargs[i].0)] in passed by {
      forall i | 0 <= i < |kwargs| && kwargs[i].0 in AnnotatedNames(params) + allowedExtras && kwargs[i].0 != "return"
        ensures lookup[LookupKey(kwargs[i].0)] in passed
      {
        UnflexedKeys(lookup, kwargs, stripExtra, lookup[LookupKey(kwargs[i].0)]);
      }
    }
    passed
  }

  /** `flexfactory(cls, strip_extra=..., **dirty_kwargs)`: `cls(**unflex(cls.__init__, dirty_kwargs))`. */
  function Flexfactory(cls: string, params: seq<Param>, kwargs: seq<(string, Value)>, stripExtra: bool)
    : Result<Value, CallError>
  {
    Instantiate(cls, params, UnflexCall(params, kwargs, stripExtra))
  }

  /**
   * With extras stripped, `flexfactory` never passes an unknown keyword: it
   * fails only when a required parameter is reached by no dirty key.
   */
  lemma FlexfactoryStripped(cls: string, params: seq<Param>, kwargs: seq<(string, Value)>)
    ensures !Flexfactory(cls, params, kwargs, true).Err? || Flexfactory(cls, params, kwargs, true).error.MissingArguments?
    ensures Flexfactory(cls, params, kwargs, true).Ok? <==>
      forall i :: 0 <= i < |params| ==> params[i].name in UnflexCall(params, kwargs, true) || params[i].default.Some?
  {
    var clean := UnflexCall(params, kwargs, true);
    forall k | k in clean ensures k in ParamNames(params) {
      UnflexedKeys(CreateLookup(AnnotatedNames(params)), kwargs, true, k);
      var i :| 0 <= i < |kwargs| && Target(CreateLookup(AnnotatedNames(params)), kwargs[i].0, true) == Some(k);
      assert k in AnnotatedNames(params);
      var p :| 0 <= p < |params| && params[p].annotation.Some? && params[p].name == k;
      assert ParamNames(params)[p] == k;
    }
  }
}

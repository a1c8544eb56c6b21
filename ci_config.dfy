/**
 * `coveo_stew.ci.config.ContinuousIntegrationConfig`: the `[tool.stew.ci]`
 * section of a project, normalised into one optional runner per builtin
 * check plus the custom runners.
 *
 * A runner is recorded as the class and the keyword arguments handed to
 * `flexfactory`; what each runner class then does with them is not part of
 * this model. The instance `__dict__` is the sequence `dict`, in insertion
 * order, since `runners` reads its values in that order.
 */
module CiConfig {
  import opened Wrappers
  import opened PyValues

  datatype RunnerClass = MypyRunner | CheckOutdatedRunner | PytestRunner | PoetryCheckRunner
                       | OfflineInstallRunner | BlackRunner | AnyRunner

  /** `CIConfig`: absent, `true`/`false`, or a table of options. */
  datatype CIConfig = NoConfig | Flag(enabled: bool) | Table(options: map<string, Value>)

  /**
   * A runner built by `flexfactory(cls, **kwargs)`: a keyword named
   * `strip_extra` is `flexfactory`'s own parameter (default `True`) and
   * does not reach the class.
   */
  datatype Runner = Runner(cls: RunnerClass, kwargs: map<string, Value>, stripExtra: Value)

  /** A value of the instance `__dict__`. */
  datatype Attr = ProjectAttr | DisabledAttr(disabled: bool) | RunnerAttr(runner: Option<Runner>)

  datatype ConfigError =
    | CannotLoadProject(message: string)
      /** `TypeError`: the same keyword given twice to `flexfactory`. */
    | MultipleValues(keywords: set<string>)

  /** The keywords `_flexfactory` passes besides the table: its `extra`, `_pyproject`, and `flexfactory`'s own `cls`. */
  function Reserved(extra: map<string, Value>): set<string>
  {
    extra.Keys + {"_pyproject", "cls"}
  }

  /** The keywords `flexfactory(cls, **options, **extra, _pyproject=...)` would receive twice. */
  function Duplicates(options: map<string, Value>, extra: map<string, Value>): set<string>
  {
    options.Keys * Reserved(extra) + extra.Keys * {"_pyproject", "cls"}
  }

  /** `flexfactory(cls, **options, **extra, _pyproject=pyproject)`. */
  function Call(cls: RunnerClass, options: map<string, Value>, extra: map<string, Value>, pyproject: Value)
    : (r: Result<Option<Runner>, ConfigError>)
    ensures r.Err? <==> Duplicates(options, extra) != {}
    ensures r.Err? ==> r.error == MultipleValues(Duplicates(options, extra))
    ensures r.Ok? ==> r.value.Some? && r.value.value.cls == cls
    ensures r.Ok? ==> r.value.value.kwargs.Keys == options.Keys + extra.Keys + {"_pyproject"} - {"strip_extra"}
    ensures r.Ok? ==> (forall k :: k in options && k != "strip_extra" ==> r.value.value.kwargs[k] == options[k])
                      && (forall k :: k in extra && k != "strip_extra" ==> r.value.value.kwargs[k] == extra[k])
                      && r.value.value.kwargs["_pyproject"] == pyproject
    ensures r.Ok? ==> r.value.value.stripExtra ==
                      if "strip_extra" in options then options["strip_extra"]
                      else if "strip_extra" in extra then extra["strip_extra"]
                      else VBool(true)
  {
    var clash := Duplicates(options, extra);
    if clash != {} then Err(MultipleValues(clash))
    else
      assert forall k :: k in options ==> k !in extra && k != "_pyproject" by {
        forall k | k in options
          ensures k !in extra && k != "_pyproject"
        {
          assert k in Reserved(extra) ==> k in clash;
        }
      }
      assert forall k :: k in extra ==> k != "_pyproject" by {
        forall k | k in extra
          ensures k != "_pyproject"
        {
          assert k == "_pyproject" ==> k in clash;
        }
      }
      var kwargs := options + extra + map["_pyproject" := pyproject];
      var strip := if "strip_extra" in kwargs then kwargs["strip_extra"] else VBool(true);
      PassedKeywords(options, extra, pyproject);
      Ok(Some(Runner(cls, kwargs - {"strip_extra"}, strip)))
  }

  /** Keywords that no two sources share all reach the class, but `strip_extra`. */
  lemma PassedKeywords(options: map<string, Value>, extra: map<string, Value>, pyproject: Value)
    requires forall k :: k in options ==> k !in extra && k != "_pyproject"
    requires forall k :: k in extra ==> k != "_pyproject"
    ensures var passed := (options + extra + map["_pyproject" := pyproject]) - {"strip_extra"};
            passed.Keys == options.Keys + extra.Keys + {"_pyproject"} - {"strip_extra"}
            && (forall k :: k in options && k != "strip_extra" ==> passed[k] == options[k])
            && (forall k :: k in extra && k != "strip_extra" ==> passed[k] == extra[k])
            && passed["_pyproject"] == pyproject
  {
  }

  /** `_flexfactory`: `None` and `false` give no runner, `true` stands for an empty table. */
  function FlexFactory(cls: RunnerClass, config: CIConfig, extra: map<string, Value>, pyproject: Value)
    : (r: Result<Option<Runner>, ConfigError>)
    ensures (config.NoConfig? || config == Flag(false)) ==> r == Ok(None)
    ensures config == Flag(true) && Duplicates(map[], extra) == {} && "strip_extra" !in extra ==>
              r == Ok(Some(Runner(cls, extra + map["_pyproject" := pyproject], VBool(true))))
    ensures config.Table? ==> r == Call(cls, config.options, extra, pyproject)
  {
    match config
    case NoConfig => Ok(None)
    case Flag(enabled) =>
      if enabled then
        assert map[] + extra == extra;
        assert "strip_extra" !in extra ==>
          (extra + map["_pyproject" := pyproject]) - {"strip_extra"} == extra + map["_pyproject" := pyproject];
        Call(cls, map[], extra, pyproject)
      else Ok(None)
    case Table(options) => Call(cls, options, extra, pyproject)
  }

  /** The keyword arguments of `ContinuousIntegrationConfig.__init__`; `None` custom runners are given as none. */
  datatype Options = Options(
    disabled: bool,
    mypy: CIConfig, checkOutdated: CIConfig, poetryCheck: CIConfig,
    pytest: CIConfig, offlineBuild: CIConfig, black: CIConfig,
    customRunners: seq<(string, CIConfig)>)

  /** Every keyword left to its default. */
  const Defaults: Options :=
    Options(false, Flag(true), Flag(true), Flag(true), Flag(false), Flag(false), Flag(false), [])

  /** One attribute assignment of `__init__`: `setattr(self, name, self._flexfactory(cls, config, **extra))`. */
  datatype Step = Step(name: string, cls: RunnerClass, config: CIConfig, extra: map<string, Value>, custom: bool)

  /** The builtin runners, in the order `__init__` assigns them. */
  function BuiltinSteps(opts: Options): seq<Step>
  {
    [ Step("mypy", MypyRunner, opts.mypy, map[], false),
      Step("check_outdated", CheckOutdatedRunner, opts.checkOutdated, map[], false),
      Step("pytest", PytestRunner, opts.pytest, map[], false),
      Step("poetry_check", PoetryCheckRunner, opts.poetryCheck, map[], false),
      Step("offline_build", OfflineInstallRunner, opts.offlineBuild, map[], false),
      Step("black", BlackRunner, opts.black, map[], false) ]
  }

  /** A custom runner is an `AnyRunner` that also receives its name. */
  function CustomSteps(customs: seq<(string, CIConfig)>): (steps: seq<Step>)
    ensures |steps| == |customs|
    ensures forall k :: 0 <= k < |customs| ==>
              steps[k] == Step(customs[k].0, AnyRunner, customs[k].1, map["name" := VStr(customs[k].0)], true)
  {
    seq(|customs|, k requires 0 <= k < |customs| =>
      Step(customs[k].0, AnyRunner, customs[k].1, map["name" := VStr(customs[k].0)], true))
  }

  function Steps(opts: Options): seq<Step>
  {
    BuiltinSteps(opts) + CustomSteps(opts.customRunners)
  }

  /** The names an instance has through its class: `runners`, `_flexfactory` and those of `object`. */
  const ClassAttributes: set<string> := {
    "runners", "_flexfactory",
    "__class__", "__delattr__", "__dict__", "__dir__", "__doc__", "__eq__", "__format__", "__ge__",
    "__getattribute__", "__gt__", "__hash__", "__init__", "__init_subclass__", "__le__", "__lt__",
    "__module__", "__ne__", "__new__", "__reduce__", "__reduce_ex__", "__repr__", "__setattr__",
    "__sizeof__", "__str__", "__subclasshook__", "__weakref__"
  }

  /** `hasattr(self, name)`. */
  predicate HasAttr(dict: seq<(string, Attr)>, name: string)
  {
    name in Keys(dict) || name in ClassAttributes
  }

  function ConflictMessage(name: string): string
  {
    "Custom runner " + name + " conflicts with the builtin version."
  }

  /** The attributes `__init__` sets before any runner. */
  function Initial(disabled: bool): seq<(string, Attr)>
  {
    [("_pyproject", ProjectAttr), ("disabled", DisabledAttr(disabled))]
  }

  /**
   * Running the assignments from `dict` on: the attributes set when they
   * are all done or when one raises, and what it raised.
   */
  function Run(dict: seq<(string, Attr)>, steps: seq<Step>, pyproject: Value): (seq<(string, Attr)>, Option<ConfigError>)
    decreases |steps|
  {
    if |steps| == 0 then (dict, None)
    else
      var s := steps[0];
      if s.custom && HasAttr(dict, s.name) then (dict, Some(CannotLoadProject(ConflictMessage(s.name))))
      else
        match FlexFactory(s.cls, s.config, s.extra, pyproject)
        case Err(e) => (dict, Some(e))
        case Ok(r) => Run(dict + [(s.name, RunnerAttr(r))], steps[1..], pyproject)
  }

  class ContinuousIntegrationConfig {
    /** The instance `__dict__`. */
    var dict: seq<(string, Attr)>

    constructor ()
      ensures dict == []
    {
      dict := [];
    }

    /**
     * `__init__`: the builtin runners, then the custom ones, each assigned
     * as an attribute; a custom name the object already has raises
     * `CannotLoadProject`. The attributes set before a raise stay set.
     */
    method Init(opts: Options, pyproject: Value) returns (err: Option<ConfigError>)
      modifies this
      ensures (dict, err) == Run(Initial(opts.disabled), Steps(opts), pyproject)
    {
      dict := Initial(opts.disabled);
      var steps := Steps(opts);
      err := None;
      var i := 0;
      while i < |steps|
        invariant 0 <= i <= |steps|
        invariant Run(dict, steps[i..], pyproject) == Run(Initial(opts.disabled), steps, pyproject)
      {
        var s := steps[i];
        RunAt(dict, steps, i, pyproject);
        if s.custom && HasAttr(dict, s.name) {
          err := Some(CannotLoadProject(ConflictMessage(s.name)));
          return;
        }
        var r := FlexFactory(s.cls, s.config, s.extra, pyproject);
        if r.Err? {
          err := Some(r.error);
          return;
        }
        dict := dict + [(s.name, RunnerAttr(r.value))];
        i := i + 1;
      }
      assert steps[i..] == [];
    }
  }

  /** The run from step `i` on, one step unfolded. */
  lemma RunAt(dict: seq<(string, Attr)>, steps: seq<Step>, i: nat, pyproject: Value)
    requires i < |steps|
    ensures var s := steps[i];
            Run(dict, steps[i..], pyproject) ==
              if s.custom && HasAttr(dict, s.name) then (dict, Some(CannotLoadProject(ConflictMessage(s.name))))
              else
                var f := FlexFactory(s.cls, s.config, s.extra, pyproject);
                if f.Err? then (dict, Some(f.error))
                else Run(dict + [(s.name, RunnerAttr(f.value))], steps[i + 1..], pyproject)
  {
    assert steps[i..][0] == steps[i] && steps[i..][1..] == steps[i + 1..];
  }

  /** Steps that all succeed can be followed by more: the run goes on from where they left off. */
  lemma {:induction false} RunAppend(dict: seq<(string, Attr)>, a: seq<Step>, b: seq<Step>, pyproject: Value)
    ensures Run(dict, a, pyproject).1.None? ==>
              Run(dict, a + b, pyproject) == Run(Run(dict, a, pyproject).0, b, pyproject)
    ensures Run(dict, a, pyproject).1.Some? ==> Run(dict, a + b, pyproject) == Run(dict, a, pyproject)
    decreases |a|
  {
    if |a| == 0 {
      assert a + b == b;
    } else {
      assert (a + b)[0] == a[0] && (a + b)[1..] == a[1..] + b;
      var s := a[0];
      if !(s.custom && HasAttr(dict, s.name)) {
        match FlexFactory(s.cls, s.config, s.extra, pyproject)
        case Err(e) =>
        case Ok(r) => RunAppend(dict + [(s.name, RunnerAttr(r))], a[1..], b, pyproject);
      }
    }
  }

  /** A configuration `_flexfactory` accepts: no keyword is given twice. */
  predicate Accepted(config: CIConfig, extra: map<string, Value>)
  {
    && (config.Table? ==> Duplicates(config.options, extra) == {})
    && (config == Flag(true) ==> Duplicates(map[], extra) == {})
  }

  /** The runner a step assigns when its configuration is accepted. */
  function Built(s: Step, pyproject: Value): Option<Runner>
    requires Accepted(s.config, s.extra)
  {
    FlexFactory(s.cls, s.config, s.extra, pyproject).value
  }

  /** The attributes a run of accepted steps assigns. */
  function Assigned(steps: seq<Step>, pyproject: Value): (d: seq<(string, Attr)>)
    requires forall k :: 0 <= k < |steps| ==> Accepted(steps[k].config, steps[k].extra)
    ensures |d| == |steps|
    ensures forall k :: 0 <= k < |steps| ==> d[k] == (steps[k].name, RunnerAttr(Built(steps[k], pyproject)))
    decreases |steps|
  {
    if |steps| == 0 then []
    else
      [(steps[0].name, RunnerAttr(Built(steps[0], pyproject)))] + Assigned(steps[1..], pyproject)
  }

  /** Builtin steps never check names: when accepted, they all assign their runner. */
  lemma {:induction false} BuiltinsAssign(dict: seq<(string, Attr)>, steps: seq<Step>, pyproject: Value)
    requires forall k :: 0 <= k < |steps| ==> !steps[k].custom && Accepted(steps[k].config, steps[k].extra)
    ensures Run(dict, steps, pyproject) == (dict + Assigned(steps, pyproject), None)
    decreases |steps|
  {
    if |steps| == 0 {
      assert dict + [] == dict;
    } else {
      var head := (steps[0].name, RunnerAttr(Built(steps[0], pyproject)));
      AcceptedStep(dict, steps, pyproject);
      BuiltinsAssign(dict + [head], steps[1..], pyproject);
      assert Assigned(steps, pyproject) == [head] + Assigned(steps[1..], pyproject);
      assert dict + [head] + Assigned(steps[1..], pyproject) == dict + ([head] + Assigned(steps[1..], pyproject));
    }
  }

  /** An accepted step that is builtin, or custom with a free name, assigns its runner and the run goes on. */
  lemma AcceptedStep(dict: seq<(string, Attr)>, steps: seq<Step>, pyproject: Value)
    requires |steps| > 0 && !(steps[0].custom && HasAttr(dict, steps[0].name)) && Accepted(steps[0].config, steps[0].extra)
    ensures Run(dict, steps, pyproject) == Run(dict + [(steps[0].name, RunnerAttr(Built(steps[0], pyproject)))], steps[1..], pyproject)
  {
  }

  /** The builtin runners, assigned one after the other. */
  function BuiltinDict(opts: Options, pyproject: Value): seq<(string, Attr)>
    requires forall k :: 0 <= k < 6 ==> Accepted(BuiltinSteps(opts)[k].config, map[])
  {
    Initial(opts.disabled) + Assigned(BuiltinSteps(opts), pyproject)
  }

  /** The builtin runners never raise when their tables are accepted. */
  lemma BuiltinsRun(opts: Options, pyproject: Value)
    requires forall k :: 0 <= k < 6 ==> Accepted(BuiltinSteps(opts)[k].config, map[])
    ensures Run(Initial(opts.disabled), BuiltinSteps(opts), pyproject) == (BuiltinDict(opts, pyproject), None)
  {
    var b := BuiltinSteps(opts);
    assert forall k :: 0 <= k < |b| ==> !b[k].custom && b[k].extra == map[];
    BuiltinsAssign(Initial(opts.disabled), b, pyproject);
  }

  /** They leave the eight builtin attributes, in the order they are assigned. */
  lemma BuiltinNames(opts: Options, pyproject: Value)
    requires forall k :: 0 <= k < 6 ==> Accepted(BuiltinSteps(opts)[k].config, map[])
    ensures Keys(BuiltinDict(opts, pyproject)) ==
              ["_pyproject", "disabled", "mypy", "check_outdated", "pytest", "poetry_check", "offline_build", "black"]
  {
    var b := BuiltinSteps(opts);
    var a := Assigned(b, pyproject);
    var all := Initial(opts.disabled) + a;
    var expected := ["_pyproject", "disabled", "mypy", "check_outdated", "pytest", "poetry_check", "offline_build", "black"];
    forall i | 0 <= i < 8
      ensures Keys(all)[i] == expected[i]
    {
      if i >= 2 {
        assert all[i] == a[i - 2];
        assert a[i - 2].0 == b[i - 2].name;
      }
    }
  }

  /** `true` gives the runner with only `_pyproject`; `false` gives none. */
  lemma FlagRunner(cls: RunnerClass, pyproject: Value)
    ensures FlexFactory(cls, Flag(true), map[], pyproject) == Ok(Some(Runner(cls, map["_pyproject" := pyproject], VBool(true))))
    ensures FlexFactory(cls, Flag(false), map[], pyproject) == Ok(None)
  {
    assert Duplicates(map[], map[]) == {};
    assert map[] + map["_pyproject" := pyproject] == map["_pyproject" := pyproject];
  }

  /** With every keyword at its default, mypy, check_outdated and poetry_check get a runner with only `_pyproject`. */
  lemma DefaultsBuilt(pyproject: Value)
    requires forall k :: 0 <= k < 6 ==> Accepted(BuiltinSteps(Defaults)[k].config, map[])
    ensures var d := Assigned(BuiltinSteps(Defaults), pyproject);
            && d[0].1 == RunnerAttr(Some(Runner(MypyRunner, map["_pyproject" := pyproject], VBool(true))))
            && d[1].1 == RunnerAttr(Some(Runner(CheckOutdatedRunner, map["_pyproject" := pyproject], VBool(true))))
            && d[3].1 == RunnerAttr(Some(Runner(PoetryCheckRunner, map["_pyproject" := pyproject], VBool(true))))
  {
    var b := BuiltinSteps(Defaults);
    FlagRunner(MypyRunner, pyproject);
    FlagRunner(CheckOutdatedRunner, pyproject);
    FlagRunner(PoetryCheckRunner, pyproject);
    assert b[0] == Step("mypy", MypyRunner, Flag(true), map[], false);
    assert b[1] == Step("check_outdated", CheckOutdatedRunner, Flag(true), map[], false);
    assert b[3] == Step("poetry_check", PoetryCheckRunner, Flag(true), map[], false);
  }

  /** With every keyword at its default, pytest, offline_build and black get no runner. */
  lemma DefaultsNotBuilt(pyproject: Value)
    requires forall k :: 0 <= k < 6 ==> Accepted(BuiltinSteps(Defaults)[k].config, map[])
    ensures var d := Assigned(BuiltinSteps(Defaults), pyproject);
            d[2].1 == RunnerAttr(None) && d[4].1 == RunnerAttr(None) && d[5].1 == RunnerAttr(None)
  {
    var b := BuiltinSteps(Defaults);
    assert b[2].config == Flag(false) && b[4].config == Flag(false) && b[5].config == Flag(false);
  }

  /** The defaults are accepted: no table, so no keyword can be given twice. */
  lemma DefaultsAccepted()
    ensures forall k :: 0 <= k < 6 ==> Accepted(BuiltinSteps(Defaults)[k].config, map[])
  {
    assert Duplicates(map[], map[]) == {};
  }

  /**
   * With every keyword at its default, nothing is raised and the eight
   * attributes are set: mypy, check_outdated and poetry_check hold a runner;
   * pytest, offline_build and black hold none.
   */
  lemma DefaultRunners(pyproject: Value)
    ensures var (d, err) := Run(Initial(false), Steps(Defaults), pyproject);
            && err == None
            && Keys(d) == ["_pyproject", "disabled", "mypy", "check_outdated", "pytest", "poetry_check", "offline_build", "black"]
            && d[2].1 == RunnerAttr(Some(Runner(MypyRunner, map["_pyproject" := pyproject], VBool(true))))
            && d[3].1 == RunnerAttr(Some(Runner(CheckOutdatedRunner, map["_pyproject" := pyproject], VBool(true))))
            && d[4].1 == RunnerAttr(None)
            && d[5].1 == RunnerAttr(Some(Runner(PoetryCheckRunner, map["_pyproject" := pyproject], VBool(true))))
            && d[6].1 == RunnerAttr(None)
            && d[7].1 == RunnerAttr(None)
  {
    DefaultsAccepted();
    DefaultRun(pyproject);
    BuiltinNames(Defaults, pyproject);
    DefaultDict(pyproject);
  }

  lemma DefaultRun(pyproject: Value)
    requires forall k :: 0 <= k < 6 ==> Accepted(BuiltinSteps(Defaults)[k].config, map[])
    ensures Run(Initial(false), Steps(Defaults), pyproject) == (BuiltinDict(Defaults, pyproject), None)
  {
    DefaultSteps();
    BuiltinsRun(Defaults, pyproject);
  }

  lemma DefaultDict(pyproject: Value)
    requires forall k :: 0 <= k < 6 ==> Accepted(BuiltinSteps(Defaults)[k].config, map[])
    ensures var d := BuiltinDict(Defaults, pyproject);
            && |d| == 8
            && d[2].1 == RunnerAttr(Some(Runner(MypyRunner, map["_pyproject" := pyproject], VBool(true))))
            && d[3].1 == RunnerAttr(Some(Runner(CheckOutdatedRunner, map["_pyproject" := pyproject], VBool(true))))
            && d[4].1 == RunnerAttr(None)
            && d[5].1 == RunnerAttr(Some(Runner(PoetryCheckRunner, map["_pyproject" := pyproject], VBool(true))))
            && d[6].1 == RunnerAttr(None)
            && d[7].1 == RunnerAttr(None)
  {
    DefaultsBuilt(pyproject);
    DefaultsNotBuilt(pyproject);
    var a := Assigned(BuiltinSteps(Defaults), pyproject);
    var d := BuiltinDict(Defaults, pyproject);
    assert forall k :: 2 <= k < 8 ==> d[k] == a[k - 2];
  }

  /** No custom runner by default. */
  lemma DefaultSteps()
    ensures Steps(Defaults) == BuiltinSteps(Defaults)
  {
    assert CustomSteps([]) == [];
    assert BuiltinSteps(Defaults) + [] == BuiltinSteps(Defaults);
  }

  /** A first custom runner named like a builtin runner or a class attribute raises `CannotLoadProject`. */
  lemma CustomConflict(opts: Options, pyproject: Value)
    requires forall k :: 0 <= k < 6 ==> Accepted(BuiltinSteps(opts)[k].config, map[])
    requires |opts.customRunners| > 0
    requires var n := opts.customRunners[0].0;
             n in ["_pyproject", "disabled", "mypy", "check_outdated", "pytest", "poetry_check", "offline_build", "black"]
             || n in ClassAttributes
    ensures Run(Initial(opts.disabled), Steps(opts), pyproject) ==
              (BuiltinDict(opts, pyproject), Some(CannotLoadProject(ConflictMessage(opts.customRunners[0].0))))
  {
    BuiltinsRun(opts, pyproject);
    BuiltinNames(opts, pyproject);
    RunAppend(Initial(opts.disabled), BuiltinSteps(opts), CustomSteps(opts.customRunners), pyproject);
  }

  /**
   * Custom runners with new names and accepted tables are all assigned, in
   * order, after the attributes already there.
   */
  lemma {:induction false} CustomsRun(dict: seq<(string, Attr)>, customs: seq<(string, CIConfig)>, pyproject: Value)
    requires forall k :: 0 <= k < |customs| ==> customs[k].0 !in Keys(dict) && customs[k].0 !in ClassAttributes
    requires forall j, k :: 0 <= j < k < |customs| ==> customs[j].0 != customs[k].0
    requires forall k :: 0 <= k < |customs| ==> Accepted(customs[k].1, map["name" := VStr(customs[k].0)])
    ensures Run(dict, CustomSteps(customs), pyproject).1 == None
    ensures Keys(Run(dict, CustomSteps(customs), pyproject).0) ==
              Keys(dict) + seq(|customs|, k requires 0 <= k < |customs| => customs[k].0)
    decreases |customs|
  {
    var steps := CustomSteps(customs);
    if |customs| == 0 {
      assert steps == [];
      assert Keys(dict) + [] == Keys(dict);
    } else {
      var s := steps[0];
      var r := Built(s, pyproject);
      var next := dict + [(s.name, RunnerAttr(r))];
      assert Keys(next) == Keys(dict) + [s.name];
      assert steps[1..] == CustomSteps(customs[1..]);
      AcceptedStep(dict, steps, pyproject);
      CustomsRun(next, customs[1..], pyproject);
      var tail := seq(|customs| - 1, k requires 0 <= k < |customs| - 1 => customs[1..][k].0);
      assert seq(|customs|, k requires 0 <= k < |customs| => customs[k].0) == [s.name] + tail;
    }
  }

  /** The runner instances among the attribute values, in order. */
  function InstanceRunners(dict: seq<(string, Attr)>): (rs: seq<Runner>)
    ensures |rs| <= |dict|
    ensures forall i :: 0 <= i < |dict| && dict[i].1.RunnerAttr? && dict[i].1.runner.Some? ==> dict[i].1.runner.value in rs
    decreases |dict|
  {
    if |dict| == 0 then []
    else
      (if dict[0].1.RunnerAttr? && dict[0].1.runner.Some? then [dict[0].1.runner.value] else [])
      + InstanceRunners(dict[1..])
  }

  /** The runners whose `supports_auto_fix` is `fix`, in order. */
  function Select(rs: seq<Runner>, autoFix: Runner -> bool, fix: bool): seq<Runner>
    decreases |rs|
  {
    if |rs| == 0 then [] else (if autoFix(rs[0]) == fix then [rs[0]] else []) + Select(rs[1..], autoFix, fix)
  }

  /** Every selected runner has the key asked for. */
  lemma {:induction false} SelectKey(rs: seq<Runner>, autoFix: Runner -> bool, fix: bool)
    ensures forall k :: 0 <= k < |Select(rs, autoFix, fix)| ==> autoFix(Select(rs, autoFix, fix)[k]) == fix
    decreases |rs|
  {
    if |rs| > 0 {
      SelectKey(rs[1..], autoFix, fix);
      var head: seq<Runner> := if autoFix(rs[0]) == fix then [rs[0]] else [];
      var r := Select(rs, autoFix, fix);
      assert forall k :: |head| <= k < |r| ==> r[k] == Select(rs[1..], autoFix, fix)[k - |head|];
    }
  }

  /** `runners`: the runner instances, sorted stably on the key 0 for auto-fixing runners and 1 otherwise. */
  function Runners(dict: seq<(string, Attr)>, autoFix: Runner -> bool): (r: seq<Runner>)
    ensures |r| == |InstanceRunners(dict)|
  {
    var rs := InstanceRunners(dict);
    var fixing := Select(rs, autoFix, true);
    var others := Select(rs, autoFix, false);
    SelectSplit(rs, autoFix);
    assert multiset(fixing + others) == multiset(rs);
    assert |fixing + others| == |multiset(fixing + others)|;
    fixing + others
  }

  /** Every auto-fixing runner comes before every other. */
  lemma RunnersSorted(dict: seq<(string, Attr)>, autoFix: Runner -> bool)
    ensures var out := Runners(dict, autoFix);
            forall i, j :: 0 <= i < j < |out| && autoFix(out[j]) ==> autoFix(out[i])
  {
    var rs := InstanceRunners(dict);
    var a := Select(rs, autoFix, true);
    var out := Runners(dict, autoFix);
    SelectKey(rs, autoFix, true);
    SelectKey(rs, autoFix, false);
    forall i, j | 0 <= i < j < |out| && autoFix(out[j])
      ensures autoFix(out[i])
    {
      assert out[i] == a[i];
    }
  }

  lemma {:induction false} SelectSplit(rs: seq<Runner>, autoFix: Runner -> bool)
    ensures multiset(Select(rs, autoFix, true)) + multiset(Select(rs, autoFix, false)) == multiset(rs)
    decreases |rs|
  {
    if |rs| > 0 {
      SelectSplit(rs[1..], autoFix);
      SelectCons(rs, autoFix);
      MultisetCons(rs);
    }
  }

  lemma MultisetCons(rs: seq<Runner>)
    requires |rs| > 0
    ensures multiset(rs) == multiset([rs[0]]) + multiset(rs[1..])
  {
    assert rs == [rs[0]] + rs[1..];
  }

  /** The first runner goes to exactly one of the two selections. */
  lemma SelectCons(rs: seq<Runner>, autoFix: Runner -> bool)
    requires |rs| > 0
    ensures multiset(Select(rs, autoFix, true)) + multiset(Select(rs, autoFix, false))
            == multiset([rs[0]]) + (multiset(Select(rs[1..], autoFix, true)) + multiset(Select(rs[1..], autoFix, false)))
  {
    var t := Select(rs[1..], autoFix, true);
    var f := Select(rs[1..], autoFix, false);
    if autoFix(rs[0]) {
      assert Select(rs, autoFix, true) == [rs[0]] + t;
      assert Select(rs, autoFix, false) == f;
    } else {
      assert Select(rs, autoFix, true) == t;
      assert Select(rs, autoFix, false) == [rs[0]] + f;
    }
  }

  /** `runners` yields each runner instance exactly once. */
  lemma RunnersPermutation(dict: seq<(string, Attr)>, autoFix: Runner -> bool)
    ensures multiset(Runners(dict, autoFix)) == multiset(InstanceRunners(dict))
  {
    SelectSplit(InstanceRunners(dict), autoFix);
  }

  lemma {:induction false} SelectAppend(a: seq<Runner>, b: seq<Runner>, autoFix: Runner -> bool, fix: bool)
    ensures Select(a + b, autoFix, fix) == Select(a, autoFix, fix) + Select(b, autoFix, fix)
    decreases |a|
  {
    if |a| > 0 {
      assert (a + b)[0] == a[0] && (a + b)[1..] == a[1..] + b;
      SelectAppend(a[1..], b, autoFix, fix);
    } else {
      assert a + b == b;
    }
  }

  /** Selecting from what was selected: everything for the same key, nothing for the other. */
  lemma {:induction false} SelectSelect(rs: seq<Runner>, autoFix: Runner -> bool, fix: bool)
    ensures Select(Select(rs, autoFix, fix), autoFix, fix) == Select(rs, autoFix, fix)
    ensures Select(Select(rs, autoFix, fix), autoFix, !fix) == []
    decreases |rs|
  {
    if |rs| > 0 {
      SelectSelect(rs[1..], autoFix, fix);
      var head: seq<Runner> := if autoFix(rs[0]) == fix then [rs[0]] else [];
      SelectAppend(head, Select(rs[1..], autoFix, fix), autoFix, fix);
      SelectAppend(head, Select(rs[1..], autoFix, fix), autoFix, !fix);
      assert head == [] || head[1..] == [];
    }
  }

  /** The sort is stable: the runners of each key keep the order they have in `__dict__`. */
  lemma RunnersStable(dict: seq<(string, Attr)>, autoFix: Runner -> bool)
    ensures Select(Runners(dict, autoFix), autoFix, true) == Select(InstanceRunners(dict), autoFix, true)
    ensures Select(Runners(dict, autoFix), autoFix, false) == Select(InstanceRunners(dict), autoFix, false)
  {
    var rs := InstanceRunners(dict);
    SelectAppend(Select(rs, autoFix, true), Select(rs, autoFix, false), autoFix, true);
    SelectAppend(Select(rs, autoFix, true), Select(rs, autoFix, false), autoFix, false);
    SelectSelect(rs, autoFix, true);
    SelectSelect(rs, autoFix, false);
  }

  /** A runner attribute set to `None` (a disabled runner) is not among the runners. */
  lemma {:induction false} NoneNotARunner(dict: seq<(string, Attr)>, r: Runner)
    requires r in InstanceRunners(dict)
    ensures exists i :: 0 <= i < |dict| && dict[i].1 == RunnerAttr(Some(r))
    decreases |dict|
  {
    if !(dict[0].1.RunnerAttr? && dict[0].1.runner.Some? && dict[0].1.runner.value == r) {
      assert r in InstanceRunners(dict[1..]);
      NoneNotARunner(dict[1..], r);
      var i :| 0 <= i < |dict[1..]| && dict[1..][i].1 == RunnerAttr(Some(r));
      assert dict[i + 1].1 == RunnerAttr(Some(r));
    }
  }
}

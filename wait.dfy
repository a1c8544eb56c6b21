/**
 * `coveo_functools.wait.Backoff`: a truncated exponential backoff. The wait
 * stages are generated once (or given), and each `next` returns the wait of
 * the current stage, plus a jitter, until the allowed number of waits is
 * used up. `NoBackoff` is the variant that is exhausted from the start.
 *
 * Wait times are `real`s. The jitter draws on `random()`; its draw in
 * `[0, 1)` is a parameter of `Next`.
 */
module Wait {
  import opened Wrappers

  /** `ValueError("Backoff received wrong values.")` from the constructor. */
  datatype BackoffError = ValueError(message: string)

  /** `MaxBackoffException`, raised once the waits are used up. */
  datatype MaxBackoffException = MaxBackoffException

  function Abs(x: real): real
  {
    if x < 0.0 then -x else x
  }

  /** The sanitised `(first_wait, growth, max_backoff)` of `generate_backoff_stages`. */
  function Sanitize(firstWait: real, growth: real, maxBackoff: real): (r: (real, real, real))
    ensures r.0 > 0.0 && r.1 > 1.0 && r.2 > 0.0
    ensures r.0 == (if firstWait == 0.0 then 0.2 else Abs(firstWait))
    ensures r.1 == (if growth > 1.0 then growth else 2.0)
    ensures r.2 == (if maxBackoff == 0.0 then 4.0 else Abs(maxBackoff))
  {
    (if Abs(firstWait) == 0.0 then 0.2 else Abs(firstWait),
     if growth > 1.0 then growth else 2.0,
     if Abs(maxBackoff) == 0.0 then 4.0 else Abs(maxBackoff))
  }

  /** Multiplying both sides of `a >= b` by a positive factor keeps the order. */
  lemma MulMonotone(a: real, b: real, c: real)
    requires a >= b && c > 0.0
    ensures a * c >= b * c
  {
    assert a * c - b * c == (a - b) * c;
  }

  /** A product with a positive factor is non-negative only when the other factor is. */
  lemma SignOfProduct(c: real, step: real)
    requires step > 0.0 && c * step >= 0.0
    ensures c >= 0.0
  {
  }

  /** Dividing by a positive step: taking away at least one step lowers the floor by at least one. */
  lemma DivStep(a: real, b: real, step: real)
    requires step > 0.0 && 0.0 <= a <= b - step
    ensures 0 <= (a / step).Floor < (b / step).Floor
  {
    var x := a / step;
    var y := b / step;
    assert x * step == a;
    assert y * step == b;
    assert (y - 1.0 - x) * step == b - step - a;
    SignOfProduct(y - 1.0 - x, step);
    SignOfProduct(x, step);
  }

  /** A bound on the stage loop's remaining iterations: how many steps of `step` still separate `wait` from `m`. */
  function Remaining(wait: real, m: real, step: real): nat
    requires step > 0.0
  {
    if wait < m then
      var x := (m - wait) / step;
      SignOfProduct(x, step);
      x.Floor + 1
    else 0
  }

  /** The next wait before truncation: the current one times the growth. */
  function Grown(wait: real, g: real): real
  {
    wait * g
  }

  /** The least gain of a loop step: the growth beyond one, times the first wait. */
  function Gain(f: real, g: real): (step: real)
    requires f > 0.0 && g > 1.0
    ensures step > 0.0
  {
    PositiveProduct(g - 1.0, f);
    (g - 1.0) * f
  }

  lemma PositiveProduct(d: real, f: real)
    requires d > 0.0 && f > 0.0
    ensures d * f > 0.0
  {
  }

  /** One step of the stage loop grows the wait by at least the gain. */
  lemma GrowthAtLeastGain(wait: real, f: real, g: real)
    requires 0.0 < f <= wait && g > 1.0
    ensures Grown(wait, g) >= wait + Gain(f, g)
  {
    MulMonotone(wait, f, g - 1.0);
    assert Grown(wait, g) == wait + wait * (g - 1.0);
    assert f * (g - 1.0) == Gain(f, g);
  }

  /** One step of the stage loop lowers the bound on the remaining iterations. */
  lemma GrowthStep(wait: real, f: real, g: real, m: real)
    requires 0.0 < f <= wait < m && g > 1.0
    ensures Grown(wait, g) > wait
    ensures Remaining(Capped(Grown(wait, g), m), m, Gain(f, g)) < Remaining(wait, m, Gain(f, g))
  {
    var next := Grown(wait, g);
    var step := Gain(f, g);
    GrowthAtLeastGain(wait, f, g);
    var before := (m - wait) / step;
    SignOfProduct(before, step);
    assert Remaining(wait, m, step) == before.Floor + 1;
    if next < m {
      DivStep(m - next, m - wait, step);
      assert Remaining(next, m, step) == ((m - next) / step).Floor + 1;
    } else {
      assert Remaining(m, m, step) == 0;
    }
  }

  /** `min(wait, max_backoff)`. */
  function Capped(wait: real, m: real): real
  {
    if wait < m then wait else m
  }

  /**
   * `generate_backoff_stages`: the sanitised first wait, multiplied by the
   * growth at each step, while it is below the maximum; then the maximum.
   */
  /** What `generate_backoff_stages` returns for the sanitised parameters. */
  predicate GeneratedFrom(firstWait: real, growth: real, maxBackoff: real, stages: seq<real>)
  {
    var (f, g, m) := Sanitize(firstWait, growth, maxBackoff);
    Generated(f, g, m, stages)
  }

  /** The stages start at `f` (or `m` when `f` reaches it), grow by `g` capped at `m`, and stop once they reach `m`. */
  predicate Generated(f: real, g: real, m: real, stages: seq<real>)
  {
    |stages| >= 1 && stages[|stages| - 1] == m
    && stages[0] == (if f < m then f else m)
    && (forall i :: 0 <= i < |stages| ==> 0.0 < stages[i] <= m)
    && (forall i :: 0 <= i < |stages| - 1 ==> stages[i] < stages[i + 1])
    && (forall i :: 0 <= i < |stages| - 1 ==> stages[i + 1] == Capped(Grown(stages[i], g), m))
    && (|stages| >= 2 ==> Grown(stages[|stages| - 2], g) >= m)
  }

  /** The stages are determined by the three parameters: at most one sequence is generated from them. */
  lemma GeneratedUnique(firstWait: real, growth: real, maxBackoff: real, s: seq<real>, t: seq<real>)
    requires GeneratedFrom(firstWait, growth, maxBackoff, s)
    requires GeneratedFrom(firstWait, growth, maxBackoff, t)
    ensures s == t
  {
    var (f, g, m) := Sanitize(firstWait, growth, maxBackoff);
    var n := if |s| < |t| then |s| else |t|;
    var k := 0;
    while k < n
      invariant 0 <= k <= n
      invariant forall i :: 0 <= i < k ==> s[i] == t[i]
    {
      if k > 0 {
        assert s[k] == Capped(Grown(s[k - 1], g), m);
        assert t[k] == Capped(Grown(t[k - 1], g), m);
      }
      k := k + 1;
    }
    assert forall i :: 0 <= i < |t| - 1 ==> t[i] < m by {
      forall i | 0 <= i < |t| - 1 ensures t[i] < m {
        assert t[i] < t[i + 1] <= m;
      }
    }
    assert forall i :: 0 <= i < |s| - 1 ==> s[i] < m by {
      forall i | 0 <= i < |s| - 1 ensures s[i] < m {
        assert s[i] < s[i + 1] <= m;
      }
    }
    assert |s| - 1 < |t| ==> t[|s| - 1] == s[|s| - 1];
    assert |t| - 1 < |s| ==> s[|t| - 1] == t[|t| - 1];
  }

  method GenerateStages(firstWait: real, growth: real, maxBackoff: real) returns (stages: seq<real>)
    ensures GeneratedFrom(firstWait, growth, maxBackoff, stages)
  {
    var (f, g, m) := Sanitize(firstWait, growth, maxBackoff);
    var step := Gain(f, g);
    var wait := f;
    stages := [];
    while wait < m
      invariant step > 0.0 && wait >= f
      invariant stages == [] ==> wait == f
      invariant stages != [] ==> stages[0] == f && wait <= m && wait > stages[|stages| - 1]
      invariant stages != [] ==> wait == Capped(Grown(stages[|stages| - 1], g), m)
      invariant forall i :: 0 <= i < |stages| ==> f <= stages[i] < m
      invariant forall i :: 0 <= i < |stages| - 1 ==> stages[i] < stages[i + 1]
      invariant forall i :: 0 <= i < |stages| - 1 ==> stages[i + 1] == Capped(Grown(stages[i], g), m)
      decreases Remaining(wait, m, step)
    {
      stages := stages + [wait];
      var next := Grown(wait, g);
      GrowthStep(wait, f, g, m);
      wait := Capped(next, m);
    }
    GeneratedAtExit(f, g, m, stages, wait);
    stages := stages + [m];
  }

  /** When the loop stops, appending the maximum completes the stages. */
  lemma GeneratedAtExit(f: real, g: real, m: real, stages: seq<real>, wait: real)
    requires 0.0 < f && 0.0 < m && wait >= m
    requires stages == [] ==> wait == f
    requires stages != [] ==> stages[0] == f && wait <= m && wait == Capped(Grown(stages[|stages| - 1], g), m)
    requires forall i :: 0 <= i < |stages| ==> f <= stages[i] < m
    requires forall i :: 0 <= i < |stages| - 1 ==> stages[i] < stages[i + 1]
    requires forall i :: 0 <= i < |stages| - 1 ==> stages[i + 1] == Capped(Grown(stages[i], g), m)
    ensures Generated(f, g, m, stages + [m])
  {
    var all := stages + [m];
    assert forall i :: 0 <= i < |stages| ==> all[i] == stages[i];
    if stages != [] {
      assert Capped(Grown(stages[|stages| - 1], g), m) == m;
    }
  }

  class Backoff {
    const stages: seq<real>
    const maxStage: nat
    /** `NoBackoff`: every `next` raises and the object is falsy. */
    const noBackoff: bool
    var stage: nat

    /** What the constructor guarantees: at least one stage and no stage of zero. */
    ghost predicate Valid()
      reads this
    {
      |stages| > 0 && forall i :: 0 <= i < |stages| ==> stages[i] != 0.0
    }

    constructor (stages: seq<real>, maxStage: nat, noBackoff: bool)
      ensures this.stages == stages && this.maxStage == maxStage && this.noBackoff == noBackoff
      ensures stage == 0
    {
      this.stages := stages;
      this.maxStage := maxStage;
      this.noBackoff := noBackoff;
      stage := 0;
    }

    /**
     * `Backoff.__init__` (or `NoBackoff.__init__`): the given stages, or the
     * generated ones when none or an empty tuple is given; a falsy number of
     * attempts means no limit.
     */
    static method Create(firstWait: real, maxBackoff: real, maxBackoffAttempts: Option<int>, growth: real,
                         givenStages: Option<seq<real>>, noBackoff: bool) returns (r: Result<Backoff, BackoffError>)
      ensures givenStages.Some? && givenStages.value != [] && 0.0 in givenStages.value <==> r.Err?
      ensures r.Err? ==> r.error == ValueError("Backoff received wrong values.")
      ensures r.Ok? ==> fresh(r.value) && r.value.Valid() && r.value.stage == 0 && r.value.noBackoff == noBackoff
      ensures r.Ok? && givenStages.Some? && givenStages.value != [] ==> r.value.stages == givenStages.value
      ensures r.Ok? && (givenStages.None? || givenStages.value == []) ==>
                GeneratedFrom(firstWait, growth, maxBackoff, r.value.stages)
      ensures r.Ok? ==> r.value.maxStage ==
                        if maxBackoffAttempts.None? || maxBackoffAttempts.value == 0 then 0
                        else |r.value.stages| + AbsInt(maxBackoffAttempts.value) - 1
    {
      var stages: seq<real>;
      if givenStages.Some? && givenStages.value != [] {
        stages := givenStages.value;
      } else {
        stages := GenerateStages(firstWait, growth, maxBackoff);
      }
      if stages == [] || 0.0 in stages {
        return Err(ValueError("Backoff received wrong values."));
      }
      var maxStage: nat;
      if maxBackoffAttempts.None? || maxBackoffAttempts.value == 0 {
        maxStage := 0;
      } else {
        maxStage := |stages| + AbsInt(maxBackoffAttempts.value) - 1;
      }
      var b := new Backoff(stages, maxStage, noBackoff);
      return Ok(b);
    }

    /** Whether `next` in the current stage returns a wait rather than raising. */
    predicate CanAdvance()
      reads this
    {
      !noBackoff && (maxStage == 0 || stage < maxStage)
    }

    /** The wait of the current stage, before jitter: the last stage repeats. */
    function CurrentWait(): (w: real)
      reads this
      requires Valid()
      ensures w in stages
      ensures stage >= |stages| - 1 ==> w == stages[|stages| - 1]
    {
      stages[if stage < |stages| - 1 then stage else |stages| - 1]
    }

    /**
     * `__next__`: the current wait plus a jitter of `draw` times half the
     * wait (at most half a second), except on the first call; a used-up
     * backoff resets to the first stage and raises.
     */
    method Next(draw: real) returns (r: Result<real, MaxBackoffException>)
      requires Valid() && 0.0 <= draw < 1.0
      modifies this
      ensures Valid()
      ensures r.Ok? <==> old(CanAdvance())
      ensures r.Ok? ==> stage == old(stage) + 1
      ensures r.Err? ==> stage == if noBackoff then old(stage) else 0
      ensures r.Ok? ==> var w := old(CurrentWait());
                        var cap := if w * 0.5 < 0.5 then w * 0.5 else 0.5;
                        r.value == w + (if old(stage) == 0 then 0.0 else draw * cap)
    {
      if noBackoff {
        return Err(MaxBackoffException);
      }
      if maxStage != 0 && stage >= maxStage {
        Reset();
        return Err(MaxBackoffException);
      }
      var thisWait := stages[if |stages| - 1 < stage then |stages| - 1 else stage];
      var jitter := if stage != 0 then draw * (if thisWait * 0.5 < 0.5 then thisWait * 0.5 else 0.5) else 0.0;
      stage := stage + 1;
      return Ok(thisWait + jitter);
    }

    /** `reset`: back to the first stage. */
    method Reset()
      modifies this
      ensures stage == 0
    {
      stage := 0;
    }

    /** `percent_to_max_time`: the current wait as a fraction of the last stage's. */
    function PercentToMaxTime(): (p: real)
      reads this
      requires Valid()
      ensures p * stages[|stages| - 1] == CurrentWait()
      ensures stage >= |stages| - 1 ==> p == 1.0
    {
      CurrentWait() / stages[|stages| - 1]
    }

    /** `NoBackoff.__bool__` is false; any other backoff is truthy. */
    predicate Truthy()
      reads this
    {
      !noBackoff
    }
  }

  /**
   * A bounded backoff that starts at the first stage yields exactly
   * `maxStage` waits; the call after the last one raises and leaves it back
   * at the first stage, ready for reuse.
   */
  method Exhaust(b: Backoff, draw: real) returns (count: nat)
    requires b.Valid() && b.stage == 0 && b.maxStage > 0 && !b.noBackoff && 0.0 <= draw < 1.0
    modifies b
    ensures count == b.maxStage && b.stage == 0
  {
    count := 0;
    var r := b.Next(draw);
    while r.Ok?
      invariant b.Valid()
      invariant r.Ok? ==> b.stage == count + 1 <= b.maxStage
      invariant r.Err? ==> count == b.maxStage && b.stage == 0
      decreases b.maxStage - count
    {
      count := count + 1;
      r := b.Next(draw);
    }
  }

  function AbsInt(x: int): nat
  {
    if x < 0 then -x else x
  }

  /** The jitter added by `next` lies between zero and half the wait, capped at half a second. */
  lemma JitterBounds(w: real, draw: real)
    requires w > 0.0 && 0.0 <= draw < 1.0
    ensures var cap := if w * 0.5 < 0.5 then w * 0.5 else 0.5;
            0.0 <= draw * cap <= cap && cap <= 0.5 && cap <= w * 0.5
  {
    var cap := if w * 0.5 < 0.5 then w * 0.5 else 0.5;
    MulMonotone(1.0, draw, cap);
  }

  /** For increasing positive stages, the fraction of the maximum wait lies in `(0, 1]`. */
  lemma PercentBounds(b: Backoff)
    requires b.Valid()
    requires forall i :: 0 <= i < |b.stages| ==> b.stages[i] > 0.0
    requires forall i, j :: 0 <= i <= j < |b.stages| ==> b.stages[i] <= b.stages[j]
    ensures 0.0 < b.PercentToMaxTime() <= 1.0
  {
    var last := b.stages[|b.stages| - 1];
    var w := b.CurrentWait();
    var p := b.PercentToMaxTime();
    if p > 1.0 {
      MulMonotone(p, 1.0, last);
    }
    if p <= 0.0 {
      MulMonotone(0.0, p, last);
    }
  }
}

/**
 * `coveo_pypi_cli.versions.StrictVersionHelper`: a StrictVersion whose
 * major, minor and patch numbers and prerelease stage and number can be
 * set one at a time, bumped to the next release or prerelease, and copied.
 *
 * The state of a StrictVersion is its `version` triple and its
 * `prerelease`, which is `None` or a (stage, number) pair. Parsed versions
 * always have a stage of `a` or `b` and a number, but the stage and number
 * setters can leave either half of the pair empty; `Prerelease` keeps both
 * halves optional so those states are represented too.
 */
module Versions {
  import opened Wrappers

  /** The `prerelease` pair. */
  datatype Prerelease = Prerelease(stage: Option<string>, num: Option<int>)

  /** The state of a StrictVersion: `version == (major, minor, patch)` and `prerelease`. */
  datatype VersionInfo = VersionInfo(major: int, minor: int, patch: int, prerelease: Option<Prerelease>)

  /** A version as StrictVersion's parser produces it: non-negative numbers and a complete `a`/`b` prerelease. */
  predicate Parsed(v: VersionInfo)
  {
    v.major >= 0 && v.minor >= 0 && v.patch >= 0
    && (v.prerelease.Some? ==>
          v.prerelease.value.stage in {Some("a"), Some("b")}
          && v.prerelease.value.num.Some? && v.prerelease.value.num.value >= 0)
  }

  /** A release (no prerelease) with the given numbers. */
  function Release(major: int, minor: int, patch: int): VersionInfo
  {
    VersionInfo(major, minor, patch, None)
  }

  /** The `prerelease_stage` getter. */
  function StageOf(v: VersionInfo): Option<string>
  {
    if v.prerelease.Some? then v.prerelease.value.stage else None
  }

  /** The `prerelease_num` getter. */
  function NumOf(v: VersionInfo): Option<int>
  {
    if v.prerelease.Some? then v.prerelease.value.num else None
  }

  /** The `prerelease_stage` setter: `None` clears the prerelease, otherwise the number is kept. */
  function WithStage(v: VersionInfo, value: Option<string>): (r: VersionInfo)
    ensures r.major == v.major && r.minor == v.minor && r.patch == v.patch
    ensures value.None? <==> r.prerelease.None?
    ensures value.Some? ==> StageOf(r) == value && NumOf(r) == NumOf(v)
  {
    v.(prerelease := if value.None? then None else Some(Prerelease(value, NumOf(v))))
  }

  /** The `prerelease_num` setter: `None` clears the prerelease, otherwise the stage is kept. */
  function WithNum(v: VersionInfo, value: Option<int>): (r: VersionInfo)
    ensures r.major == v.major && r.minor == v.minor && r.patch == v.patch
    ensures value.None? <==> r.prerelease.None?
    ensures value.Some? ==> NumOf(r) == value && StageOf(r) == StageOf(v)
  {
    v.(prerelease := if value.None? then None else Some(Prerelease(StageOf(v), value)))
  }

  /** `bump_next_release` on a version value. */
  function BumpedRelease(v: VersionInfo): (r: VersionInfo)
    ensures r.prerelease.None?
    ensures r.major == v.major && r.minor == v.minor
  {
    VersionInfo(v.major, v.minor, if v.prerelease.None? then v.patch + 1 else v.patch, None)
  }

  /**
   * `bump_next_prerelease` on a version value; `None` when the prerelease
   * has no number, where `prerelease_num += 1` raises `TypeError`.
   */
  function BumpedPrerelease(v: VersionInfo, patch: bool): (r: Option<VersionInfo>)
    ensures r.None? <==> v.prerelease.Some? && v.prerelease.value.num.None?
    ensures r.Some? ==> r.value.prerelease.Some? && r.value.major == v.major && r.value.minor == v.minor
  {
    if v.prerelease.Some? then
      if v.prerelease.value.num.None? then None
      else Some(WithNum(v, Some(v.prerelease.value.num.value + 1)))
    else
      Some(VersionInfo(v.major, v.minor, v.patch + (if patch then 1 else 0), Some(Prerelease(Some("a"), Some(1)))))
  }

  // ------------------------------------------------------------ ordering

  /** Lexicographic comparison of two strings by character code: negative, zero or positive. */
  function CompareText(s: string, t: string): (c: int)
    ensures -1 <= c <= 1
    ensures c == 0 <==> s == t
    decreases |s|
  {
    if |s| == 0 && |t| == 0 then 0
    else if |s| == 0 then -1
    else if |t| == 0 then 1
    else if s[0] < t[0] then -1
    else if s[0] > t[0] then 1
    else
      var c := CompareText(s[1..], t[1..]);
      assert c == 0 ==> s == [s[0]] + s[1..] && t == [t[0]] + t[1..];
      c
  }

  function CompareInt(a: int, b: int): int
  {
    if a < b then -1 else if a > b then 1 else 0
  }

  /**
   * StrictVersion's `_cmp`: the numbers first; with equal numbers a release
   * is above any prerelease, and two prereleases compare by stage, then number.
   */
  function Compare(a: VersionInfo, b: VersionInfo): (c: int)
    requires Parsed(a) && Parsed(b)
    ensures -1 <= c <= 1
    ensures a == b ==> c == 0
  {
    if a.major != b.major then CompareInt(a.major, b.major)
    else if a.minor != b.minor then CompareInt(a.minor, b.minor)
    else if a.patch != b.patch then CompareInt(a.patch, b.patch)
    else if a.prerelease.None? && b.prerelease.None? then 0
    else if a.prerelease.None? then 1
    else if b.prerelease.None? then -1
    else if a.prerelease.value.stage != b.prerelease.value.stage then
      CompareText(a.prerelease.value.stage.value, b.prerelease.value.stage.value)
    else CompareInt(a.prerelease.value.num.value, b.prerelease.value.num.value)
  }

  /** Exchanging the arguments of a text comparison negates its sign. */
  lemma {:induction false} CompareTextAntisymmetric(s: string, t: string)
    ensures CompareText(s, t) < 0 <==> CompareText(t, s) > 0
    decreases |s|
  {
    if |s| > 0 && |t| > 0 && s[0] == t[0] {
      CompareTextAntisymmetric(s[1..], t[1..]);
    }
  }

  /** Equal versions are exactly the equal records, and exchanging the arguments negates the sign. */
  lemma CompareAntisymmetric(a: VersionInfo, b: VersionInfo)
    requires Parsed(a) && Parsed(b)
    ensures Compare(a, b) == 0 <==> a == b
    ensures Compare(a, b) < 0 <==> Compare(b, a) > 0
  {
    if a.prerelease.Some? && b.prerelease.Some? {
      CompareTextAntisymmetric(a.prerelease.value.stage.value, b.prerelease.value.stage.value);
      if a.prerelease.value.stage == b.prerelease.value.stage && a.prerelease.value.num == b.prerelease.value.num {
        assert a.prerelease.value == b.prerelease.value;
      }
    }
  }

  /** A prerelease orders below the release with the same numbers. */
  lemma PrereleaseBelowRelease(v: VersionInfo)
    requires Parsed(v) && v.prerelease.Some?
    ensures Compare(v, v.(prerelease := None)) < 0
  {
  }

  /** The next release is above the version it was bumped from. */
  lemma BumpedReleaseAbove(v: VersionInfo)
    requires Parsed(v)
    ensures Parsed(BumpedRelease(v)) && Compare(BumpedRelease(v), v) > 0
  {
  }

  /** The next prerelease of a parsed version exists, is parsed, and is above it unless the patch bump is switched off for a release. */
  lemma BumpedPrereleaseAbove(v: VersionInfo, patch: bool)
    requires Parsed(v)
    ensures BumpedPrerelease(v, patch).Some? && Parsed(BumpedPrerelease(v, patch).value)
    ensures patch || v.prerelease.Some? ==> Compare(BumpedPrerelease(v, patch).value, v) > 0
    ensures !patch && v.prerelease.None? ==>
              BumpedPrerelease(v, patch).value == v.(prerelease := Some(Prerelease(Some("a"), Some(1))))
              && Compare(BumpedPrerelease(v, patch).value, v) < 0
  {
  }

  /** `bump_next_release` on a prerelease keeps the numbers; on a release it adds one to the patch number. */
  lemma BumpedReleaseNumbers(v: VersionInfo)
    ensures v.prerelease.Some? ==> BumpedRelease(v) == v.(prerelease := None)
    ensures v.prerelease.None? ==> BumpedRelease(v) == v.(patch := v.patch + 1)
  {
  }

  /** `bump_next_prerelease` on a prerelease adds one to its number and keeps the stage and the numbers. */
  lemma BumpedPrereleaseNumbers(v: VersionInfo, patch: bool)
    requires v.prerelease.Some? && v.prerelease.value.num.Some?
    ensures BumpedPrerelease(v, patch) ==
              Some(v.(prerelease := Some(Prerelease(v.prerelease.value.stage, Some(v.prerelease.value.num.value + 1)))))
  {
  }

  // ------------------------------------------------------------ the helper object

  class StrictVersionHelper {
    var major: int
    var minor: int
    var patch: int
    var prerelease: Option<Prerelease>

    /** `StrictVersionHelper(vstring)`, from a version already parsed. */
    constructor (v: VersionInfo)
      ensures Info() == v
    {
      major := v.major;
      minor := v.minor;
      patch := v.patch;
      prerelease := v.prerelease;
    }

    /** The version this object holds. */
    function Info(): VersionInfo
      reads this
    {
      VersionInfo(major, minor, patch, prerelease)
    }

    /** The `major` setter: only the major number changes. */
    method SetMajor(value: int)
      modifies this
      ensures Info() == old(Info()).(major := value)
    {
      major := value;
    }

    /** The `minor` setter: only the minor number changes. */
    method SetMinor(value: int)
      modifies this
      ensures Info() == old(Info()).(minor := value)
    {
      minor := value;
    }

    /** The `patch` setter: only the patch number changes. */
    method SetPatch(value: int)
      modifies this
      ensures Info() == old(Info()).(patch := value)
    {
      patch := value;
    }

    /** The `prerelease_stage` setter. */
    method SetPrereleaseStage(value: Option<string>)
      modifies this
      ensures Info() == WithStage(old(Info()), value)
    {
      prerelease := if value.None? then None else Some(Prerelease(value, NumOf(Info())));
    }

    /** The `prerelease_num` setter. */
    method SetPrereleaseNum(value: Option<int>)
      modifies this
      ensures Info() == WithNum(old(Info()), value)
    {
      prerelease := if value.None? then None else Some(Prerelease(StageOf(Info()), value));
    }

    /** `bump_next_release`: a release gets the next patch number, a prerelease becomes its release. */
    method BumpNextRelease()
      modifies this
      ensures Info() == BumpedRelease(old(Info()))
    {
      if prerelease.None? {
        SetPatch(patch + 1);
      }
      prerelease := None;
    }

    /**
     * `bump_next_prerelease`: the next number of a prerelease, or the first
     * `a` prerelease of the next (or, with `patchFlag` false, the same)
     * patch; `ok` is false, and nothing changes, where the source raises.
     */
    method BumpNextPrerelease(patchFlag: bool) returns (ok: bool)
      modifies this
      ensures ok <==> BumpedPrerelease(old(Info()), patchFlag).Some?
      ensures ok ==> Info() == BumpedPrerelease(old(Info()), patchFlag).value
      ensures !ok ==> Info() == old(Info())
    {
      if prerelease.Some? {
        var num := NumOf(Info());
        if num.None? {
          return false;
        }
        SetPrereleaseNum(Some(num.value + 1));
      } else {
        SetPatch(patch + if patchFlag then 1 else 0);
        prerelease := Some(Prerelease(Some("a"), Some(1)));
      }
      return true;
    }

    /** The versions whose text StrictVersion parses back into the same version. */
    predicate Printable()
      reads this
    {
      Parsed(Info())
    }

    /** `__copy__`: a new object holding an equal version, built from this one's text. */
    method Copy() returns (r: Option<StrictVersionHelper>)
      ensures r.Some? <==> Printable()
      ensures r.Some? ==> fresh(r.value) && r.value.Info() == Info()
    {
      if !Parsed(Info()) {
        return None;
      }
      var c := new StrictVersionHelper(Info());
      return Some(c);
    }
  }
}

/**
 * `coveo_pypi_cli.pypi`: choosing the latest release and the next version
 * of a package from the versions published on an index. The published
 * versions are a parameter, newest first, as `obtain_versions_from_pypi`
 * returns them; the minimum version is given both as the text the caller
 * passed (used in error messages) and as its parse.
 */
module Pypi {
  import opened Wrappers
  import opened Versions

  datatype VersionException = VersionException(message: string)

  /** `obtain_latest_release_from_pypi`: the first version without a prerelease. */
  function LatestRelease(versions: seq<VersionInfo>): (r: Option<VersionInfo>)
    ensures r.None? <==> forall i :: 0 <= i < |versions| ==> versions[i].prerelease.Some?
    ensures r.Some? ==> exists i :: 0 <= i < |versions| && versions[i] == r.value
                                   && r.value.prerelease.None?
                                   && forall j :: 0 <= j < i ==> versions[j].prerelease.Some?
    decreases |versions|
  {
    if |versions| == 0 then None
    else if versions[0].prerelease.None? then Some(versions[0])
    else
      var r := LatestRelease(versions[1..]);
      assert r.Some? ==> (exists i :: 0 <= i < |versions| && versions[i] == r.value && forall j :: 0 <= j < i ==> versions[j].prerelease.Some?) by {
        if r.Some? {
          var i :| 0 <= i < |versions[1..]| && versions[1..][i] == r.value
                   && forall j :: 0 <= j < i ==> versions[1..][j].prerelease.Some?;
          assert versions[i + 1] == r.value;
          assert forall j :: 0 <= j < i + 1 ==> versions[j].prerelease.Some? by {
            forall j | 0 <= j < i + 1
              ensures versions[j].prerelease.Some?
            {
              if j > 0 {
                assert versions[j] == versions[1..][j - 1];
              }
            }
          }
        }
      }
      r
  }

  /** `0.0.1`, the lowest minimum accepted. */
  const Lowest: VersionInfo := Release(0, 0, 1)

  /** `max(a, b)`: `b` only when it is strictly greater. */
  function Max(a: VersionInfo, b: VersionInfo): (r: VersionInfo)
    requires Parsed(a) && Parsed(b)
    ensures r == a || r == b
    ensures Compare(r, a) >= 0 && Compare(r, b) >= 0
  {
    CompareAntisymmetric(a, b);
    if Compare(b, a) > 0 then b else a
  }

  /** `compute_next_version` on version values. */
  function NextVersion(minimumText: string, minimum: VersionInfo, prerelease: bool, published: seq<VersionInfo>)
    : (r: Result<VersionInfo, VersionException>)
    requires Parsed(minimum) && forall i :: 0 <= i < |published| ==> Parsed(published[i])
    ensures r.Ok? ==> Parsed(r.value)
    ensures r.Err? ==> |r.error.message| >= 16 && r.error.message[..16] == "Minimum version "
  {
    if minimum.prerelease.Some? then
      Err(VersionException("Minimum version " + minimumText + " cannot be a pre-release."))
    else if Compare(minimum, Lowest) < 0 then
      Err(VersionException("Minimum version " + minimumText + " must be 0.0.1 or higher."))
    else
      BumpedPrereleaseAbove(minimum, false);
      var lbound := if prerelease then BumpedPrerelease(minimum, false).value else minimum;
      if |published| == 0 then Ok(lbound)
      else
        BumpedPrereleaseAbove(published[0], true);
        BumpedReleaseAbove(published[0]);
        var latest := if prerelease then BumpedPrerelease(published[0], true).value else BumpedRelease(published[0]);
        Ok(Max(lbound, latest))
  }

  /** The rejected minimums, and nothing else, give an error. */
  lemma NextVersionErrors(minimumText: string, minimum: VersionInfo, prerelease: bool, published: seq<VersionInfo>)
    requires Parsed(minimum) && forall i :: 0 <= i < |published| ==> Parsed(published[i])
    ensures NextVersion(minimumText, minimum, prerelease, published).Err? <==>
              minimum.prerelease.Some? || Compare(minimum, Lowest) < 0
  {
  }

  /**
   * A successful result is a prerelease exactly when one was asked for, is
   * no lower than the minimum (or its first prerelease), and is above the
   * newest published version.
   */
  lemma NextVersionProperties(minimumText: string, minimum: VersionInfo, prerelease: bool, published: seq<VersionInfo>)
    requires Parsed(minimum) && forall i :: 0 <= i < |published| ==> Parsed(published[i])
    requires NextVersion(minimumText, minimum, prerelease, published).Ok?
    ensures var r := NextVersion(minimumText, minimum, prerelease, published).value;
            var lbound := if prerelease then minimum.(prerelease := Some(Prerelease(Some("a"), Some(1)))) else minimum;
            Parsed(r) && Parsed(lbound)
            && (r.prerelease.Some? <==> prerelease)
            && Compare(r, lbound) >= 0
            && (|published| > 0 ==> Compare(r, published[0]) > 0)
            && (|published| == 0 ==> r == lbound)
  {
    var r := NextVersion(minimumText, minimum, prerelease, published).value;
    BumpedPrereleaseAbove(minimum, false);
    var lbound := if prerelease then BumpedPrerelease(minimum, false).value else minimum;
    if |published| > 0 {
      BumpedPrereleaseAbove(published[0], true);
      BumpedReleaseAbove(published[0]);
      var latest := if prerelease then BumpedPrerelease(published[0], true).value else BumpedRelease(published[0]);
      CompareAntisymmetric(lbound, latest);
      CompareAntisymmetric(lbound, lbound);
      CompareAntisymmetric(latest, latest);
      CompareTransitive(r, latest, published[0]);
    } else {
      CompareAntisymmetric(lbound, lbound);
    }
  }

  /** `Compare` is transitive from a non-strict step to a strict one. */
  lemma CompareTransitive(a: VersionInfo, b: VersionInfo, c: VersionInfo)
    requires Parsed(a) && Parsed(b) && Parsed(c)
    requires Compare(a, b) >= 0 && Compare(b, c) > 0
    ensures Compare(a, c) > 0
  {
    CompareAntisymmetric(a, b);
    if a != b {
      CompareGreaterTransitive(a, b, c);
    }
  }

  lemma CompareGreaterTransitive(a: VersionInfo, b: VersionInfo, c: VersionInfo)
    requires Parsed(a) && Parsed(b) && Parsed(c)
    requires Compare(a, b) > 0 && Compare(b, c) > 0
    ensures Compare(a, c) > 0
  {
    if a.major == b.major && a.minor == b.minor && a.patch == b.patch
       && b.major == c.major && b.minor == c.minor && b.patch == c.patch
       && a.prerelease.Some? && b.prerelease.Some? && c.prerelease.Some? {
      var sa := a.prerelease.value.stage.value;
      var sb := b.prerelease.value.stage.value;
      var sc := c.prerelease.value.stage.value;
      assert sa in {"a", "b"} && sb in {"a", "b"} && sc in {"a", "b"};
    }
  }

  /**
   * `compute_next_version`: the minimum is checked and possibly bumped to its
   * first prerelease, the newest published version is bumped, and the
   * greater of the two is returned.
   */
  method ComputeNextVersion(minimumText: string, minimum: VersionInfo, prerelease: bool, published: seq<VersionInfo>)
    returns (r: Result<StrictVersionHelper, VersionException>)
    requires Parsed(minimum) && forall i :: 0 <= i < |published| ==> Parsed(published[i])
    ensures r.Err? <==> NextVersion(minimumText, minimum, prerelease, published).Err?
    ensures r.Err? ==> r.error == NextVersion(minimumText, minimum, prerelease, published).error
    ensures r.Ok? ==> fresh(r.value) && r.value.Info() == NextVersion(minimumText, minimum, prerelease, published).value
  {
    var lbound := new StrictVersionHelper(minimum);
    if lbound.prerelease.Some? {
      return Err(VersionException("Minimum version " + minimumText + " cannot be a pre-release."));
    }
    if Compare(lbound.Info(), Lowest) < 0 {
      return Err(VersionException("Minimum version " + minimumText + " must be 0.0.1 or higher."));
    }
    if prerelease {
      var ok := lbound.BumpNextPrerelease(false);
    }
    if |published| == 0 {
      return Ok(lbound);
    }
    var latest := new StrictVersionHelper(published[0]);
    if prerelease {
      var ok := latest.BumpNextPrerelease(true);
    } else {
      latest.BumpNextRelease();
    }
    BumpedPrereleaseAbove(minimum, false);
    BumpedPrereleaseAbove(published[0], true);
    BumpedReleaseAbove(published[0]);
    if Compare(latest.Info(), lbound.Info()) > 0 {
      return Ok(latest);
    }
    return Ok(lbound);
  }
}

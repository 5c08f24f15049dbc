/** generate/helper.js: the nightly version string and the build tag name that the
    scripts use as the idempotency key of a nightly build. */
module Helper {
  import opened Common

  const NightlyInfix: string := "-nightly-"
  const BuildTagPrefix: string := "build-"

  /** `[version, '-nightly-', sha].join('')`. */
  function NightlyVersionStr(version: string, sha: string): (r: string)
    ensures |r| == |version| + 9 + |sha|
    ensures version <= r && r[|version|..|version| + 9] == NightlyInfix
    ensures r[|version| + 9..] == sha
  {
    version + NightlyInfix + sha
  }

  /** `buildTagPrefix + version`. */
  function GetBuildTagName(version: string): (r: string)
    ensures |r| == |version| + 6
    ensures BuildTagPrefix <= r
  {
    BuildTagPrefix + version
  }

  /** The inverse of GetBuildTagName: the version a build tag name was made from. */
  function VersionOfBuildTag(name: string): (r: Option<string>)
    ensures r.Some? <==> BuildTagPrefix <= name
  {
    if BuildTagPrefix <= name then Some(name[|BuildTagPrefix|..]) else None
  }

  /** Dropping the six characters of "build-" gives the version back, and a name
      with the prefix is the build tag name of what follows the prefix. */
  lemma BuildTagNameRoundTrip(version: string, name: string)
    ensures VersionOfBuildTag(GetBuildTagName(version)) == Some(version)
    ensures VersionOfBuildTag(name) == Some(version) ==> GetBuildTagName(version) == name
  {
    assert GetBuildTagName(version)[6..] == version;
    if VersionOfBuildTag(name) == Some(version) {
      assert name == name[..6] + name[6..];
    }
  }

  /** Two versions with the same build tag name are the same version. */
  lemma GetBuildTagNameInjective(v1: string, v2: string)
    requires GetBuildTagName(v1) == GetBuildTagName(v2)
    ensures v1 == v2
  {
    BuildTagNameRoundTrip(v1, GetBuildTagName(v2));
  }

  /** The number of characters after the last '-' of `s` (all of them if there is none). */
  function TrailingNonDash(s: string): (n: nat)
    ensures n <= |s|
    ensures forall k :: |s| - n <= k < |s| ==> s[k] != '-'
    ensures n < |s| ==> s[|s| - 1 - n] == '-'
  {
    if s == [] || s[|s| - 1] == '-' then 0 else 1 + TrailingNonDash(s[..|s| - 1])
  }

  /** Splits a nightly version string at its last "-nightly-"-terminating dash:
      the inverse of NightlyVersionStr for commit hashes without a dash. */
  function SplitNightlyVersion(s: string): (r: Option<(string, string)>)
    ensures r.Some? ==> NightlyVersionStr(r.value.0, r.value.1) == s && '-' !in r.value.1
  {
    var n := TrailingNonDash(s);
    if n + 9 <= |s| && s[|s| - n - 9..|s| - n] == NightlyInfix then
      assert s == s[..|s| - n - 9] + s[|s| - n - 9..|s| - n] + s[|s| - n..];
      var sha := s[|s| - n..];
      assert forall k :: 0 <= k < |sha| ==> sha[k] == s[|s| - n + k];
      Some((s[..|s| - n - 9], s[|s| - n..]))
    else None
  }

  lemma {:induction false} TrailingNonDashOfSuffix(prefix: string, sha: string)
    requires '-' !in sha
    ensures TrailingNonDash(prefix + "-" + sha) == |sha|
    decreases |sha|
  {
    var s := prefix + "-" + sha;
    if sha == [] {
      assert s[|s| - 1] == '-';
    } else {
      assert s[|s| - 1] == sha[|sha| - 1];
      assert s[..|s| - 1] == prefix + "-" + sha[..|sha| - 1];
      TrailingNonDashOfSuffix(prefix, sha[..|sha| - 1]);
    }
  }

  /** For a commit hash without a dash (a hex SHA), the nightly version string
      determines the version and the hash it was made from. */
  lemma NightlyVersionRoundTrip(version: string, sha: string)
    requires '-' !in sha
    ensures SplitNightlyVersion(NightlyVersionStr(version, sha)) == Some((version, sha))
  {
    var s := NightlyVersionStr(version, sha);
    assert s == (version + "-nightly") + "-" + sha;
    TrailingNonDashOfSuffix(version + "-nightly", sha);
    assert s[..|version|] == version;
  }

  /** Hence distinct (version, sha) pairs give distinct build tag names. */
  lemma BuildTagNameDeterminesVersionAndSha(v1: string, s1: string, v2: string, s2: string)
    requires '-' !in s1 && '-' !in s2
    requires GetBuildTagName(NightlyVersionStr(v1, s1)) == GetBuildTagName(NightlyVersionStr(v2, s2))
    ensures v1 == v2 && s1 == s2
  {
    GetBuildTagNameInjective(NightlyVersionStr(v1, s1), NightlyVersionStr(v2, s2));
    NightlyVersionRoundTrip(v1, s1);
    NightlyVersionRoundTrip(v2, s2);
  }

  /** Without the restriction on the hash the key is ambiguous. */
  lemma NightlyVersionStrCollides()
    ensures NightlyVersionStr("1.6-nightly-a", "b") == NightlyVersionStr("1.6", "a-nightly-b")
  {
  }
}

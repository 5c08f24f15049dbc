/** The Dockerfile parsers of generate/docker-hub-builder.js (identical in
    generate/dockerhub.js): `dockerfile.match(/ENV KEY[ ]+(.*)/)[1]`, written out as
    a string search, and tagNameFromBuildDetails, which recovers the build tag name a
    past build was made for from the Dockerfile the build service reports for it. */
module Dockerfile {
  import opened Common
  import Helper

  const VersionKey: string := "ENV GOLANG_BASE_VERSION"
  const ShaKey: string := "ENV GOLANG_BUILD_SHA"

  /** Why a build's tag name could not be recovered; in the source each of these
      is a TypeError thrown from the promise chain. */
  datatype ParseError =
    | MissingDockerfile       // build_results.dockerfile_contents is undefined (a queued build)
    | MissingVersion          // no `ENV GOLANG_BASE_VERSION` line: match(...) is null
    | MissingSha              // no `ENV GOLANG_BUILD_SHA` line: match(...) is null

  /** The characters a JavaScript `.` does not match. */
  predicate IsLineTerminator(c: char)
  {
    c == '\n' || c == '\r' || c == '\U{2028}' || c == '\U{2029}'
  }

  predicate OccursAt(s: string, pat: string, i: nat)
  {
    i + |pat| <= |s| && s[i..i + |pat|] == pat
  }

  /** The first position at or after `from` where `pat` occurs in `s`. */
  function IndexOf(s: string, pat: string, from: nat): (r: Option<nat>)
    decreases |s| - from
    ensures r.Some? ==> from <= r.value && OccursAt(s, pat, r.value)
    ensures r.Some? ==> forall j: nat :: from <= j < r.value ==> !OccursAt(s, pat, j)
    ensures r.None? ==> forall j: nat :: from <= j ==> !OccursAt(s, pat, j)
  {
    if from + |pat| > |s| then None
    else if OccursAt(s, pat, from) then Some(from)
    else IndexOf(s, pat, from + 1)
  }

  /** The end of the run of spaces that starts at `k` (what `[ ]+` consumes). */
  function SkipSpaces(s: string, k: nat): (r: nat)
    requires k <= |s|
    decreases |s| - k
    ensures k <= r <= |s|
    ensures forall j :: k <= j < r ==> s[j] == ' '
    ensures r < |s| ==> s[r] != ' '
  {
    if k < |s| && s[k] == ' ' then SkipSpaces(s, k + 1) else k
  }

  /** The first line terminator at or after `k`, or the end (what `(.*)` stops at). */
  function LineEnd(s: string, k: nat): (r: nat)
    requires k <= |s|
    decreases |s| - k
    ensures k <= r <= |s|
    ensures forall j :: k <= j < r ==> !IsLineTerminator(s[j])
    ensures r < |s| ==> IsLineTerminator(s[r])
  {
    if k < |s| && !IsLineTerminator(s[k]) then LineEnd(s, k + 1) else k
  }

  /** What `/KEY[ ]+(.*)/` matches in `s`: the first `KEY` followed by a space starts
      at `i`, its run of `n` spaces ends where `v` begins, and `v` runs to the end of
      that line. */
  ghost predicate FieldAt(s: string, key: string, i: nat, n: nat, v: string)
  {
    && OccursAt(s, key + " ", i)
    && (forall j: nat :: j < i ==> !OccursAt(s, key + " ", j))
    && 1 <= n && i + |key| + n + |v| <= |s|
    && (forall k :: i + |key| <= k < i + |key| + n ==> s[k] == ' ')
    && s[i + |key| + n..i + |key| + n + |v|] == v
    && (v == [] || v[0] != ' ')
    && (forall c :: c in v ==> !IsLineTerminator(c))
    && (i + |key| + n + |v| == |s| || IsLineTerminator(s[i + |key| + n + |v|]))
  }

  /** `s.match(/KEY[ ]+(.*)/)[1]`: the text after the first `KEY` that is followed by
      a space, past its run of spaces, up to the end of that line. The regular
      expression is not anchored, so the key may stand anywhere in a line. */
  function Field(s: string, key: string): (r: Option<string>)
    ensures r.None? <==> forall j: nat :: !OccursAt(s, key + " ", j)
    ensures r.Some? ==> exists i: nat, n: nat :: FieldAt(s, key, i, n, r.value)
  {
    match IndexOf(s, key + " ", 0)
    case None => None
    case Some(i) =>
      assert s[i + |key|] == (key + " ")[|key|] == ' ';
      var start := SkipSpaces(s, i + |key|);
      var end := LineEnd(s, start);
      var v := s[start..end];
      assert forall k :: 0 <= k < |v| ==> v[k] == s[start + k];
      assert FieldAt(s, key, i, start - i - |key|, v);
      Some(v)
  }

  /** The match is unique, so Field's contract pins its value: `Field` yields `v`
      exactly when `v` is what the regular expression captures. */
  lemma FieldAtUnique(s: string, key: string, i: nat, n: nat, v: string, i2: nat, n2: nat, v2: string)
    requires FieldAt(s, key, i, n, v) && FieldAt(s, key, i2, n2, v2)
    ensures i == i2 && n == n2 && v == v2
  {
    assert i == i2;
    var start := i + |key| + n;
    var start2 := i + |key| + n2;
    assert start == |s| || s[start] != ' ' by {
      if v != [] {
        assert s[start] == v[0];
      }
    }
    assert start2 == |s| || s[start2] != ' ' by {
      if v2 != [] {
        assert s[start2] == v2[0];
      }
    }
    assert n == n2;
    forall k | start <= k < start + |v| ensures !IsLineTerminator(s[k]) {
      assert s[k] == v[k - start] && v[k - start] in v;
    }
    forall k | start <= k < start + |v2| ensures !IsLineTerminator(s[k]) {
      assert s[k] == v2[k - start] && v2[k - start] in v2;
    }
    assert |v| == |v2|;
  }

  /** Hence Field yields `v` exactly when `v` is the captured text. */
  lemma FieldIsTheMatch(s: string, key: string, v: string)
    ensures Field(s, key) == Some(v) <==> exists i: nat, n: nat :: FieldAt(s, key, i, n, v)
  {
    if i: nat, n: nat :| FieldAt(s, key, i, n, v) {
      assert OccursAt(s, key + " ", i);
      var r := Field(s, key);
      var i2: nat, n2: nat :| FieldAt(s, key, i2, n2, r.value);
      FieldAtUnique(s, key, i, n, v, i2, n2, r.value);
    }
  }

  /** IndexOf finds an occurrence that has none before it. */
  lemma IndexOfFirst(s: string, pat: string, i: nat)
    requires OccursAt(s, pat, i)
    requires forall j: nat :: j < i ==> !OccursAt(s, pat, j)
    ensures IndexOf(s, pat, 0) == Some(i)
  {
  }

  /** LineEnd stops at the first line terminator. */
  lemma LineEndAt(s: string, k: nat, e: nat)
    requires k <= e < |s| && IsLineTerminator(s[e])
    requires forall j :: k <= j < e ==> !IsLineTerminator(s[j])
    ensures LineEnd(s, k) == e
  {
  }

  /** A field written as `KEY`, one or more spaces and `value`, ending its line,
      with no earlier `KEY ` in the text, is read back exactly. */
  lemma FieldOfLine(pre: string, key: string, spaces: string, value: string, tail: string)
    requires forall j: nat :: j < |pre| ==> !OccursAt(pre + key + spaces + value + tail, key + " ", j)
    requires spaces != [] && forall c :: c in spaces ==> c == ' '
    requires forall c :: c in value ==> !IsLineTerminator(c)
    requires value == [] || value[0] != ' '
    requires tail == [] || IsLineTerminator(tail[0])
    ensures Field(pre + key + spaces + value + tail, key) == Some(value)
  {
    var s := pre + key + spaces + value + tail;
    var i := |pre|;
    var start := i + |key| + |spaces|;
    assert s[i..i + |key|] == key;
    assert s[i + |key|] == spaces[0] && spaces[0] in spaces;
    assert s[i..i + |key| + 1] == key + " ";
    forall k | i + |key| <= k < start ensures s[k] == ' ' {
      assert s[k] == spaces[k - i - |key|] && spaces[k - i - |key|] in spaces;
    }
    assert s[start..start + |value|] == value;
    if tail != [] {
      assert s[start + |value|] == tail[0];
    }
    assert FieldAt(s, key, i, |spaces|, value);
    FieldIsTheMatch(s, key, value);
  }

  /** getVersionFromDockerfile and getCommitShaFromDockerfile, then the helper.js
      name: `build-<version>-nightly-<sha>`. */
  function TagNameFromDockerfile(dockerfile: string): (r: Result<string, ParseError>)
    ensures r == Failure(MissingVersion) <==> Field(dockerfile, VersionKey).None?
    ensures r == Failure(MissingSha) <==> Field(dockerfile, VersionKey).Some? && Field(dockerfile, ShaKey).None?
    ensures r.Success? ==> Field(dockerfile, VersionKey).Some? && Field(dockerfile, ShaKey).Some?
    ensures r.Success? ==> r.value == Helper.GetBuildTagName(Helper.NightlyVersionStr(
              Field(dockerfile, VersionKey).value, Field(dockerfile, ShaKey).value))
  {
    match Field(dockerfile, VersionKey)
    case None => Failure(MissingVersion)
    case Some(version) =>
      match Field(dockerfile, ShaKey)
      case None => Failure(MissingSha)
      case Some(sha) => Success(Helper.GetBuildTagName(Helper.NightlyVersionStr(version, sha)))
  }

  /** tagNameFromBuildDetails: a build whose Dockerfile the service has not
      materialized yet (a queued build) has no tag name to recover. */
  function TagNameFromBuildDetails(dockerfileContents: Option<string>): (r: Result<string, ParseError>)
    ensures dockerfileContents.None? <==> r == Failure(MissingDockerfile)
    ensures dockerfileContents.Some? ==> r == TagNameFromDockerfile(dockerfileContents.value)
  {
    match dockerfileContents
    case None => Failure(MissingDockerfile)
    case Some(text) => TagNameFromDockerfile(text)
  }

  /** The two declaration lines of a rendered Dockerfile with a base version and a
      commit hash that hold no space and no line break. */
  function RenderedFields(version: string, sha: string): string
  {
    VersionKey + " " + version + "\n" + ShaKey + " " + sha + "\n"
  }

  predicate IsToken(s: string)
  {
    forall c :: c in s ==> c != ' ' && !IsLineTerminator(c)
  }

  /** The sha key does not occur inside the version line: both keys hold their
      space at offset 3, and the sha key has a second one at offset 20, where the
      version line has none. */
  lemma ShaKeyNotInVersionLine(version: string, sha: string, j: nat)
    requires IsToken(version)
    requires j < |VersionKey + " " + version + "\n"|
    ensures !OccursAt(RenderedFields(version, sha), ShaKey + " ", j)
  {
    var s := RenderedFields(version, sha);
    var head := VersionKey + " ";
    var pat := ShaKey + " ";
    var p := |head| + |version|;
    assert s == head + version + "\n" + pat + sha + "\n";
    assert s[p] == '\n';
    if j + 21 <= |s| {
      var w := s[j..j + 21];
      if j + 21 > p {
        assert w[p - j] == '\n';
        assert pat[p - j] in pat && '\n' !in pat;
      } else if j == 3 {
        assert w[0] == head[3] == ' ';
        assert pat[0] == ShaKey[0] == 'E';
      } else if j < 3 {
        assert w[20] == head[j + 20] && head[j + 20] != ' ';
        assert pat[20] == ' ';
      } else {
        assert w[20] == version[j + 20 - |head|];
        assert version[j + 20 - |head|] in version;
        assert pat[20] == ' ';
      }
    }
  }

  /** Rendering a base version and a commit hash and parsing them back gives the
      build tag name task.js computed for them. */
  lemma RenderedTagNameRoundTrip(version: string, sha: string)
    requires IsToken(version) && IsToken(sha)
    ensures TagNameFromDockerfile(RenderedFields(version, sha))
         == Success(Helper.GetBuildTagName(Helper.NightlyVersionStr(version, sha)))
  {
    var s := RenderedFields(version, sha);
    var line := VersionKey + " " + version + "\n";
    assert version != [] ==> version[0] in version;
    assert sha != [] ==> sha[0] in sha;
    assert s == "" + VersionKey + " " + version + ("\n" + ShaKey + " " + sha + "\n");
    FieldOfLine("", VersionKey, " ", version, "\n" + ShaKey + " " + sha + "\n");
    assert s == line + ShaKey + " " + sha + "\n";
    forall j: nat | j < |line|
      ensures !OccursAt(line + ShaKey + " " + sha + "\n", ShaKey + " ", j)
    {
      ShaKeyNotInVersionLine(version, sha, j);
    }
    FieldOfLine(line, ShaKey, " ", sha, "\n");
  }
}

/** generate/task.js: the nightly job. It takes the newest commit of the upstream
    repository and its newest release tag, names the nightly build after them, and,
    unless the local repository already has that build tag, renders the Dockerfile,
    commits it and tags the commit. In either case it then pushes the build tags and
    master, and has the image build service ensure the builds. GitHub, the local git
    repository, the template engine and the file system are outside the model: what
    they return is an input, what the job asks of them is a `Step`. */
module Task {
  import opened Common
  import JsArray
  import Helper
  import Dockerfile

  /** cleanReleaseName: `releaseName.replace(new RegExp('^' + repo), '')`, with the
      repository name taken literally. */
  function CleanReleaseName(releaseName: string, repo: string): (r: string)
    ensures repo <= releaseName ==> repo + r == releaseName
    ensures !(repo <= releaseName) ==> r == releaseName
  {
    if repo <= releaseName then releaseName[|repo|..] else releaseName
  }

  /** A release named after the repository loses exactly that prefix: "go1.6" of the
      repository "go" is version "1.6". */
  lemma CleanReleaseNameRoundTrip(repo: string, version: string)
    ensures CleanReleaseName(repo + version, repo) == version
    ensures CleanReleaseName("go1.6", "go") == "1.6"
  {
    assert (repo + version)[|repo|..] == version;
    assert "go1.6"[..2] == "go";
  }

  /** onlyBuildTag: `/^build-/.test(tag)`. */
  predicate OnlyBuildTag(tag: string)
    ensures OnlyBuildTag(tag) <==> |tag| >= 6 && tag == Helper.GetBuildTagName(tag[6..])
  {
    Helper.BuildTagPrefix <= tag
  }

  /** The tags onlyBuildTag keeps are exactly the build tag names. */
  lemma OnlyBuildTagIffBuildTagName(tag: string)
    ensures OnlyBuildTag(tag) <==> exists v :: tag == Helper.GetBuildTagName(v)
  {
    if OnlyBuildTag(tag) {
      var v := tag[|Helper.BuildTagPrefix|..];
      Helper.BuildTagNameRoundTrip(v, tag);
    }
  }

  const TagRefPrefix: string := "refs/tags/"

  /** The refspec that pushes a tag to the tag of the same name. */
  function RefSpec(tag: string): (r: string)
    ensures |r| == 2 * |tag| + 21
  {
    TagRefPrefix + tag + ":" + TagRefPrefix + tag
  }

  /** The tag a tag refspec pushes, if `s` is one. */
  function TagOfRefSpec(s: string): (r: Option<string>)
    ensures r.Some? ==> RefSpec(r.value) == s
  {
    if |s| >= 21 && (|s| - 21) % 2 == 0 && s == RefSpec(s[10..10 + (|s| - 21) / 2]) then
      Some(s[10..10 + (|s| - 21) / 2])
    else None
  }

  /** A tag refspec names its tag: different tags give different refspecs. */
  lemma RefSpecRoundTrip(tag: string)
    ensures TagOfRefSpec(RefSpec(tag)) == Some(tag)
  {
    var s := RefSpec(tag);
    assert s[10..10 + |tag|] == tag;
  }

  /** tagsToRefSpecs as a value: one refspec per tag, in order. */
  function RefSpecsOf(tags: seq<string>): (r: seq<string>)
    ensures |r| == |tags|
    ensures forall k :: 0 <= k < |tags| ==> r[k] == RefSpec(tags[k])
  {
    seq(|tags|, k requires 0 <= k < |tags| => RefSpec(tags[k]))
  }

  /** tagsToRefSpecs: a `for (tagIndex in tags)` loop pushing one refspec per tag. */
  method TagsToRefSpecs(tags: seq<string>) returns (refSpecs: seq<string>)
    ensures refSpecs == RefSpecsOf(tags)
    ensures forall k :: 0 <= k < |tags| ==> TagOfRefSpec(refSpecs[k]) == Some(tags[k])
  {
    refSpecs := [];
    var tagIndex := 0;
    while tagIndex < |tags|
      invariant 0 <= tagIndex <= |tags|
      invariant |refSpecs| == tagIndex
      invariant forall k :: 0 <= k < tagIndex ==> refSpecs[k] == RefSpec(tags[k])
    {
      var tag := tags[tagIndex];
      refSpecs := refSpecs + [TagRefPrefix + tag + ":" + TagRefPrefix + tag];
      tagIndex := tagIndex + 1;
    }
    forall k | 0 <= k < |tags| ensures TagOfRefSpec(refSpecs[k]) == Some(tags[k]) {
      RefSpecRoundTrip(tags[k]);
    }
  }

  const HeadRefPrefix: string := "refs/heads/"

  /** refSpecMaster. */
  const RefSpecMaster: string := HeadRefPrefix + "master" + ":" + HeadRefPrefix + "master"

  /** The refspecs gitPushAll pushes for the repository's tags: those of the build
      tags, in order, then master. */
  function PushRefSpecs(gitTags: seq<string>): (r: seq<string>)
    ensures |r| == |JsArray.Filter(gitTags, OnlyBuildTag)| + 1 && r[|r| - 1] == RefSpecMaster
  {
    RefSpecsOf(JsArray.Filter(gitTags, OnlyBuildTag)) + [RefSpecMaster]
  }

  /** gitPushAll pushes master last; a tag is pushed exactly when the repository
      has it and it is a build tag. */
  lemma PushRefSpecsPushBuildTags(gitTags: seq<string>, tag: string)
    ensures var specs := PushRefSpecs(gitTags);
            && specs[|specs| - 1] == RefSpecMaster
            && TagOfRefSpec(RefSpecMaster).None?
            && (RefSpec(tag) in specs <==> tag in gitTags && OnlyBuildTag(tag))
  {
    var specs := PushRefSpecs(gitTags);
    var kept := JsArray.Filter(gitTags, OnlyBuildTag);
    assert RefSpecMaster[5] == 'h';
    assert RefSpec(tag)[5] == 't';
    if RefSpec(tag) in specs {
      var k :| 0 <= k < |specs| && specs[k] == RefSpec(tag);
      RefSpecRoundTrip(tag);
      RefSpecRoundTrip(kept[k]);
      assert kept[k] in kept;
    }
    if tag in gitTags && OnlyBuildTag(tag) {
      var k :| 0 <= k < |kept| && kept[k] == tag;
      assert specs[k] == RefSpec(tag);
    }
    assert RefSpec(RefSpecMaster[10..17])[5] == 't';
  }

  /** What the job asks of the outside world, in order. */
  datatype Step =
    | RenderDockerfile(version: string, sha: string)      // renderFile of Dockerfile.ejs
    | WriteDockerfile                                     // fs.writeFileAsync
    | CommitAndTag(message: string, tagName: string)      // gitAddCommit
    | Push(refSpecs: seq<string>)                         // gitPushAll
    | EnsureDockerHubBuilds(buildTagName: string)         // dockerHubBuilder.handleRepository

  const CommitMessagePrefix: string := "Update Dockerfile for nightly build "

  /** The steps of the job for the newest release version, the newest commit and
      the tags of the local repository. gitPushAll lists the tags again, so a tag
      just created is pushed too; the order git lists tags in is not modelled. */
  function NightlyRun(version: string, sha: string, localTags: seq<string>): (r: seq<Step>)
    ensures var name := Helper.GetBuildTagName(Helper.NightlyVersionStr(version, sha));
            && |r| == (if name in localTags then 2 else 5)
            && r[|r| - 1] == EnsureDockerHubBuilds(name)
  {
    var nightlyVersion := Helper.NightlyVersionStr(version, sha);
    var buildTagName := Helper.GetBuildTagName(nightlyVersion);
    if buildTagName in localTags then
      [Push(PushRefSpecs(localTags)), EnsureDockerHubBuilds(buildTagName)]
    else
      [ RenderDockerfile(version, sha),
        WriteDockerfile,
        CommitAndTag(CommitMessagePrefix + nightlyVersion, buildTagName),
        Push(PushRefSpecs(localTags + [buildTagName])),
        EnsureDockerHubBuilds(buildTagName) ]
  }

  /** The job is idempotent per build tag: the Dockerfile is rendered and committed
      exactly when the local repository lacks the build tag, and the commit gets
      that tag. */
  lemma NightlyRunCommitsOnlyNewTags(version: string, sha: string, localTags: seq<string>)
    ensures var steps := NightlyRun(version, sha, localTags);
            var name := Helper.GetBuildTagName(Helper.NightlyVersionStr(version, sha));
            && ((exists k :: 0 <= k < |steps| && steps[k].CommitAndTag?) <==> name !in localTags)
            && ((exists k :: 0 <= k < |steps| && steps[k].RenderDockerfile?) <==> name !in localTags)
            && (forall k :: 0 <= k < |steps| && steps[k].CommitAndTag? ==> steps[k].tagName == name)
  {
    var steps := NightlyRun(version, sha, localTags);
    var name := Helper.GetBuildTagName(Helper.NightlyVersionStr(version, sha));
    if name !in localTags {
      assert steps[2].CommitAndTag? && steps[0].RenderDockerfile?;
    }
  }

  /** Every run pushes exactly once, with the build tag among the refspecs, and
      then ensures the builds for that build tag as its last step. */
  lemma NightlyRunPushesThenEnsures(version: string, sha: string, localTags: seq<string>)
    ensures var steps := NightlyRun(version, sha, localTags);
            var name := Helper.GetBuildTagName(Helper.NightlyVersionStr(version, sha));
            && |steps| >= 2
            && steps[|steps| - 1] == EnsureDockerHubBuilds(name)
            && steps[|steps| - 2].Push?
            && RefSpec(name) in steps[|steps| - 2].refSpecs
            && (forall k :: 0 <= k < |steps| && steps[k].Push? ==> k == |steps| - 2)
  {
    var steps := NightlyRun(version, sha, localTags);
    var name := Helper.GetBuildTagName(Helper.NightlyVersionStr(version, sha));
    var pushed := if name in localTags then localTags else localTags + [name];
    assert name in pushed;
    assert OnlyBuildTag(name);
    PushRefSpecsPushBuildTags(pushed, name);
  }

  /** The build tag the job hands to the image build service is the one the service
      recovers from the Dockerfile the job renders, when the version and the commit
      hash hold no blank or line break. */
  lemma NightlyRunAgreesWithDockerfile(version: string, sha: string, localTags: seq<string>)
    requires Dockerfile.IsToken(version) && Dockerfile.IsToken(sha)
    ensures var steps := NightlyRun(version, sha, localTags);
            Dockerfile.TagNameFromDockerfile(Dockerfile.RenderedFields(version, sha))
            == Success(steps[|steps| - 1].buildTagName)
  {
    NightlyRunPushesThenEnsures(version, sha, localTags);
    Dockerfile.RenderedTagNameRoundTrip(version, sha);
  }

  /** A tag of the upstream repository with its author date as a number. */
  datatype GitTag = GitTag(name: string, authorDate: int)

  function AuthorDate(t: GitTag): int
  {
    t.authorDate
  }

  /** Why the job cannot start: in the source, a TypeError on `commits[0].sha` or on
      `tagsSortedDateDesc[0].name`. */
  datatype TaskError = NoCommit | NoReleaseTag

  /** getLastTagVersion: sorts the tags newest first, in place, and cleans the name
      of the first. */
  method GetLastTagVersion(tags: array<GitTag>, repo: string) returns (r: Result<string, TaskError>)
    modifies tags
    ensures multiset(tags[..]) == old(multiset(tags[..]))
    ensures forall i, j :: 0 <= i < j < tags.Length ==> tags[i].authorDate >= tags[j].authorDate
    ensures r.Failure? <==> tags.Length == 0
    ensures r.Failure? ==> r.error == NoReleaseTag
    ensures r.Success? ==> r.value == CleanReleaseName(tags[0].name, repo)
    ensures r.Success? ==> exists t :: t in old(tags[..]) && r.value == CleanReleaseName(t.name, repo)
                             && forall u :: u in old(tags[..]) ==> u.authorDate <= t.authorDate
  {
    JsArray.SortDescBy(tags, AuthorDate);
    if tags.Length == 0 {
      return Failure(NoReleaseTag);
    }
    var lastRelease := tags[0];
    r := Success(CleanReleaseName(lastRelease.name, repo));
    assert lastRelease in multiset(tags[..]);
    forall u | u in old(tags[..]) ensures u.authorDate <= lastRelease.authorDate {
      assert u in multiset(old(tags[..]));
      var k :| 0 <= k < tags.Length && tags[k] == u;
      assert k == 0 || AuthorDate(tags[0]) >= AuthorDate(tags[k]);
    }
  }

  /** getLastCommitSha: the hash of the first commit listed (the newest). */
  function LastCommitSha(commitShas: seq<string>): (r: Result<string, TaskError>)
    ensures r.Success? <==> commitShas != []
    ensures r.Success? ==> r.value == commitShas[0]
    ensures r.Failure? ==> r.error == NoCommit
  {
    if commitShas == [] then Failure(NoCommit) else Success(commitShas[0])
  }

  /** The job: the newest commit, the newest release version and the local tags
      (fetched concurrently in the source), then the steps of NightlyRun. When both
      fetches fail, the missing commit is reported. */
  method RunNightly(commitShas: seq<string>, releaseTags: array<GitTag>, repo: string, localTags: seq<string>)
    returns (steps: Result<seq<Step>, TaskError>)
    modifies releaseTags
    ensures multiset(releaseTags[..]) == old(multiset(releaseTags[..]))
    ensures forall i, j :: 0 <= i < j < releaseTags.Length ==> releaseTags[i].authorDate >= releaseTags[j].authorDate
    ensures steps.Failure? <==> commitShas == [] || releaseTags.Length == 0
    ensures commitShas == [] ==> steps == Failure(NoCommit)
    ensures commitShas != [] && releaseTags.Length == 0 ==> steps == Failure(NoReleaseTag)
    ensures steps.Success? ==>
      exists t :: t in old(releaseTags[..])
        && (forall u :: u in old(releaseTags[..]) ==> u.authorDate <= t.authorDate)
        && steps.value == NightlyRun(CleanReleaseName(t.name, repo), commitShas[0], localTags)
  {
    var sha := LastCommitSha(commitShas);
    var version := GetLastTagVersion(releaseTags, repo);
    if sha.Failure? {
      return Failure(NoCommit);
    }
    if version.Failure? {
      return Failure(version.error);
    }
    steps := Success(NightlyRun(version.value, sha.value, localTags));
  }
}

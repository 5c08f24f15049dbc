/** generate/dockerhub.js: the earlier, stand-alone script that checks the image
    build service directly. It keeps its own copies of the naming helpers, decides
    whether "latest" is current from the newest successful "latest" build (the
    history sorted oldest first), and decides whether the tagged image exists from
    the published tags. reuseTagBuild and the build-tag descriptors are the same as
    in generate/docker-hub-builder.js and are modelled once, in BuildTags and
    Reconcile. */
module DockerHub {
  import opened Common
  import JsArray
  import Helper
  import Dockerfile
  import opened BuildTags
  import opened Builds
  import Reconcile

  /** The build tag name the script checks, fixed in its source. */
  const ScriptBuildTagName: string := "build-" + "1.6" + "-nightly-" + "50674532719cad7bbdbcce5027f3510633eeed73"

  /** `parts.join('')`. */
  function Join(parts: seq<string>): string
  {
    if parts == [] then "" else parts[0] + Join(parts[1..])
  }

  /** The script's copy of nightlyVersionStr. */
  function NightlyVersionStr(version: string, sha: string): string
  {
    Join([version, "-nightly-", sha])
  }

  /** The script's copy of getBuildTagName. */
  function GetBuildTagName(version: string): string
  {
    "build-" + version
  }

  /** The copies compute what generate/helper.js computes, so the fixed name is the
      build tag name of base version 1.6 at that commit. */
  lemma CopiesAgreeWithHelper(version: string, sha: string)
    ensures NightlyVersionStr(version, sha) == Helper.NightlyVersionStr(version, sha)
    ensures GetBuildTagName(version) == Helper.GetBuildTagName(version)
    ensures ScriptBuildTagName
            == Helper.GetBuildTagName(Helper.NightlyVersionStr("1.6", "50674532719cad7bbdbcce5027f3510633eeed73"))
  {
    var parts := [version, "-nightly-", sha];
    assert parts[1..] == ["-nightly-", sha];
    assert parts[1..][1..] == [sha];
    assert [sha][1..] == [];
    assert Join([sha]) == sha;
    assert Join(["-nightly-", sha]) == "-nightly-" + sha;
    assert Join(parts) == version + ("-nightly-" + sha);
  }

  /** bySuccessfulBuild. */
  predicate BySuccessfulBuild(b: Build)
    ensures BySuccessfulBuild(b) ==> IsPassingBuild(b) && !IsPendingBuild(b)
  {
    b.status == BuildStatusSucceeded
  }

  /** byUsingTag: a setting built from a git tag whose source name matches the
      regular expression "build" followed by any number of dashes, none included;
      so it asks only for "build" somewhere in the name. */
  predicate ByUsingTag(t: BuildTag)
    ensures ByUsingTag(t) ==> t.sourceType == Tag && |t.sourceName| >= 5
  {
    t.sourceType == Tag && Dockerfile.IndexOf(t.sourceName, "build", 0).Some?
  }

  /** byUsingTag accepts exactly the tag-sourced settings with "build" in their
      source name: every build tag name, but also a name like "rebuild". */
  lemma ByUsingTagAcceptsBuildAnywhere(t: BuildTag, version: string)
    ensures ByUsingTag(t) <==> t.sourceType == Tag && exists j: nat :: Dockerfile.OccursAt(t.sourceName, "build", j)
    ensures ByUsingTag(t.(sourceName := Helper.GetBuildTagName(version))) <==> t.sourceType == Tag
    ensures ByUsingTag(t.(sourceName := "rebuild")) <==> t.sourceType == Tag
  {
    var r := Dockerfile.IndexOf(t.sourceName, "build", 0);
    if r.Some? {
      assert Dockerfile.OccursAt(t.sourceName, "build", r.value);
    }
    var named := Helper.GetBuildTagName(version);
    assert Dockerfile.OccursAt(named, "build", 0) by {
      assert named[0..5] == "build";
    }
    assert Dockerfile.OccursAt("rebuild", "build", 2) by {
      assert "rebuild"[2..7] == "build";
    }
  }

  /** Why fetchLastLatestBuildTagname has no name; both reject the promise in the
      source (a TypeError). */
  datatype FetchError =
    | NoSucceededLatestBuild                          // the filtered array is empty
    | UnreadableDockerfile(cause: Dockerfile.ParseError)

  predicate IsSucceededLatest(b: Build)
  {
    BySuccessfulBuild(b) && b.dockertagName == "latest"
  }

  /** fetchLastLatestBuildTagname on the history sorted oldest first: the build tag
      name recovered from the last successful "latest" build. */
  function LastLatestTagName(buildsSorted: seq<Build>): (r: Result<string, FetchError>)
    ensures r == Failure(NoSucceededLatestBuild) <==> forall b :: b in buildsSorted ==> !IsSucceededLatest(b)
    ensures r.Success? ==> Helper.BuildTagPrefix <= r.value
  {
    var qualBuildsSorted := JsArray.Filter(buildsSorted, BySuccessfulBuild);
    LastLatestOfSuccessful(qualBuildsSorted)
  }

  /** The rest of fetchLastLatestBuildTagname once the successful builds are kept:
      the name in the last "latest" one. */
  function LastLatestOfSuccessful(qualBuildsSorted: seq<Build>): (r: Result<string, FetchError>)
    ensures r == Failure(NoSucceededLatestBuild) <==> forall b :: b in qualBuildsSorted ==> b.dockertagName != "latest"
    ensures r.Success? ==> Helper.BuildTagPrefix <= r.value
  {
    var successfulPastLatestBuilds := FindBuildsByTagName(qualBuildsSorted, "latest");
    if successfulPastLatestBuilds == [] then
      Failure(NoSucceededLatestBuild)
    else
      var last := successfulPastLatestBuilds[|successfulPastLatestBuilds| - 1];
      assert last in successfulPastLatestBuilds;
      TagNameOf(last)
  }

  /** The tag name recovered from one build, as fetchLastLatestBuildTagname reports it. */
  function TagNameOf(b: Build): (r: Result<string, FetchError>)
    ensures r != Failure(NoSucceededLatestBuild)
    ensures r.Success? ==> Helper.BuildTagPrefix <= r.value
  {
    match Dockerfile.TagNameFromBuildDetails(b.dockerfileContents)
    case Failure(e) => Failure(UnreadableDockerfile(e))
    case Success(name) => Success(name)
  }

  /** The answer comes from the last successful "latest" build of the history alone. */
  lemma LastLatestUsesLastSucceeded(builds: seq<Build>, i: nat)
    requires i < |builds| && IsSucceededLatest(builds[i])
    requires forall j :: i < j < |builds| ==> !IsSucceededLatest(builds[j])
    ensures LastLatestTagName(builds) == TagNameOf(builds[i])
  {
    var isLatest := (b: Build) => b.dockertagName == "latest";
    JsArray.FilterFilterLast(builds, BySuccessfulBuild, isLatest, i);
    var successful := JsArray.Filter(builds, BySuccessfulBuild);
    var latest := JsArray.Filter(successful, isLatest);
    assert FindBuildsByTagName(successful, "latest") == latest;
    LastOfSuccessfulIsLast(successful, latest[|latest| - 1]);
  }

  /** LastLatestOfSuccessful reads the name off the last successful "latest" build. */
  lemma LastOfSuccessfulIsLast(qualBuildsSorted: seq<Build>, last: Build)
    requires var latest := FindBuildsByTagName(qualBuildsSorted, "latest");
             latest != [] && latest[|latest| - 1] == last
    ensures LastLatestOfSuccessful(qualBuildsSorted) == TagNameOf(last)
  {
  }

  /** On a history sorted oldest first, that build is one created last among the
      successful "latest" builds. */
  lemma LastLatestIsNewest(builds: seq<Build>)
    requires JsArray.SortedBy(builds, CreatedDate)
    requires exists b :: b in builds && IsSucceededLatest(b)
    ensures exists i :: 0 <= i < |builds| && IsSucceededLatest(builds[i])
              && (forall b :: b in builds && IsSucceededLatest(b) ==> b.createdDate <= builds[i].createdDate)
              && LastLatestTagName(builds) == TagNameOf(builds[i])
  {
    var i := |builds| - 1;
    while !IsSucceededLatest(builds[i])
      invariant 0 <= i < |builds|
      invariant exists j :: 0 <= j <= i && IsSucceededLatest(builds[j])
      invariant forall j :: i < j < |builds| ==> !IsSucceededLatest(builds[j])
      decreases i
    {
      i := i - 1;
    }
    LastLatestUsesLastSucceeded(builds, i);
    forall b | b in builds && IsSucceededLatest(b) ensures b.createdDate <= builds[i].createdDate {
      var k :| 0 <= k < |builds| && builds[k] == b;
      assert k <= i;
      assert CreatedDate(builds[k]) <= CreatedDate(builds[i]) || k == i;
    }
  }

  /** A build that did not succeed never changes the answer. */
  lemma LastLatestIgnoresUnsucceeded(before: seq<Build>, other: Build, after: seq<Build>)
    requires !BySuccessfulBuild(other)
    ensures LastLatestTagName(before + [other] + after) == LastLatestTagName(before + after)
  {
    SucceededFilterDrops(before, other, after);
    LastLatestOnlySeesSuccessful(before + [other] + after, before + after);
  }

  /** fetchLastLatestBuildTagname looks at nothing but the successful builds. */
  lemma LastLatestOnlySeesSuccessful(x: seq<Build>, y: seq<Build>)
    requires JsArray.Filter(x, BySuccessfulBuild) == JsArray.Filter(y, BySuccessfulBuild)
    ensures LastLatestTagName(x) == LastLatestTagName(y)
  {
  }

  /** bySuccessfulBuild drops a build that did not succeed wherever it stands. */
  lemma SucceededFilterDrops(before: seq<Build>, other: Build, after: seq<Build>)
    requires !BySuccessfulBuild(other)
    ensures JsArray.Filter(before + [other] + after, BySuccessfulBuild) == JsArray.Filter(before + after, BySuccessfulBuild)
  {
    JsArray.FilterConcat(before + [other], after, BySuccessfulBuild);
    JsArray.FilterConcat(before, [other], BySuccessfulBuild);
    JsArray.FilterConcat(before, after, BySuccessfulBuild);
    assert JsArray.Filter([other], BySuccessfulBuild) == [] by {
      assert [other][1..] == [];
    }
  }

  /** fetchLastLatestBuildTagname: sorts the build history in place, oldest first,
      and reads the name off the last successful "latest" build. */
  method FetchLastLatestBuildTagname(builds: array<Build>) returns (r: Result<string, FetchError>)
    modifies builds
    ensures JsArray.SortedBy(builds[..], CreatedDate)
    ensures multiset(builds[..]) == old(multiset(builds[..]))
    ensures r == LastLatestTagName(builds[..])
  {
    JsArray.SortBy(builds, CreatedDate);
    r := LastLatestTagName(builds[..]);
  }

  /** The "latest" side of the script triggers a build exactly when a name was
      fetched and it is not the one being checked. */
  predicate LatestBranchTriggers(fetched: Result<string, FetchError>, buildTagName: string)
  {
    fetched.Success? && fetched.value != buildTagName
  }

  /** The tagged side as written: `if (existingTag)` tests an array, and every array
      is truthy, so the tagged build is never triggered. */
  predicate TaggedBranchTriggersAsWritten(existingTags: seq<PublishedTag>)
  {
    !JsTruthyArray(existingTags)
  }

  /** JavaScript truthiness of an array object, empty or not. */
  predicate JsTruthyArray<T>(a: seq<T>)
  {
    true
  }

  /** The tagged side as intended: trigger when no published tag has the name. */
  predicate TaggedBranchTriggers(existingTags: seq<PublishedTag>)
  {
    |existingTags| == 0
  }

  /** With no image tags published at all, the tag has plainly not been built; the
      script as written still does not trigger it, the intended check does. */
  lemma TaggedBranchAsWrittenMissesUnbuiltTag()
    ensures var existingTags := FindTagsByName([], ScriptBuildTagName);
            !TaggedBranchTriggersAsWritten(existingTags) && TaggedBranchTriggers(existingTags)
  {
  }

  /** The intended check triggers exactly when the tag is unpublished, and agrees
      with isThereTaggedBuild of generate/docker-hub-builder.js when no build is
      pending. */
  lemma TaggedBranchTriggersIffUnpublished(tags: seq<PublishedTag>, buildTagName: string)
    ensures TaggedBranchTriggers(FindTagsByName(tags, buildTagName))
            <==> forall t :: t in tags ==> t.name != buildTagName
    ensures TaggedBranchTriggers(FindTagsByName(tags, buildTagName))
            <==> IsThereTaggedBuild([], tags, buildTagName) == NotFound
  {
    var existing := FindTagsByName(tags, buildTagName);
    if existing != [] {
      assert existing[0] in existing;
    }
  }

  /** The "latest" side of the script: fetch the name of the last successful
      "latest" build and, when it differs from the one checked, reuseTagBuild for
      the master branch. */
  method CheckLatest(service: Reconcile.BuildService, builds: array<Build>, buildTagName: string, replies: Reconcile.Replies)
    returns (fetched: Result<string, FetchError>)
    requires service.Valid() && replies.createdId !in Reconcile.IdsOf(service.buildTags)
    modifies service, builds
    ensures service.Valid()
    ensures JsArray.SortedBy(builds[..], CreatedDate)
    ensures multiset(builds[..]) == old(multiset(builds[..]))
    ensures fetched == LastLatestTagName(builds[..])
    ensures service.trace == old(service.trace)
            + if LatestBranchTriggers(fetched, buildTagName)
              then Reconcile.ReusePlan(old(service.buildTags), Reconcile.LatestDetails, replies) else []
    ensures service.buildTags
            == if LatestBranchTriggers(fetched, buildTagName)
               then Reconcile.TagsAfterReuse(old(service.buildTags), Reconcile.LatestDetails, replies)
               else old(service.buildTags)
  {
    fetched := FetchLastLatestBuildTagname(builds);
    if fetched.Success? && fetched.value != buildTagName {
      service.TriggerLatestBuild(replies);
    }
  }

  /** The tagged side of the script: fetch the published tags with the name and,
      when there are none, reuseTagBuild for the git tag. */
  method CheckTagged(service: Reconcile.BuildService, tags: seq<PublishedTag>, buildTagName: string, replies: Reconcile.Replies)
    returns (existingTags: seq<PublishedTag>)
    requires service.Valid() && replies.createdId !in Reconcile.IdsOf(service.buildTags)
    modifies service
    ensures service.Valid()
    ensures existingTags == FindTagsByName(tags, buildTagName)
    ensures service.trace == old(service.trace)
            + if TaggedBranchTriggers(existingTags)
              then Reconcile.ReusePlan(old(service.buildTags), Reconcile.TaggedDetails(buildTagName), replies) else []
    ensures service.buildTags
            == if TaggedBranchTriggers(existingTags)
               then Reconcile.TagsAfterReuse(old(service.buildTags), Reconcile.TaggedDetails(buildTagName), replies)
               else old(service.buildTags)
  {
    existingTags := FindTagsByName(tags, buildTagName);
    if |existingTags| == 0 {
      service.TriggerTaggedBuild(buildTagName, replies);
    }
  }

  /** The script after login: the "latest" side, then the tagged side (run one
      after the other here); the tagged side uses the intended emptiness test. */
  method RunChecks(
    service: Reconcile.BuildService, builds: array<Build>, tags: seq<PublishedTag>, buildTagName: string,
    latestReplies: Reconcile.Replies, taggedReplies: Reconcile.Replies)
    returns (fetched: Result<string, FetchError>, existingTags: seq<PublishedTag>)
    requires service.Valid()
    requires latestReplies.createdId !in Reconcile.IdsOf(service.buildTags)
    requires taggedReplies.createdId !in Reconcile.IdsOf(service.buildTags)
    requires taggedReplies.createdId != latestReplies.createdId
    modifies service, builds
    ensures service.Valid()
    ensures JsArray.SortedBy(builds[..], CreatedDate)
    ensures multiset(builds[..]) == old(multiset(builds[..]))
    ensures fetched == LastLatestTagName(builds[..])
    ensures existingTags == FindTagsByName(tags, buildTagName)
    ensures var afterLatest := if LatestBranchTriggers(fetched, buildTagName)
                               then Reconcile.TagsAfterReuse(old(service.buildTags), Reconcile.LatestDetails, latestReplies)
                               else old(service.buildTags);
            && service.trace == old(service.trace)
               + (if LatestBranchTriggers(fetched, buildTagName)
                  then Reconcile.ReusePlan(old(service.buildTags), Reconcile.LatestDetails, latestReplies) else [])
               + (if TaggedBranchTriggers(existingTags)
                  then Reconcile.ReusePlan(afterLatest, Reconcile.TaggedDetails(buildTagName), taggedReplies) else [])
            && service.buildTags
               == if TaggedBranchTriggers(existingTags)
                  then Reconcile.TagsAfterReuse(afterLatest, Reconcile.TaggedDetails(buildTagName), taggedReplies)
                  else afterLatest
  {
    ghost var initial := service.buildTags;
    fetched := CheckLatest(service, builds, buildTagName, latestReplies);
    if LatestBranchTriggers(fetched, buildTagName) {
      forall t | t in service.buildTags ensures t.id != taggedReplies.createdId {
        Reconcile.ReuseKeepsEverythingElse(initial, Reconcile.LatestDetails, latestReplies, t);
      }
    }
    existingTags := CheckTagged(service, tags, buildTagName, taggedReplies);
  }
}

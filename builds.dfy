/** The build history side of generate/docker-hub-builder.js: the status
    predicates, the finders, the two classifiers that decide whether the "latest"
    image and the tagged image are current, and the newest-first ordering of the
    build history that handleRepository hands to them. */
module Builds {
  import opened Common
  import JsArray
  import Dockerfile

  const BuildStatusSucceeded: int := 10
  const BuildStatusFailed: int := -1
  const BuildStatusQueued: int := 0
  const BuildStatusBuilding: int := 3

  /** One entry of the service's build history. `dockerfileContents` is what
      buildDetails reports for the build (absent while the build is queued);
      `createdDate` is the creation time as a number. */
  datatype Build = Build(
    buildCode: string,
    status: int,
    dockertagName: string,
    createdDate: int,
    dockerfileContents: Option<string>)

  /** An image tag the service has published. */
  datatype PublishedTag = PublishedTag(name: string)

  /** isPendingBuild: queued or building. */
  predicate IsPendingBuild(b: Build)
    ensures IsPendingBuild(b) ==> b.status != BuildStatusSucceeded && b.status != BuildStatusFailed
  {
    b.status == BuildStatusQueued || b.status == BuildStatusBuilding
  }

  /** isPassingBuild: succeeded or pending, that is, not failed. */
  predicate IsPassingBuild(b: Build)
    ensures IsPassingBuild(b) ==> b.status != BuildStatusFailed
    ensures b.status == BuildStatusSucceeded ==> IsPassingBuild(b)
  {
    IsPendingBuild(b) || b.status == BuildStatusSucceeded
  }

  /** The predicates on the four status codes: a failed build, and a build with a
      code outside the four, is neither pending nor passing. */
  lemma StatusPredicates(b: Build)
    ensures IsPendingBuild(b) <==> b.status == 0 || b.status == 3
    ensures IsPassingBuild(b) <==> b.status == 0 || b.status == 3 || b.status == 10
    ensures IsPendingBuild(b) ==> IsPassingBuild(b)
    ensures b.status == BuildStatusFailed ==> !IsPendingBuild(b) && !IsPassingBuild(b)
  {
  }

  /** findTagsByName: the published tags with that name, in order. */
  function FindTagsByName(tags: seq<PublishedTag>, name: string): (r: seq<PublishedTag>)
    ensures forall t :: t in r <==> t in tags && t.name == name
  {
    JsArray.Filter(tags, (t: PublishedTag) => t.name == name)
  }

  /** findBuildsByTagName: the builds of that image tag, in order. */
  function FindBuildsByTagName(builds: seq<Build>, name: string): (r: seq<Build>)
    ensures forall b :: b in r <==> b in builds && b.dockertagName == name
  {
    JsArray.Filter(builds, (b: Build) => b.dockertagName == name)
  }

  /** Both finders return the order-preserving subsequence of exactly the matching
      elements. */
  lemma FindersAreOrderedFilters(tags: seq<PublishedTag>, builds: seq<Build>, name: string, t: PublishedTag, b: Build)
    ensures JsArray.IsSubsequence(FindTagsByName(tags, name), tags)
    ensures multiset(FindTagsByName(tags, name))[t] == if t.name == name then multiset(tags)[t] else 0
    ensures JsArray.IsSubsequence(FindBuildsByTagName(builds, name), builds)
    ensures multiset(FindBuildsByTagName(builds, name))[b] == if b.dockertagName == name then multiset(builds)[b] else 0
  {
    JsArray.FilterIsSubsequence(tags, (t: PublishedTag) => t.name == name);
    JsArray.FilterCounts(tags, (t: PublishedTag) => t.name == name, t);
    JsArray.FilterIsSubsequence(builds, (b: Build) => b.dockertagName == name);
    JsArray.FilterCounts(builds, (b: Build) => b.dockertagName == name, b);
  }

  /** CHECK_BUILD_OK, CHECK_BUILD_OK_PENDING, CHECK_BUILD_NOTFOUND, CHECK_BUILD_OUTDATED. */
  datatype Check = Ok | OkPending | NotFound | Outdated
  {
    function Code(): int
    {
      match this
      case Ok => 10
      case OkPending => 2
      case NotFound => -1
      case Outdated => -2
    }
  }

  /** Why isThereLatestBuild has no answer; the source throws a TypeError in both cases. */
  datatype CheckError =
    | NoPassingLatestBuild                   // latestBuilds[0] is undefined
    | Unparsable(cause: Dockerfile.ParseError)

  /** A passing build of the "latest" image tag. */
  predicate IsPassingLatest(b: Build)
  {
    IsPassingBuild(b) && b.dockertagName == "latest"
  }

  /** isThereLatestBuild: looks at the newest passing "latest" build only (the
      history is newest first), recovers the build tag name it was made for, and
      compares it with the desired one. */
  function IsThereLatestBuild(buildsSortedDesc: seq<Build>, buildTagName: string): (r: Result<Check, CheckError>)
    ensures r != Success(NotFound)
    ensures r == Failure(NoPassingLatestBuild) <==> forall b :: b in buildsSortedDesc ==> !IsPassingLatest(b)
  {
    var passingBuildsSortedDesc := JsArray.Filter(buildsSortedDesc, IsPassingBuild);
    var latestBuilds := FindBuildsByTagName(passingBuildsSortedDesc, "latest");
    if latestBuilds == [] then
      assert forall b :: b in buildsSortedDesc ==> !IsPassingLatest(b) by {
        forall b | b in buildsSortedDesc ensures !IsPassingLatest(b) {
          assert b !in latestBuilds;
        }
      }
      Failure(NoPassingLatestBuild)
    else
      var lastLatestBuild := latestBuilds[0];
      assert lastLatestBuild in buildsSortedDesc && IsPassingLatest(lastLatestBuild);
      match Dockerfile.TagNameFromBuildDetails(lastLatestBuild.dockerfileContents)
      case Failure(e) => Failure(Unparsable(e))
      case Success(lastLatestBuildTagName) =>
        if lastLatestBuildTagName == buildTagName then
          if IsPendingBuild(lastLatestBuild) then Success(OkPending) else Success(Ok)
        else Success(Outdated)
  }

  /** The outcome of isThereLatestBuild is decided by the first passing "latest"
      build of the history alone: the same build tag name gives OK, or OK_PENDING
      while that build is pending; another name gives OUTDATED; an unreadable
      Dockerfile gives an error. */
  lemma LatestDecidedByNewestPassingLatest(builds: seq<Build>, i: nat, buildTagName: string)
    requires i < |builds| && IsPassingLatest(builds[i])
    requires forall j :: 0 <= j < i ==> !IsPassingLatest(builds[j])
    ensures var r := IsThereLatestBuild(builds, buildTagName);
            var n := Dockerfile.TagNameFromBuildDetails(builds[i].dockerfileContents);
            && (r == Success(OkPending) <==> n == Success(buildTagName) && IsPendingBuild(builds[i]))
            && (r == Success(Ok) <==> n == Success(buildTagName) && !IsPendingBuild(builds[i]))
            && (r == Success(Outdated) <==> n.Success? && n.value != buildTagName)
            && (r.Failure? <==> n.Failure?)
            && (n.Failure? ==> r == Failure(Unparsable(n.error)))
  {
    JsArray.FilterFilterHead(builds, IsPassingBuild, (b: Build) => b.dockertagName == "latest", i);
  }

  /** A failed build never blocks (re)triggering: leaving it out of the history
      does not change the outcome of isThereLatestBuild. */
  lemma LatestIgnoresFailedBuilds(before: seq<Build>, failed: Build, after: seq<Build>, buildTagName: string)
    requires !IsPassingBuild(failed)
    ensures IsThereLatestBuild(before + [failed] + after, buildTagName) == IsThereLatestBuild(before + after, buildTagName)
  {
    var withFailed := before + [failed] + after;
    assert JsArray.Filter(withFailed, IsPassingBuild) == JsArray.Filter(before + after, IsPassingBuild) by {
      JsArray.FilterConcat(before + [failed], after, IsPassingBuild);
      JsArray.FilterConcat(before, [failed], IsPassingBuild);
      JsArray.FilterConcat(before, after, IsPassingBuild);
      assert JsArray.Filter([failed], IsPassingBuild) == [] by {
        assert [failed][1..] == [];
      }
    }
  }

  /** isThereTaggedBuild: OK when the image tag is published, otherwise OK_PENDING
      when a queued or building build is producing it, otherwise NOTFOUND. */
  function IsThereTaggedBuild(buildsSortedDesc: seq<Build>, tags: seq<PublishedTag>, buildTagName: string): (r: Check)
    ensures r != Outdated
    ensures r == Ok <==> exists t :: t in tags && t.name == buildTagName
    ensures r == OkPending <==>
      (forall t :: t in tags ==> t.name != buildTagName)
      && exists b :: b in buildsSortedDesc && IsPendingBuild(b) && b.dockertagName == buildTagName
    ensures r == NotFound <==>
      (forall t :: t in tags ==> t.name != buildTagName)
      && forall b :: b in buildsSortedDesc && IsPendingBuild(b) ==> b.dockertagName != buildTagName
  {
    var pendingBuildsSortedDesc := JsArray.Filter(buildsSortedDesc, IsPendingBuild);
    var taggedTags := FindTagsByName(tags, buildTagName);
    if taggedTags != [] then
      assert taggedTags[0] in taggedTags;
      Ok
    else
      var taggedPendingBuilds := FindBuildsByTagName(pendingBuildsSortedDesc, buildTagName);
      if taggedPendingBuilds != [] then
        assert taggedPendingBuilds[0] in taggedPendingBuilds;
        OkPending
      else
        NotFound
  }

  /** The answers after which checkLatestBuild and checkTaggedBuild do nothing:
      `result == CHECK_BUILD_OK || result == CHECK_BUILD_OK_PENDING`, on the codes. */
  predicate IsSettled(c: Check)
    ensures IsSettled(c) <==> c == Ok || c == OkPending
  {
    c.Code() == Ok.Code() || c.Code() == OkPending.Code()
  }

  /** checkLatestBuild triggers a "latest" build exactly when the newest passing
      "latest" build was made for another build tag name; an error triggers nothing. */
  predicate LatestTriggers(r: Result<Check, CheckError>)
  {
    r.Success? && !IsSettled(r.value)
  }

  /** Hence a "latest" build is triggered only when "latest" is OUTDATED, and a
      tagged build only when its tag is NOTFOUND. */
  lemma TriggersOnlyWhenMissingOrStale(builds: seq<Build>, tags: seq<PublishedTag>, buildTagName: string)
    ensures LatestTriggers(IsThereLatestBuild(builds, buildTagName))
            <==> IsThereLatestBuild(builds, buildTagName) == Success(Outdated)
    ensures !IsSettled(IsThereTaggedBuild(builds, tags, buildTagName))
            <==> IsThereTaggedBuild(builds, tags, buildTagName) == NotFound
  {
  }

  function CreatedDate(b: Build): int
  {
    b.createdDate
  }

  /** `builds.sort(byCreatedDateAsc).reverse()` in handleRepository: the history,
      newest first. Builds created at the same moment may come in either order. */
  method SortBuildsDesc(builds: array<Build>)
    modifies builds
    ensures forall i, j :: 0 <= i < j < builds.Length ==> builds[i].createdDate >= builds[j].createdDate
    ensures multiset(builds[..]) == old(multiset(builds[..]))
  {
    JsArray.SortDescBy(builds, CreatedDate);
  }
}

/** The build-tag descriptors of generate/docker-hub-builder.js (and, word for word,
    of generate/dockerhub.js): a build-tag setting of the image build service maps a
    source branch or tag to an image tag name and a Dockerfile location. The scripts
    fill in defaults (normalizeBuildDetails) and look for existing settings equal to
    a desired one (compareBuildTagDetails, findBuildTagsByDetails).

    A field the JavaScript object may lack is the empty string here: the source only
    reads these fields through `x || default`, which treats undefined and "" alike. */
module BuildTags {
  import JsArray

  /** BUILD_TAG_SOURCE_TYPE_BRANCH and BUILD_TAG_SOURCE_TYPE_TAG. */
  datatype SourceType = Branch | Tag

  /** A desired build-tag setting as the scripts write it (no id yet). */
  datatype Details = Details(name: string, sourceName: string, sourceType: SourceType, dockerfileLocation: string)

  /** A build-tag setting that exists at the build service. */
  datatype BuildTag = BuildTag(id: int, name: string, sourceName: string, sourceType: SourceType, dockerfileLocation: string)

  const SourceRefPlaceholder: string := "{sourceref}"
  const DefaultDockerfileLocation: string := "/"

  /** The setting the build service stores for the details it is sent. */
  function AsBuildTag(id: int, d: Details): BuildTag
  {
    BuildTag(id, d.name, d.sourceName, d.sourceType, d.dockerfileLocation)
  }

  /** Details with no missing field. */
  predicate IsComplete(d: Details)
  {
    d.name != "" && d.dockerfileLocation != ""
  }

  /** What normalizeBuildDetails leaves in the object it is given. */
  function Normalized(d: Details): (n: Details)
    ensures IsComplete(n)
    ensures n.sourceName == d.sourceName && n.sourceType == d.sourceType
    ensures d.sourceName == "master" && d.sourceType == Branch ==> n.name == "latest"
    ensures !(d.sourceName == "master" && d.sourceType == Branch) && d.name != "" ==> n.name == d.name
    ensures d.name == "" && !(d.sourceName == "master" && d.sourceType == Branch) ==> n.name == SourceRefPlaceholder
    ensures d.dockerfileLocation != "" ==> n.dockerfileLocation == d.dockerfileLocation
    ensures d.dockerfileLocation == "" ==> n.dockerfileLocation == DefaultDockerfileLocation
  {
    var name := if d.name == "" then SourceRefPlaceholder else d.name;
    Details(
      if d.sourceName == "master" && d.sourceType == Branch then "latest" else name,
      d.sourceName,
      d.sourceType,
      if d.dockerfileLocation == "" then DefaultDockerfileLocation else d.dockerfileLocation)
  }

  /** Normalizing twice is normalizing once. */
  lemma NormalizedIdempotent(d: Details)
    ensures Normalized(Normalized(d)) == Normalized(d)
  {
  }

  /** Complete details that are not the master branch are already normal. */
  lemma NormalizedFixesComplete(d: Details)
    requires IsComplete(d)
    requires d.sourceName == "master" && d.sourceType == Branch ==> d.name == "latest"
    ensures Normalized(d) == d
  {
  }

  /** compareBuildTagDetails once `details` has been normalized: all four fields equal.
      The existing setting `t` is compared as it is. */
  predicate Matches(t: BuildTag, d: Details)
    ensures Matches(t, d) <==> t == AsBuildTag(t.id, d)
  {
    t.name == d.name && t.dockerfileLocation == d.dockerfileLocation
    && t.sourceName == d.sourceName && t.sourceType == d.sourceType
  }

  /** Only the desired details are normalized: an existing setting with a missing
      name or Dockerfile location never matches anything. */
  lemma IncompleteTagNeverMatches(t: BuildTag, d: Details)
    requires t.name == "" || t.dockerfileLocation == ""
    ensures !Matches(t, Normalized(d))
  {
  }

  /** A stored setting made from d1 matches the details d2 exactly when both
      normalize to the same thing: matching is symmetric under normalization. */
  lemma MatchesSymmetricUnderNormalization(id: int, d1: Details, d2: Details)
    ensures Matches(AsBuildTag(id, Normalized(d1)), Normalized(d2)) <==> Normalized(d1) == Normalized(d2)
    ensures Matches(AsBuildTag(id, Normalized(d1)), Normalized(d2)) <==> Matches(AsBuildTag(id, Normalized(d2)), Normalized(d1))
  {
  }

  /** findBuildTagsByDetails with `d` normalized: the existing settings equal to `d`,
      in the service's order. */
  function MatchingTags(tags: seq<BuildTag>, d: Details): (r: seq<BuildTag>)
    ensures forall t :: t in r <==> t in tags && Matches(t, d)
  {
    JsArray.Filter(tags, (t: BuildTag) => Matches(t, d))
  }

  /** findBuildTagsByDetails keeps the service's order: it is a subsequence of the
      settings, splits over concatenation, and keeps every matching occurrence. */
  lemma MatchingTagsOrdered(tags: seq<BuildTag>, more: seq<BuildTag>, d: Details, t: BuildTag)
    ensures JsArray.IsSubsequence(MatchingTags(tags, d), tags)
    ensures MatchingTags(tags + more, d) == MatchingTags(tags, d) + MatchingTags(more, d)
    ensures multiset(MatchingTags(tags, d))[t] == if Matches(t, d) then multiset(tags)[t] else 0
  {
    JsArray.FilterIsSubsequence(tags, (t: BuildTag) => Matches(t, d));
    JsArray.FilterConcat(tags, more, (t: BuildTag) => Matches(t, d));
    JsArray.FilterCounts(tags, (t: BuildTag) => Matches(t, d), t);
  }

  /** A desired build-tag setting as a JavaScript object that the scripts update in place. */
  class BuildDetails {
    var name: string
    var sourceName: string
    var sourceType: SourceType
    var dockerfileLocation: string

    function Value(): Details
      reads this
    {
      Details(name, sourceName, sourceType, dockerfileLocation)
    }

    constructor (d: Details)
      ensures Value() == d
    {
      name, sourceName, sourceType, dockerfileLocation := d.name, d.sourceName, d.sourceType, d.dockerfileLocation;
    }

    /** normalizeBuildDetails: fills in the defaults in this very object and returns it. */
    method Normalize() returns (self: BuildDetails)
      modifies this
      ensures self == this
      ensures Value() == Normalized(old(Value()))
    {
      name := if name == "" then SourceRefPlaceholder else name;
      if sourceName == "master" && sourceType == Branch {
        name := "latest";
      }
      dockerfileLocation := if dockerfileLocation == "" then DefaultDockerfileLocation else dockerfileLocation;
      self := this;
    }
  }

  /** compareBuildTagDetails: normalizes `details` (in place) and compares. */
  method CompareBuildTagDetails(t: BuildTag, details: BuildDetails) returns (same: bool)
    modifies details
    ensures details.Value() == Normalized(old(details.Value()))
    ensures same <==> Matches(t, Normalized(old(details.Value())))
  {
    var n := details.Normalize();
    same := t.name == n.name && t.dockerfileLocation == n.dockerfileLocation
            && t.sourceName == n.sourceName && t.sourceType == n.sourceType;
  }

  /** findBuildTagsByDetails: `buildTags.filter(t => compareBuildTagDetails(t, details))`.
      Each comparison normalizes `details` again; with no settings at all the
      callback never runs and `details` is left as it was. */
  method FindBuildTagsByDetails(tags: seq<BuildTag>, details: BuildDetails) returns (found: seq<BuildTag>)
    modifies details
    ensures found == MatchingTags(tags, Normalized(old(details.Value())))
    ensures details.Value() == if tags == [] then old(details.Value()) else Normalized(old(details.Value()))
  {
    ghost var d := details.Value();
    found := [];
    var i := 0;
    while i < |tags|
      invariant 0 <= i <= |tags|
      invariant found == MatchingTags(tags[..i], Normalized(d))
      invariant details.Value() == if i == 0 then d else Normalized(d)
    {
      var same := CompareBuildTagDetails(tags[i], details);
      NormalizedIdempotent(d);
      assert tags[..i + 1] == tags[..i] + [tags[i]];
      MatchingTagsOrdered(tags[..i], [tags[i]], Normalized(d), tags[i]);
      assert MatchingTags([tags[i]], Normalized(d)) == if same then [tags[i]] else [] by {
        assert [tags[i]][1..] == [];
      }
      if same {
        found := found + [tags[i]];
      }
      i := i + 1;
    }
    assert tags[..i] == tags;
  }
}

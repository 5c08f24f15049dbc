/** reuseTagBuild and the trigger decisions of generate/docker-hub-builder.js (the
    same reuseTagBuild appears in generate/dockerhub.js). The build service is an
    object whose state is its list of build-tag settings; every call the scripts
    make to it is recorded, in order, in `trace`. The service's answers (whether a
    create, a trigger or a delete call succeeds, and the id a created setting gets)
    are inputs. */
module Reconcile {
  import opened Common
  import JsArray
  import opened BuildTags
  import opened Builds

  /** A call to the build service: createBuildTag, triggerBuild, deleteBuildTag. */
  datatype Action = Create(details: Details) | Trigger(details: Details) | Delete(id: int)

  /** The service's answers to the calls of one reuseTagBuild run; a deleteBuildTag
      call for an id in `rejectedDeletes` is rejected and deletes nothing. */
  datatype Replies = Replies(createOk: bool, createdId: int, triggerOk: bool, rejectedDeletes: set<int>)

  /** A rejected call rejects the promise of reuseTagBuild. A rejected delete does
      not stop the other deletes: `Promise.map` has issued them all already. */
  datatype ServiceError = CreateFailed | TriggerFailed | DeleteFailed

  function IdsOf(tags: seq<BuildTag>): set<int>
  {
    set t | t in tags :: t.id
  }

  /** The service keeps one setting per id. */
  ghost predicate DistinctIds(tags: seq<BuildTag>)
  {
    forall i, j :: 0 <= i < |tags| && 0 <= j < |tags| && i != j ==> tags[i].id != tags[j].id
  }

  /** The settings left after deleting those with the given ids. */
  function WithoutIds(tags: seq<BuildTag>, ids: set<int>): (r: seq<BuildTag>)
    ensures forall t :: t in r <==> t in tags && t.id !in ids
  {
    JsArray.Filter(tags, (t: BuildTag) => t.id !in ids)
  }

  /** The matches that `existingBuildTags.pop()` leaves behind: all but the last. */
  function Duplicates(m: seq<BuildTag>): seq<BuildTag>
  {
    if m == [] then [] else m[..|m| - 1]
  }

  function Deletes(tags: seq<BuildTag>): (r: seq<Action>)
    ensures |r| == |tags|
  {
    seq(|tags|, k requires 0 <= k < |tags| => Delete(tags[k].id))
  }

  /** The details object as createBuildTag and triggerBuild receive it: the search
      for matches normalizes it in place, unless there was no setting to compare. */
  function SentDetails(tags: seq<BuildTag>, d: Details): Details
  {
    if tags == [] then d else Normalized(d)
  }

  /** The calls reuseTagBuild makes once it has found the matching settings `m`,
      sending the details `sent`. */
  function PlanFor(m: seq<BuildTag>, sent: Details, replies: Replies): seq<Action>
  {
    if m == [] && !replies.createOk then [Create(sent)]
    else
      (if m == [] then [Create(sent)] else [])
      + [Trigger(sent)]
      + (if replies.triggerOk then Deletes(Duplicates(m)) else [])
  }

  /** The service's settings afterwards, starting from `tags`. */
  function SettingsAfter(tags: seq<BuildTag>, m: seq<BuildTag>, sent: Details, replies: Replies): seq<BuildTag>
  {
    if m == [] then
      if replies.createOk then tags + [AsBuildTag(replies.createdId, sent)] else tags
    else if replies.triggerOk then WithoutIds(tags, IdsOf(Duplicates(m)) - replies.rejectedDeletes)
    else tags
  }

  /** Whether reuseTagBuild's promise resolves or which call rejected it; on success
      the setting that was reused or created (the source computes it but does not
      return it). */
  function OutcomeFor(m: seq<BuildTag>, sent: Details, replies: Replies): Result<BuildTag, ServiceError>
  {
    if m == [] && !replies.createOk then Failure(CreateFailed)
    else if !replies.triggerOk then Failure(TriggerFailed)
    else if !(IdsOf(Duplicates(m)) !! replies.rejectedDeletes) then Failure(DeleteFailed)
    else if m == [] then Success(AsBuildTag(replies.createdId, sent))
    else Success(m[|m| - 1])
  }

  /** The calls reuseTagBuild makes, in order, for the settings `tags` and the
      desired details `d`; the first is a create exactly when nothing matches. */
  function ReusePlan(tags: seq<BuildTag>, d: Details, replies: Replies): (r: seq<Action>)
    ensures r != [] && (r[0].Create? <==> MatchingTags(tags, Normalized(d)) == [])
  {
    PlanFor(MatchingTags(tags, Normalized(d)), SentDetails(tags, d), replies)
  }

  /** The service's settings once reuseTagBuild is done: at most one setting more
      than before, and the only new one is the setting created. */
  function TagsAfterReuse(tags: seq<BuildTag>, d: Details, replies: Replies): (r: seq<BuildTag>)
    ensures |r| <= |tags| + 1
    ensures forall t :: t in r && t !in tags ==> t == AsBuildTag(replies.createdId, SentDetails(tags, d))
  {
    SettingsAfter(tags, MatchingTags(tags, Normalized(d)), SentDetails(tags, d), replies)
  }

  /** Whether reuseTagBuild's promise resolves, with the setting reused or created,
      or which call rejected it. */
  function ReuseOutcome(tags: seq<BuildTag>, d: Details, replies: Replies): Result<BuildTag, ServiceError>
  {
    OutcomeFor(MatchingTags(tags, Normalized(d)), SentDetails(tags, d), replies)
  }

  /** reuseTagBuild succeeds exactly when a setting was found or created, its
      build was triggered and no delete of a duplicate was rejected; the setting it
      resolves to is then among the settings afterwards and, unless the service had
      none to compare, matches the desired details. */
  lemma ReuseOutcomeSurvives(tags: seq<BuildTag>, d: Details, replies: Replies)
    requires DistinctIds(tags)
    ensures var r := ReuseOutcome(tags, d, replies);
            var m := MatchingTags(tags, Normalized(d));
            && (r.Success? <==> ((m != [] || replies.createOk) && replies.triggerOk
                                 && IdsOf(Duplicates(m)) !! replies.rejectedDeletes))
            && (r.Success? ==> r.value in TagsAfterReuse(tags, d, replies))
            && (r.Success? && tags != [] ==> Matches(r.value, Normalized(d)))
  {
    var r := ReuseOutcome(tags, d, replies);
    var m := MatchingTags(tags, Normalized(d));
    if r.Success? && m != [] {
      assert m[|m| - 1] in m;
      FilterKeepsDistinctIds(tags, (t: BuildTag) => Matches(t, Normalized(d)));
      PruneKeepsLast(m);
      ReuseKeepsEverythingElse(tags, d, replies, m[|m| - 1]);
      assert m[|m| - 1] !in Duplicates(m);
    }
  }

  /** A setting is created exactly when no existing setting matches. */
  lemma ReuseCreatesIffNoMatch(tags: seq<BuildTag>, d: Details, replies: Replies)
    ensures var plan := ReusePlan(tags, d, replies);
            (exists k :: 0 <= k < |plan| && plan[k].Create?) <==> MatchingTags(tags, Normalized(d)) == []
  {
    var plan := ReusePlan(tags, d, replies);
    var m := MatchingTags(tags, Normalized(d));
    if m == [] {
      assert plan[0].Create?;
    } else {
      forall k | 0 <= k < |plan| ensures !plan[k].Create? {
        if k > 0 && replies.triggerOk {
          assert plan[k] == Deletes(Duplicates(m))[k - 1];
        }
      }
    }
  }

  /** Exactly one build is triggered unless creating the setting failed, and every
      create and trigger call carries the same details. */
  lemma ReuseTriggersOnce(tags: seq<BuildTag>, d: Details, replies: Replies)
    ensures var plan := ReusePlan(tags, d, replies);
            var m := MatchingTags(tags, Normalized(d));
            && ((exists k :: 0 <= k < |plan| && plan[k].Trigger?) <==> m != [] || replies.createOk)
            && (forall j, k :: 0 <= j < |plan| && 0 <= k < |plan| && plan[j].Trigger? && plan[k].Trigger? ==> j == k)
            && (forall k :: 0 <= k < |plan| && !plan[k].Delete? ==> plan[k].details == SentDetails(tags, d))
  {
    var plan := ReusePlan(tags, d, replies);
    var m := MatchingTags(tags, Normalized(d));
    var t := if m == [] then 1 else 0;
    if m != [] || replies.createOk {
      assert plan[t].Trigger?;
      forall k | 0 <= k < |plan| && k != t ensures plan[k].Delete? || plan[k].Create? {
        if k > t {
          assert plan[k] == Deletes(Duplicates(m))[k - t - 1];
        }
      }
    }
  }

  /** No delete is issued before the trigger call, nor at all when it fails. */
  lemma ReuseDeletesOnlyAfterTrigger(tags: seq<BuildTag>, d: Details, replies: Replies)
    ensures var plan := ReusePlan(tags, d, replies);
            forall k :: 0 <= k < |plan| && plan[k].Delete? ==>
              replies.triggerOk && exists j :: 0 <= j < k && plan[j].Trigger?
  {
    var plan := ReusePlan(tags, d, replies);
    var m := MatchingTags(tags, Normalized(d));
    var t := if m == [] then 1 else 0;
    forall k | 0 <= k < |plan| && plan[k].Delete?
      ensures replies.triggerOk && exists j :: 0 <= j < k && plan[j].Trigger?
    {
      assert k > t && plan[t].Trigger?;
    }
  }

  /** The settings deleted are exactly the matches other than the last one, the one
      `pop()` picks for reuse (the source comment says the first; the code takes the
      last). */
  lemma ReuseDeletesExactlyDuplicates(tags: seq<BuildTag>, d: Details, replies: Replies, id: int)
    ensures var m := MatchingTags(tags, Normalized(d));
            Delete(id) in ReusePlan(tags, d, replies)
            <==> replies.triggerOk && exists k :: 0 <= k < |m| - 1 && m[k].id == id
  {
    var plan := ReusePlan(tags, d, replies);
    var m := MatchingTags(tags, Normalized(d));
    var t := if m == [] then 1 else 0;
    if Delete(id) in plan {
      var k :| 0 <= k < |plan| && plan[k] == Delete(id);
      assert plan[k] == Deletes(Duplicates(m))[k - t - 1];
    }
    if replies.triggerOk && exists k :: 0 <= k < |m| - 1 && m[k].id == id {
      var k :| 0 <= k < |m| - 1 && m[k].id == id;
      assert plan[t + 1 + k] == Delete(id);
    }
  }

  /** With zero or one matching setting nothing is deleted. */
  lemma ReuseDeletesNothingWithoutDuplicates(tags: seq<BuildTag>, d: Details, replies: Replies)
    requires |MatchingTags(tags, Normalized(d))| <= 1
    ensures forall a :: a in ReusePlan(tags, d, replies) ==> !a.Delete?
  {
    var m := MatchingTags(tags, Normalized(d));
    assert Duplicates(m) == [];
  }

  lemma {:induction false} FilterKeepsDistinctIds(tags: seq<BuildTag>, p: BuildTag -> bool)
    requires DistinctIds(tags)
    ensures DistinctIds(JsArray.Filter(tags, p))
  {
    if tags != [] {
      var rest := tags[1..];
      assert DistinctIds(rest) by {
        forall i, j | 0 <= i < |rest| && 0 <= j < |rest| && i != j ensures rest[i].id != rest[j].id {
          assert rest[i] == tags[i + 1] && rest[j] == tags[j + 1];
        }
      }
      FilterKeepsDistinctIds(rest, p);
      var f := JsArray.Filter(rest, p);
      if p(tags[0]) {
        forall x | x in f ensures x.id != tags[0].id {
          var k :| 0 <= k < |rest| && rest[k] == x;
          assert tags[k + 1] == x;
        }
        var r := [tags[0]] + f;
        forall i, j | 0 <= i < |r| && 0 <= j < |r| && i != j ensures r[i].id != r[j].id {
          if i > 0 && j > 0 {
            assert r[i] == f[i - 1] && r[j] == f[j - 1];
          } else if i == 0 {
            assert r[j] in f;
          } else {
            assert r[i] in f;
          }
        }
      }
    }
  }

  /** Only matching settings are ever deleted, and never the reused one. */
  lemma ReuseDeletesOnlyMatches(tags: seq<BuildTag>, d: Details, replies: Replies)
    requires DistinctIds(tags)
    ensures var m := MatchingTags(tags, Normalized(d));
            var plan := ReusePlan(tags, d, replies);
            && (forall id :: Delete(id) in plan ==> exists t :: t in tags && t.id == id && Matches(t, Normalized(d)))
            && (m != [] ==> Delete(m[|m| - 1].id) !in plan)
  {
    var m := MatchingTags(tags, Normalized(d));
    var plan := ReusePlan(tags, d, replies);
    FilterKeepsDistinctIds(tags, (t: BuildTag) => Matches(t, Normalized(d)));
    forall id | Delete(id) in plan
      ensures exists t :: t in tags && t.id == id && Matches(t, Normalized(d))
    {
      ReuseDeletesExactlyDuplicates(tags, d, replies, id);
      var k :| 0 <= k < |m| - 1 && m[k].id == id;
      assert m[k] in m;
    }
    if m != [] {
      ReuseDeletesExactlyDuplicates(tags, d, replies, m[|m| - 1].id);
    }
  }

  /** "Nothing else deleted": a setting survives unless it is one of the
      duplicates and its delete went through, and the only setting added is the one
      created. */
  lemma ReuseKeepsEverythingElse(tags: seq<BuildTag>, d: Details, replies: Replies, t: BuildTag)
    requires DistinctIds(tags)
    ensures var m := MatchingTags(tags, Normalized(d));
            var after := TagsAfterReuse(tags, d, replies);
            && (t in tags ==> (t in after <==> !(replies.triggerOk && t in Duplicates(m) && t.id !in replies.rejectedDeletes)))
            && (t in after && t !in tags ==> m == [] && replies.createOk && t == AsBuildTag(replies.createdId, SentDetails(tags, d)))
  {
    var m := MatchingTags(tags, Normalized(d));
    if t in tags && m != [] && replies.triggerOk {
      var dups := Duplicates(m);
      if t in dups {
        assert t.id in IdsOf(dups);
      }
      forall u | u in dups && u.id == t.id ensures u == t {
        var k :| 0 <= k < |m| - 1 && m[k] == u;
        assert u in m;
        SameIdSameTag(tags, u, t);
      }
    }
  }

  /** In settings with distinct ids, the id identifies the setting. */
  lemma SameIdSameTag(tags: seq<BuildTag>, u: BuildTag, t: BuildTag)
    requires DistinctIds(tags) && u in tags && t in tags && u.id == t.id
    ensures u == t
  {
    var a :| 0 <= a < |tags| && tags[a] == u;
    var b :| 0 <= b < |tags| && tags[b] == t;
  }

  /** Adding a setting with a fresh id keeps the ids distinct. */
  lemma AppendKeepsDistinctIds(tags: seq<BuildTag>, t: BuildTag)
    requires DistinctIds(tags) && t.id !in IdsOf(tags)
    ensures DistinctIds(tags + [t])
  {
    var r := tags + [t];
    forall i, j | 0 <= i < |r| && 0 <= j < |r| && i != j ensures r[i].id != r[j].id {
      if i < |tags| && j < |tags| {
        assert r[i] == tags[i] && r[j] == tags[j];
      } else if i < |tags| {
        assert r[i] in tags;
      } else {
        assert r[j] in tags;
      }
    }
  }

  lemma WithoutIdsKeepsDistinctIds(tags: seq<BuildTag>, ids: set<int>)
    requires DistinctIds(tags)
    ensures DistinctIds(WithoutIds(tags, ids))
  {
    FilterKeepsDistinctIds(tags, (t: BuildTag) => t.id !in ids);
  }

  /** Deleting by two sets of ids in turn is deleting by their union. */
  lemma {:induction false} WithoutIdsTwice(tags: seq<BuildTag>, a: set<int>, b: set<int>)
    ensures WithoutIds(WithoutIds(tags, a), b) == WithoutIds(tags, a + b)
  {
    if tags != [] {
      WithoutIdsTwice(tags[1..], a, b);
      var w := WithoutIds(tags, a);
      if tags[0].id !in a {
        assert w == [tags[0]] + WithoutIds(tags[1..], a);
        assert w[1..] == WithoutIds(tags[1..], a);
      }
    }
  }

  /** Deleting ids that no setting has changes nothing. */
  lemma {:induction false} WithoutAbsentIds(tags: seq<BuildTag>, ids: set<int>)
    requires forall t :: t in tags ==> t.id !in ids
    ensures WithoutIds(tags, ids) == tags
  {
    if tags != [] {
      WithoutAbsentIds(tags[1..], ids);
      assert tags[0] in tags;
      assert tags == [tags[0]] + tags[1..];
    }
  }

  /** `Promise.map` over no settings deletes nothing. */
  lemma NothingToDelete(settings: seq<BuildTag>, rejected: set<int>)
    ensures Deletes([]) == []
    ensures IdsOf([]) !! rejected
    ensures WithoutIds(settings, IdsOf([]) - rejected) == settings
  {
    assert IdsOf([]) - rejected == {};
    WithoutAbsentIds(settings, {});
  }

  /** `Promise.map` issues the delete of the first setting, then those of the rest. */
  lemma DeleteFirst(settings: seq<BuildTag>, doomed: seq<BuildTag>, rejected: set<int>)
    requires doomed != []
    ensures Deletes(doomed) == [Delete(doomed[0].id)] + Deletes(doomed[1..])
    ensures IdsOf(doomed) !! rejected <==> doomed[0].id !in rejected && IdsOf(doomed[1..]) !! rejected
    ensures WithoutIds(settings, IdsOf(doomed) - rejected)
            == WithoutIds(if doomed[0].id in rejected then settings else WithoutIds(settings, {doomed[0].id}),
                          IdsOf(doomed[1..]) - rejected)
  {
    var id := doomed[0].id;
    assert doomed == [doomed[0]] + doomed[1..];
    assert IdsOf(doomed) == {id} + IdsOf(doomed[1..]);
    if id in rejected {
      assert IdsOf(doomed) - rejected == IdsOf(doomed[1..]) - rejected;
    } else {
      WithoutIdsTwice(settings, {id}, IdsOf(doomed[1..]) - rejected);
      assert IdsOf(doomed) - rejected == {id} + (IdsOf(doomed[1..]) - rejected);
    }
  }

  /** Reconciliation converges: once the trigger and every delete went through,
      exactly one setting matches the desired details. (When the service had no
      settings at all, the created setting carries the details un-normalized and
      may not match them.) */
  lemma ReuseLeavesOneMatch(tags: seq<BuildTag>, d: Details, replies: Replies)
    requires DistinctIds(tags)
    requires tags != [] && replies.triggerOk
    requires MatchingTags(tags, Normalized(d)) != [] || replies.createOk
    requires IdsOf(Duplicates(MatchingTags(tags, Normalized(d)))) !! replies.rejectedDeletes
    ensures |MatchingTags(TagsAfterReuse(tags, d, replies), Normalized(d))| == 1
  {
    var n := Normalized(d);
    var m := MatchingTags(tags, n);
    if m == [] {
      var created := AsBuildTag(replies.createdId, n);
      MatchingTagsOrdered(tags, [created], n, created);
      assert MatchingTags([created], n) == [created] by {
        assert [created][1..] == [];
      }
    } else {
      var ids := IdsOf(Duplicates(m));
      assert ids - replies.rejectedDeletes == ids;
      PrunedMatches(tags, n, ids);
      FilterKeepsDistinctIds(tags, (t: BuildTag) => Matches(t, n));
      PruneKeepsLast(m);
    }
  }

  /** Deleting by ids and then looking for matches is looking for matches and then
      deleting by ids. */
  lemma PrunedMatches(tags: seq<BuildTag>, n: Details, ids: set<int>)
    ensures MatchingTags(WithoutIds(tags, ids), n) == WithoutIds(MatchingTags(tags, n), ids)
  {
    JsArray.FilterCommutes(tags, (t: BuildTag) => t.id !in ids, (t: BuildTag) => Matches(t, n));
  }

  /** When a delete is rejected, the duplicate stays: after a successful trigger the
      settings matching the desired details are the reused one and exactly the
      duplicates whose delete the service rejected. */
  lemma ReuseKeepsRejectedDuplicates(tags: seq<BuildTag>, d: Details, replies: Replies, t: BuildTag)
    requires DistinctIds(tags) && replies.triggerOk
    requires MatchingTags(tags, Normalized(d)) != []
    ensures var m := MatchingTags(tags, Normalized(d));
            t in MatchingTags(TagsAfterReuse(tags, d, replies), Normalized(d))
            <==> t == m[|m| - 1] || (t in Duplicates(m) && t.id in replies.rejectedDeletes)
  {
    var n := Normalized(d);
    var m := MatchingTags(tags, n);
    var dups := Duplicates(m);
    PrunedMatches(tags, n, IdsOf(dups) - replies.rejectedDeletes);
    FilterKeepsDistinctIds(tags, (t: BuildTag) => Matches(t, n));
    LastIsNoDuplicate(m);
    if t in dups {
      assert t.id in IdsOf(dups);
    }
  }

  /** In a list of settings with distinct ids, no duplicate shares the id of the last. */
  lemma LastIsNoDuplicate(m: seq<BuildTag>)
    requires DistinctIds(m) && m != []
    ensures m == Duplicates(m) + [m[|m| - 1]]
    ensures m[|m| - 1].id !in IdsOf(Duplicates(m))
  {
    var dups := Duplicates(m);
    assert m == dups + [m[|m| - 1]];
    forall u | u in dups ensures u.id != m[|m| - 1].id {
      var k :| 0 <= k < |dups| && dups[k] == u;
      assert m[k] == u;
    }
  }

  /** Deleting the duplicates of a list of settings with distinct ids leaves its
      last element alone. */
  lemma PruneKeepsLast(m: seq<BuildTag>)
    requires DistinctIds(m) && m != []
    ensures WithoutIds(m, IdsOf(Duplicates(m))) == [m[|m| - 1]]
  {
    var dups := Duplicates(m);
    var ids := IdsOf(dups);
    var keep := (t: BuildTag) => t.id !in ids;
    var last := m[|m| - 1];
    assert m == dups + [last];
    JsArray.FilterConcat(dups, [last], keep);
    forall k | 0 <= k < |dups| ensures !keep(dups[k]) {
      assert dups[k] in dups;
    }
    JsArray.FilterNone(dups, keep);
    forall u | u in dups ensures u.id != last.id {
      var k :| 0 <= k < |dups| && dups[k] == u;
      assert m[k] == u;
    }
    assert WithoutIds([last], ids) == [last] by {
      assert [last][1..] == [];
    }
  }

  /** handleRepository triggers the tagged build when its check ran and found the
      tag neither published nor pending. */
  predicate TaggedTriggers(tagged: Option<Check>)
  {
    tagged.Some? && !IsSettled(tagged.value)
  }

  /** The details the "latest" build is triggered with: the master branch. */
  const LatestDetails: Details := Details("latest", "master", Branch, "")

  /** The details a tagged build is triggered with: the git tag of that name. */
  function TaggedDetails(buildTagName: string): Details
  {
    Details("", buildTagName, Tag, "")
  }

  /** The image build service as the scripts see it. */
  class BuildService {
    var buildTags: seq<BuildTag>
    var trace: seq<Action>

    ghost predicate Valid()
      reads this
    {
      DistinctIds(buildTags)
    }

    constructor (tags: seq<BuildTag>)
      requires DistinctIds(tags)
      ensures Valid() && buildTags == tags && trace == []
    {
      buildTags, trace := tags, [];
    }

    /** dockerHubApi.createBuildTag. */
    method CreateBuildTag(details: Details, replies: Replies) returns (created: Option<BuildTag>)
      requires Valid() && replies.createdId !in IdsOf(buildTags)
      modifies this
      ensures Valid()
      ensures trace == old(trace) + [Create(details)]
      ensures created == if replies.createOk then Some(AsBuildTag(replies.createdId, details)) else None
      ensures buildTags == if replies.createOk then old(buildTags) + [created.value] else old(buildTags)
    {
      trace := trace + [Create(details)];
      if replies.createOk {
        var t := AsBuildTag(replies.createdId, details);
        AppendKeepsDistinctIds(buildTags, t);
        buildTags := buildTags + [t];
        created := Some(t);
      } else {
        created := None;
      }
    }

    /** dockerHubApi.triggerBuild: starts a build; the settings stay as they are. */
    method TriggerBuild(details: Details)
      modifies this
      ensures trace == old(trace) + [Trigger(details)]
      ensures buildTags == old(buildTags)
    {
      trace := trace + [Trigger(details)];
    }

    /** dockerHubApi.deleteBuildTag: the setting goes unless the service rejects
        the call. */
    method DeleteBuildTag(id: int, rejected: set<int>) returns (deleted: bool)
      requires Valid()
      modifies this
      ensures Valid()
      ensures deleted <==> id !in rejected
      ensures trace == old(trace) + [Delete(id)]
      ensures buildTags == if deleted then WithoutIds(old(buildTags), {id}) else old(buildTags)
    {
      trace := trace + [Delete(id)];
      deleted := id !in rejected;
      if deleted {
        WithoutIdsKeepsDistinctIds(buildTags, {id});
        buildTags := WithoutIds(buildTags, {id});
      }
    }

    /** `Promise.map(existingBuildTags, t => deleteBuildTag(t.id))`: every delete is
        issued, in order; the promise is rejected when any of them is. */
    method DeleteBuildTags(doomed: seq<BuildTag>, rejected: set<int>) returns (allDeleted: bool)
      requires Valid()
      modifies this
      ensures Valid()
      ensures allDeleted <==> IdsOf(doomed) !! rejected
      ensures trace == old(trace) + Deletes(doomed)
      ensures buildTags == WithoutIds(old(buildTags), IdsOf(doomed) - rejected)
      decreases |doomed|
    {
      if doomed == [] {
        NothingToDelete(buildTags, rejected);
        return true;
      }
      ghost var settings := buildTags;
      DeleteFirst(settings, doomed, rejected);
      var deleted := DeleteBuildTag(doomed[0].id, rejected);
      var restDeleted := DeleteBuildTags(doomed[1..], rejected);
      allDeleted := deleted && restDeleted;
    }

    /** The first step of reuseTagBuild: the last setting found is the one reused and
        the others remain to be deleted; with none found, one is created. */
    method PopOrCreate(existingBuildTags: seq<BuildTag>, details: Details, replies: Replies)
      returns (chosen: Option<BuildTag>, rest: seq<BuildTag>)
      requires Valid() && replies.createdId !in IdsOf(buildTags)
      modifies this
      ensures Valid()
      ensures existingBuildTags != [] ==>
        && chosen == Some(existingBuildTags[|existingBuildTags| - 1])
        && rest == existingBuildTags[..|existingBuildTags| - 1]
        && trace == old(trace) && buildTags == old(buildTags)
      ensures existingBuildTags == [] ==>
        && chosen == (if replies.createOk then Some(AsBuildTag(replies.createdId, details)) else None)
        && rest == []
        && trace == old(trace) + [Create(details)]
        && buildTags == if replies.createOk then old(buildTags) + [chosen.value] else old(buildTags)
    {
      if |existingBuildTags| > 0 {
        chosen := Some(existingBuildTags[|existingBuildTags| - 1]);
        rest := existingBuildTags[..|existingBuildTags| - 1];
      } else {
        chosen := CreateBuildTag(details, replies);
        rest := [];
      }
    }

    /** The last two steps of reuseTagBuild: trigger the build, and once that
        succeeded delete the settings left over. */
    method TriggerAndPrune(details: Details, doomed: seq<BuildTag>, replies: Replies)
      returns (triggered: bool, allDeleted: bool)
      requires Valid()
      modifies this
      ensures Valid()
      ensures triggered == replies.triggerOk
      ensures allDeleted <==> triggered && IdsOf(doomed) !! replies.rejectedDeletes
      ensures trace == old(trace) + [Trigger(details)] + (if triggered then Deletes(doomed) else [])
      ensures buildTags == if triggered then WithoutIds(old(buildTags), IdsOf(doomed) - replies.rejectedDeletes) else old(buildTags)
    {
      TriggerBuild(details);
      triggered := replies.triggerOk;
      allDeleted := false;
      if triggered {
        allDeleted := DeleteBuildTags(doomed, replies.rejectedDeletes);
      }
    }

    /** The steps of reuseTagBuild after the search: reuse the last setting found
        or create one, trigger its build, then delete the other settings found. */
    method ReuseOrCreate(existingBuildTags: seq<BuildTag>, details: Details, replies: Replies)
      returns (outcome: Result<BuildTag, ServiceError>)
      requires Valid() && replies.createdId !in IdsOf(buildTags)
      modifies this
      ensures Valid()
      ensures trace == old(trace) + PlanFor(existingBuildTags, details, replies)
      ensures buildTags == SettingsAfter(old(buildTags), existingBuildTags, details, replies)
      ensures outcome == OutcomeFor(existingBuildTags, details, replies)
    {
      var chosen, rest := PopOrCreate(existingBuildTags, details, replies);
      if chosen.None? {
        return Failure(CreateFailed);
      }
      if existingBuildTags == [] {
        WithoutAbsentIds(buildTags, {});
        assert IdsOf(rest) - replies.rejectedDeletes == {};
      }
      var triggered, allDeleted := TriggerAndPrune(details, rest, replies);
      if !triggered {
        return Failure(TriggerFailed);
      }
      if !allDeleted {
        return Failure(DeleteFailed);
      }
      return Success(chosen.value);
    }

    /** reuseTagBuild: look for settings equal to the desired details, then reuse
        or create one as ReuseOrCreate says. */
    method ReuseTagBuild(details: BuildDetails, replies: Replies) returns (outcome: Result<BuildTag, ServiceError>)
      requires Valid() && replies.createdId !in IdsOf(buildTags)
      modifies this, details
      ensures Valid()
      ensures trace == old(trace) + ReusePlan(old(buildTags), old(details.Value()), replies)
      ensures buildTags == TagsAfterReuse(old(buildTags), old(details.Value()), replies)
      ensures details.Value() == SentDetails(old(buildTags), old(details.Value()))
      ensures outcome == ReuseOutcome(old(buildTags), old(details.Value()), replies)
    {
      var existingBuildTags := FindBuildTagsByDetails(buildTags, details);
      outcome := ReuseOrCreate(existingBuildTags, details.Value(), replies);
    }

    /** triggerLatestBuild: reuseTagBuild for the master branch; a failure is logged
        and swallowed. */
    method TriggerLatestBuild(replies: Replies)
      requires Valid() && replies.createdId !in IdsOf(buildTags)
      modifies this
      ensures Valid()
      ensures trace == old(trace) + ReusePlan(old(buildTags), LatestDetails, replies)
      ensures buildTags == TagsAfterReuse(old(buildTags), LatestDetails, replies)
    {
      var details := new BuildDetails(LatestDetails);
      var _ := ReuseTagBuild(details, replies);
    }

    /** triggerTaggedBuild: reuseTagBuild for the git tag; a failure is logged and
        swallowed. */
    method TriggerTaggedBuild(buildTagName: string, replies: Replies)
      requires Valid() && replies.createdId !in IdsOf(buildTags)
      modifies this
      ensures Valid()
      ensures trace == old(trace) + ReusePlan(old(buildTags), TaggedDetails(buildTagName), replies)
      ensures buildTags == TagsAfterReuse(old(buildTags), TaggedDetails(buildTagName), replies)
    {
      var details := new BuildDetails(TaggedDetails(buildTagName));
      var _ := ReuseTagBuild(details, replies);
    }

    /** checkLatestBuild: nothing to do when "latest" is OK or OK_PENDING, nothing
        possible when the classification failed; otherwise trigger "latest". */
    method CheckLatestBuild(buildsSortedDesc: seq<Build>, buildTagName: string, replies: Replies)
      returns (result: Result<Check, CheckError>)
      requires Valid() && replies.createdId !in IdsOf(buildTags)
      modifies this
      ensures Valid()
      ensures result == IsThereLatestBuild(buildsSortedDesc, buildTagName)
      ensures trace == old(trace) + (if LatestTriggers(result) then ReusePlan(old(buildTags), LatestDetails, replies) else [])
      ensures buildTags == if LatestTriggers(result) then TagsAfterReuse(old(buildTags), LatestDetails, replies) else old(buildTags)
    {
      result := IsThereLatestBuild(buildsSortedDesc, buildTagName);
      if result.Success? && !(result.value == Ok || result.value == OkPending) {
        TriggerLatestBuild(replies);
      }
    }

    /** checkTaggedBuild: nothing to do when the tag is OK or OK_PENDING; otherwise
        trigger the tagged build. */
    method CheckTaggedBuild(buildsSortedDesc: seq<Build>, tags: seq<PublishedTag>, buildTagName: string, replies: Replies)
      returns (result: Check)
      requires Valid() && replies.createdId !in IdsOf(buildTags)
      modifies this
      ensures Valid()
      ensures result == IsThereTaggedBuild(buildsSortedDesc, tags, buildTagName)
      ensures trace == old(trace) + (if IsSettled(result) then [] else ReusePlan(old(buildTags), TaggedDetails(buildTagName), replies))
      ensures buildTags == if IsSettled(result) then old(buildTags) else TagsAfterReuse(old(buildTags), TaggedDetails(buildTagName), replies)
    {
      result := IsThereTaggedBuild(buildsSortedDesc, tags, buildTagName);
      if !(result == Ok || result == OkPending) {
        TriggerTaggedBuild(buildTagName, replies);
      }
    }

    /** handleRepository once logged in: order the build history newest first, then
        check the "latest" image and the tagged image (run one after the other here).
        Without a passing "latest" build, isThereLatestBuild throws while the array
        of the two checks is still being built, so the tagged check never starts
        (`tagged` is None). */
    method HandleRepository(
      builds: array<Build>, tags: seq<PublishedTag>, buildTagName: string,
      latestReplies: Replies, taggedReplies: Replies)
      returns (latest: Result<Check, CheckError>, tagged: Option<Check>)
      requires Valid()
      requires latestReplies.createdId !in IdsOf(buildTags)
      requires taggedReplies.createdId !in IdsOf(buildTags) && taggedReplies.createdId != latestReplies.createdId
      modifies this, builds
      ensures Valid()
      ensures forall i, j :: 0 <= i < j < builds.Length ==> builds[i].createdDate >= builds[j].createdDate
      ensures multiset(builds[..]) == old(multiset(builds[..]))
      ensures latest == IsThereLatestBuild(builds[..], buildTagName)
      ensures tagged.None? <==> latest == Failure(NoPassingLatestBuild)
      ensures tagged.Some? ==> tagged.value == IsThereTaggedBuild(builds[..], tags, buildTagName)
      ensures var afterLatest := if LatestTriggers(latest) then TagsAfterReuse(old(buildTags), LatestDetails, latestReplies) else old(buildTags);
              && trace == old(trace)
                 + (if LatestTriggers(latest) then ReusePlan(old(buildTags), LatestDetails, latestReplies) else [])
                 + (if TaggedTriggers(tagged) then ReusePlan(afterLatest, TaggedDetails(buildTagName), taggedReplies) else [])
              && buildTags == if TaggedTriggers(tagged) then TagsAfterReuse(afterLatest, TaggedDetails(buildTagName), taggedReplies) else afterLatest
    {
      SortBuildsDesc(builds);
      var buildsSortedDesc := builds[..];
      latest := CheckLatestBuild(buildsSortedDesc, buildTagName, latestReplies);
      if latest == Failure(NoPassingLatestBuild) {
        return latest, None;
      }
      assert taggedReplies.createdId !in IdsOf(buildTags) by {
        if LatestTriggers(latest) {
          forall t | t in buildTags ensures t.id != taggedReplies.createdId {
            ReuseKeepsEverythingElse(old(buildTags), LatestDetails, latestReplies, t);
          }
        }
      }
      var result := CheckTaggedBuild(buildsSortedDesc, tags, buildTagName, taggedReplies);
      tagged := Some(result);
    }
  }
}

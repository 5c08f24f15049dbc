# Nightly Go image builder: the decision core in Dafny

The repository builds nightly Docker images of the Go toolchain. A cron job
(generate/task.js) takes the newest upstream commit and release, names the nightly
build `build-<version>-nightly-<sha>` (generate/helper.js), commits a rendered
Dockerfile under that git tag when the tag is new, pushes, and then asks the image
build service (Docker Hub) to make sure two images exist: the tagged image and
"latest". generate/docker-hub-builder.js does that by classifying the build
history, reusing or creating a build-tag setting, triggering it and deleting
duplicate settings; generate/dockerhub.js is an earlier stand-alone version of the
same script.

This project models that decision core and proves what it promises:

- `Helper`: the nightly version string and the build tag name, their lengths,
  prefixes and inverses.
- `JsArray`: `Array.prototype.filter` as a function, and the in-place `sort` with a
  numeric comparator and `reverse` as array methods.
- `BuildTags`: build-tag descriptors; `normalizeBuildDetails` as a class method that
  updates the details object in place, proved against the function `Normalized`;
  `compareBuildTagDetails` and `findBuildTagsByDetails`.
- `Dockerfile`: the `ENV KEY value` extraction written as a string search, and the
  recovery of a build's tag name from its Dockerfile.
- `Builds`: status predicates, the finders, `isThereLatestBuild`,
  `isThereTaggedBuild`, and the newest-first ordering of the build history. The
  answers are the datatype `Check`, whose `Code` gives the source's numeric
  constants; `IsSettled` is the "OK or OK_PENDING" test of checkLatestBuild and
  checkTaggedBuild, and `LatestTriggers` says the "latest" check triggers only on
  a successful, unsettled answer.
- `Reconcile`: the build service as a class. Its state is the list of build-tag
  settings plus the trace of create, trigger and delete calls made to it.
  `reuseTagBuild`, `checkLatestBuild`, `checkTaggedBuild` and `handleRepository`
  are methods whose new state is tied to the specification functions `ReusePlan`
  and `TagsAfterReuse`; the lemmas about those functions are the ordering,
  "only duplicates deleted" and convergence guarantees.
- `DockerHub`: the parts of generate/dockerhub.js that differ: its own copies of
  the naming helpers, `bySuccessfulBuild`, `byUsingTag`, the "latest" selection
  (successful builds only, last of the history sorted oldest first), and the skip
  rules of its two checks. Its `normalizeBuildDetails`, `compareBuildTagDetails`,
  `findBuildTagsByDetails`, `reuseTagBuild` and Dockerfile parsers
  (generate/dockerhub.js:45-137) have the same bodies as in
  generate/docker-hub-builder.js and are modelled once, by `BuildTags`,
  `Dockerfile` and `Reconcile`. The script's `reuseTagBuild` takes the API object
  as an extra leading parameter, which its calls (generate/dockerhub.js:176, 200)
  supply, so the modelled behaviour is the same. The script's copies of the naming
  helpers are `DockerHub.NightlyVersionStr` and `DockerHub.GetBuildTagName`. The
  skip rules are the predicates `LatestBranchTriggers` (a name was fetched and
  differs from the target), `TaggedBranchTriggersAsWritten` (the truthiness test
  of generate/dockerhub.js:194 as written) and `TaggedBranchTriggers` (the intended
  emptiness test).
- `Task`: `cleanReleaseName`, `onlyBuildTag`, the refspecs of `gitPushAll`,
  `tagsToRefSpecs` (a loop), `getLastTagVersion` (an in-place sort) and the
  skip-if-tag-exists decision, with the job's requests to the outside world
  recorded as a sequence of steps.

Conventions: a JavaScript field that may be missing is the empty string, because
the source reads these fields only through `x || default`, which treats
`undefined` and `""` alike. Dates are integers. What the build service, GitHub and
git answer is an input (`Replies`, a build history, a list of published tags, a
list of local tags). `Replies` says whether the create and the trigger call succeed,
the id a created setting gets, and which delete calls the service rejects.

handleRepository stops early when the history holds no passing "latest" build: the
TypeError at generate/docker-hub-builder.js:245-247 is thrown while the two checks
are being started, so the tagged check is never run and no call reaches the
service. On an empty history, as on a first run, nothing is triggered.

Where the source comment and the code disagree, the model follows the code:
reuseTagBuild's `existingBuildTags.pop()` reuses the LAST matching setting, although
the comment beside it (generate/docker-hub-builder.js:132) speaks of the first.

## Model

| member | source | states |
|---|---|---|
| Helper.NightlyVersionStr | generate/helper.js:2-4 | the nightly version string is `version`, then `-nightly-`, then `sha`: `version` is a prefix, `sha` the suffix, and its length is `|version| + 9 + |sha|` |
| Helper.GetBuildTagName | generate/helper.js:6-9 | a build tag name starts with `build-` and is six characters longer than the version |
| Helper.VersionOfBuildTag | generate/helper.js:6-9 | not a source function: the inverse of getBuildTagName, written for the proofs; a name has a version exactly when it starts with `build-` |
| Helper.BuildTagNameRoundTrip | generate/helper.js:6-9 | dropping the six characters of `build-` gives the version back, and a prefixed name is the build tag name of its remainder |
| Helper.GetBuildTagNameInjective | generate/helper.js:6-9 | different versions have different build tag names |
| Helper.SplitNightlyVersion | generate/helper.js:2-4 | not a source function: the inverse of nightlyVersionStr, written for the proofs; splitting at the last dash after `-nightly-` gives a version and a dash-free hash that join back to the input |
| Helper.NightlyVersionRoundTrip | generate/helper.js:2-4 | for a hash without a dash, the nightly version string determines the version and the hash |
| Helper.BuildTagNameDeterminesVersionAndSha | generate/helper.js:2-9 | two runs with the same build tag name and dash-free hashes had the same version and hash: the tag is an idempotency key |
| Helper.NightlyVersionStrCollides | generate/helper.js:2-4 | without that restriction the key is ambiguous: version `1.6-nightly-a` with hash `b` names the same as version `1.6` with hash `a-nightly-b` |
| JsArray.Filter | generate/docker-hub-builder.js:39-43 | `filter` keeps exactly the elements passing the predicate and is never longer than its input |
| JsArray.SortBy | generate/docker-hub-builder.js:307 | `sort` with an ascending comparator leaves the array ordered by the key and a permutation of what it held |
| JsArray.Reverse | generate/docker-hub-builder.js:307 | `reverse` leaves element `k` where element `n - 1 - k` was |
| JsArray.ReversedIsPermutation | generate/docker-hub-builder.js:307 | reversing loses and adds nothing |
| JsArray.SortDescBy | generate/task.js:82 | sorting ascending and then reversing orders the array by descending key and keeps its elements |
| BuildTags.Normalized | generate/docker-hub-builder.js:44-55 | normalized details are complete; a missing name becomes `{sourceref}`, a non-empty name stays, the master branch is always named `latest`, a missing Dockerfile location becomes `/`, source name and type are untouched |
| BuildTags.NormalizedIdempotent | generate/docker-hub-builder.js:44-55 | normalizing twice is normalizing once |
| BuildTags.NormalizedFixesComplete | generate/docker-hub-builder.js:44-55 | complete details that are not a misnamed master branch are left unchanged |
| BuildTags.BuildDetails.Normalize | generate/docker-hub-builder.js:44-55 | the method changes the details object in place to its normalized value and returns that same object |
| BuildTags.CompareBuildTagDetails | generate/docker-hub-builder.js:56-64 | the comparison is true exactly when the setting's four fields equal those of the normalized details; only the details are normalized, and they stay normalized afterwards |
| BuildTags.IncompleteTagNeverMatches | generate/docker-hub-builder.js:56-64 | an existing setting without a name or a Dockerfile location never matches, because it is not normalized |
| BuildTags.Matches | generate/docker-hub-builder.js:56-64 | a setting matches normalized details exactly when it is the setting the service stores for those details under its id |
| BuildTags.MatchesSymmetricUnderNormalization | generate/docker-hub-builder.js:56-64 | a setting stored from normalized details matches other details exactly when both normalize to the same thing |
| BuildTags.MatchingTags | generate/docker-hub-builder.js:39-43 | the settings found are exactly those matching the normalized details |
| BuildTags.MatchingTagsOrdered | generate/docker-hub-builder.js:39-43 | the settings found are an order-preserving subsequence, split over concatenation, and keep every matching occurrence |
| BuildTags.FindBuildTagsByDetails | generate/docker-hub-builder.js:39-43 | the loop over the settings returns the matching settings in order; the details end up normalized unless there was no setting to compare |
| Dockerfile.Field | generate/docker-hub-builder.js:67-73 | the extractor fails exactly when `KEY ` occurs nowhere; otherwise its value is what `/KEY[ ]+(.*)/` captures: the text after the first `KEY ` and its whole run of spaces, up to the end of that line |
| Dockerfile.FieldAtUnique | generate/docker-hub-builder.js:67-73 | the capture is unique: the first occurrence, the run of spaces and the text to the line end are determined by the Dockerfile and the key |
| Dockerfile.FieldIsTheMatch | generate/docker-hub-builder.js:67-73 | the extractor yields a value exactly when that value is the capture of the regular expression |
| Dockerfile.FieldOfLine | generate/docker-hub-builder.js:67-73 | `KEY`, one or more spaces and a value that ends its line (or the text), with no earlier `KEY `, is read back as exactly that value |
| Dockerfile.TagNameFromDockerfile | generate/docker-hub-builder.js:99-109 | the tag name fails with a missing version exactly when the version line is absent, with a missing hash exactly when only the hash line is absent, and otherwise is `build-<version>-nightly-<sha>` of the two extracted values |
| Dockerfile.TagNameFromBuildDetails | generate/docker-hub-builder.js:99-109 | a build without Dockerfile contents (a queued build) has no tag name; otherwise the name is the one read from its Dockerfile |
| Dockerfile.RenderedTagNameRoundTrip | generate/docker-hub-builder.js:99-109 | the Dockerfile lines rendered for a version and a hash without blanks parse back to `build-<version>-nightly-<sha>` |
| Builds.StatusPredicates | generate/docker-hub-builder.js:20-36 | pending holds exactly for 0 and 3, passing exactly for 0, 3 and 10; a failed build and any other code satisfy neither |
| Builds.IsPendingBuild | generate/docker-hub-builder.js:29-31 | a pending build is neither succeeded nor failed |
| Builds.IsPassingBuild | generate/docker-hub-builder.js:33-36 | a passing build is not failed, and every succeeded build passes |
| Builds.FindTagsByName | generate/docker-hub-builder.js:86-90 | the published tags found are exactly those with the name |
| Builds.FindBuildsByTagName | generate/docker-hub-builder.js:91-95 | the builds found are exactly those of the image tag |
| Builds.FindersAreOrderedFilters | generate/docker-hub-builder.js:86-95 | both finders return the order-preserving subsequence of exactly the matching elements |
| Builds.IsThereLatestBuild | generate/docker-hub-builder.js:238-261 | the latest check never answers NOTFOUND, and fails for lack of a build exactly when no passing "latest" build exists |
| Builds.LatestDecidedByNewestPassingLatest | generate/docker-hub-builder.js:238-261 | the answer depends on the first passing "latest" build only: OK_PENDING when its tag name is the target and it is pending, OK when the name matches and it is not pending, OUTDATED when it differs, and when the name cannot be read, an error carrying the parse failure unchanged |
| Builds.LatestIgnoresFailedBuilds | generate/docker-hub-builder.js:240 | a failed build anywhere in the history does not change the latest check |
| Builds.IsThereTaggedBuild | generate/docker-hub-builder.js:263-288 | the tagged check answers OK exactly when a published tag has the name; OK_PENDING exactly when none does but a pending build makes it; NOTFOUND otherwise; never OUTDATED |
| Builds.IsSettled | generate/docker-hub-builder.js:171-181 | the test on the numeric answer codes holds exactly for OK and OK_PENDING, since the four codes are distinct |
| Builds.TriggersOnlyWhenMissingOrStale | generate/docker-hub-builder.js:177-223 | a check triggers only when its answer is neither OK nor OK_PENDING, which for "latest" means OUTDATED and for the tag means NOTFOUND |
| Builds.SortBuildsDesc | generate/docker-hub-builder.js:307 | the history ends up newest first and is a permutation of what it was |
| Reconcile.ReuseCreatesIffNoMatch | generate/docker-hub-builder.js:115-127 | a setting is created exactly when no existing setting matches |
| Reconcile.ReusePlan | generate/docker-hub-builder.js:112-155 | the calls reuseTagBuild makes, in order; the first is a create exactly when no setting matches (the Reuse lemmas give the rest) |
| Reconcile.TagsAfterReuse | generate/docker-hub-builder.js:112-155 | the settings after reuseTagBuild: at most one more than before, and the only new one is the setting created |
| Reconcile.ReuseTriggersOnce | generate/docker-hub-builder.js:128-145 | exactly one trigger call is made unless creating the setting failed, and all create and trigger calls carry the same details |
| Reconcile.ReuseDeletesOnlyAfterTrigger | generate/docker-hub-builder.js:146-154 | no delete call comes before the trigger call, and none happens when the trigger fails |
| Reconcile.ReuseDeletesExactlyDuplicates | generate/docker-hub-builder.js:131-153 | the ids deleted are exactly those of the matches other than the last, and only once the trigger succeeded |
| Reconcile.ReuseDeletesNothingWithoutDuplicates | generate/docker-hub-builder.js:149-153 | with zero or one match nothing is deleted |
| Reconcile.ReuseDeletesOnlyMatches | generate/docker-hub-builder.js:131-153 | every setting deleted matched the details, and the reused setting is never deleted |
| Reconcile.ReuseKeepsEverythingElse | generate/docker-hub-builder.js:112-155 | a setting survives unless it is one of the duplicates and the service accepted its delete, and the only setting added is the one created |
| Reconcile.ReuseLeavesOneMatch | generate/docker-hub-builder.js:112-155 | once the trigger and every delete succeeded, exactly one setting matches the details, as long as the service had any settings to compare |
| Reconcile.ReuseKeepsRejectedDuplicates | generate/docker-hub-builder.js:146-154 | after a successful trigger the matching settings are the reused one and exactly the duplicates whose delete the service rejected |
| Reconcile.ReuseOutcomeSurvives | generate/docker-hub-builder.js:128-154 | reuseTagBuild resolves exactly when a setting was found or created, triggered, and no delete of a duplicate was rejected; that setting remains afterwards and matches the details |
| Reconcile.BuildService.CreateBuildTag | generate/docker-hub-builder.js:126 | a create call is recorded; when it succeeds the new setting carries the details as sent and a fresh id |
| Reconcile.BuildService.TriggerBuild | generate/docker-hub-builder.js:144 | a trigger call is recorded and leaves the settings unchanged |
| Reconcile.BuildService.DeleteBuildTag | generate/docker-hub-builder.js:151 | a delete call is recorded; it removes the setting with that id exactly when the service does not reject it |
| Reconcile.BuildService.DeleteBuildTags | generate/docker-hub-builder.js:149-153 | one delete call per leftover setting, in order, all issued; exactly the ids not rejected are removed, and the result is a rejection when any id was rejected |
| Reconcile.BuildService.PopOrCreate | generate/docker-hub-builder.js:128-135 | with matches, the last is reused and the others remain to be deleted; without, one setting is created |
| Reconcile.BuildService.TriggerAndPrune | generate/docker-hub-builder.js:142-153 | the trigger call comes first; the leftover settings are deleted only when it succeeded, and only those whose delete is not rejected go |
| Reconcile.BuildService.ReuseOrCreate | generate/docker-hub-builder.js:116-154 | the calls and the new settings after the search are those of `PlanFor` and `SettingsAfter`, and the outcome is that of `OutcomeFor`: a failed create, a failed trigger or a rejected delete rejects it |
| Reconcile.BuildService.ReuseTagBuild | generate/docker-hub-builder.js:112-155 | the calls made are `ReusePlan`, the new settings `TagsAfterReuse`, the details are left normalized unless there were no settings, and ids stay distinct |
| Reconcile.BuildService.TriggerLatestBuild | generate/docker-hub-builder.js:194-206 | the "latest" build is reused or created for the master branch; a failure is swallowed |
| Reconcile.BuildService.TriggerTaggedBuild | generate/docker-hub-builder.js:225-236 | the tagged build is reused or created for the git tag; a failure is swallowed |
| Reconcile.BuildService.CheckLatestBuild | generate/docker-hub-builder.js:177-192 | the service is touched exactly when the latest check answers neither OK nor OK_PENDING, and then as reuseTagBuild for master |
| Reconcile.BuildService.CheckTaggedBuild | generate/docker-hub-builder.js:208-223 | the service is touched exactly when the tagged check answers neither OK nor OK_PENDING, and then as reuseTagBuild for the tag |
| Reconcile.BuildService.HandleRepository | generate/docker-hub-builder.js:291-315 | the history is sorted newest first; the latest check runs on it; the tagged check runs too unless there is no passing "latest" build, whose TypeError stops handleRepository before `checkTaggedBuild` is called; the calls made are those of the latest check followed by those of the tagged check |
| DockerHub.CopiesAgreeWithHelper | generate/dockerhub.js:15-25 | the script's own nightlyVersionStr and getBuildTagName equal those of generate/helper.js, and its fixed name is the build tag name of 1.6 at that commit |
| DockerHub.BySuccessfulBuild | generate/dockerhub.js:34-36 | a successful build passes and is not pending |
| DockerHub.ByUsingTag | generate/dockerhub.js:42-44 | a setting accepted is tag-sourced and its source name is long enough to hold `build` |
| DockerHub.ByUsingTagAcceptsBuildAnywhere | generate/dockerhub.js:42-44 | byUsingTag holds exactly for tag-sourced settings with `build` in the source name, so every build tag name but also `rebuild` |
| DockerHub.LastLatestTagName | generate/dockerhub.js:221-248 | the latest name is missing exactly when no successful "latest" build exists, and otherwise starts with `build-` |
| DockerHub.LastLatestUsesLastSucceeded | generate/dockerhub.js:226-245 | the name comes from the last successful "latest" build alone; queued and building builds are ignored |
| DockerHub.LastLatestIsNewest | generate/dockerhub.js:226-235 | on the history sorted oldest first, that build was created no earlier than any other successful "latest" build |
| DockerHub.LastLatestIgnoresUnsucceeded | generate/dockerhub.js:227 | a build that did not succeed anywhere in the history does not change the name |
| DockerHub.FetchLastLatestBuildTagname | generate/dockerhub.js:221-248 | the history is sorted oldest first in place and the name is read off it as `LastLatestTagName` says |
| DockerHub.CheckLatest | generate/dockerhub.js:163-189 | the "latest" side calls reuseTagBuild for master exactly when a name was fetched and it differs from the one checked |
| DockerHub.TaggedBranchAsWrittenMissesUnbuiltTag | generate/dockerhub.js:192-197 | with no published tags the script as written still skips the tagged build, where the intended test triggers it |
| DockerHub.TaggedBranchTriggersIffUnpublished | generate/dockerhub.js:251-258 | the intended tagged test triggers exactly when no published tag has the name, as isThereTaggedBuild does when no build is pending |
| DockerHub.CheckTagged | generate/dockerhub.js:191-210 | the tagged side calls reuseTagBuild for the git tag exactly when no published tag has the name (the intended test, see Findings) |
| DockerHub.RunChecks | generate/dockerhub.js:151-218 | after login the calls made are those of the "latest" side followed by those of the tagged side |
| Task.CleanReleaseName | generate/task.js:101-104 | a release name loses a leading repository name and is otherwise unchanged |
| Task.CleanReleaseNameRoundTrip | generate/task.js:101-104 | a name made of the repository name and a version gives that version, so `go1.6` of `go` is `1.6` |
| Task.OnlyBuildTagIffBuildTagName | generate/task.js:178-181 | onlyBuildTag accepts exactly the build tag names, every `getBuildTagName` result among them |
| Task.OnlyBuildTag | generate/task.js:178-181 | a tag is kept exactly when it is the build tag name of what follows its first six characters |
| Task.RefSpec | generate/task.js:256 | a tag refspec is `2 * |tag| + 21` characters long |
| Task.TagOfRefSpec | generate/task.js:256 | not a source function: the inverse of the refspec concatenation, written for the proofs; a string that yields a tag is the refspec of that tag |
| Task.RefSpecRoundTrip | generate/task.js:256 | a tag refspec names its tag, so different tags give different refspecs |
| Task.RefSpecsOf | generate/task.js:252-260 | one refspec per tag, same length and order |
| Task.TagsToRefSpecs | generate/task.js:252-260 | the loop builds `RefSpecsOf(tags)`, and each refspec reads back as its tag |
| Task.PushRefSpecs | generate/task.js:184-197 | one refspec per build tag of the repository, then master, last |
| Task.PushRefSpecsPushBuildTags | generate/task.js:183-194 | gitPushAll pushes master last, master is no tag refspec, and a tag is pushed exactly when the repository has it and it is a build tag |
| Task.NightlyRun | generate/task.js:132-169 | the job takes two steps when the build tag exists locally and five otherwise, and its last step always ensures the builds of that tag |
| Task.NightlyRunCommitsOnlyNewTags | generate/task.js:142-153 | the Dockerfile is rendered and committed exactly when the local repository lacks the build tag, and the commit gets that tag |
| Task.NightlyRunPushesThenEnsures | generate/task.js:142-169 | every run pushes once, with the build tag among the refspecs, and then ensures the builds for that tag as its last step |
| Task.NightlyRunAgreesWithDockerfile | generate/task.js:137-146 | the build tag handed to the builder is the one recovered from the Dockerfile the job renders |
| Task.GetLastTagVersion | generate/task.js:64-89 | the tags end up newest first and the version is the cleaned name of a tag with the greatest author date; no tags is an error |
| Task.LastCommitSha | generate/task.js:51-62 | the commit hash is that of the first commit listed; none listed is an error |
| Task.RunNightly | generate/task.js:127-170 | the job fails exactly when there is no commit or no release tag, with `NoReleaseTag` when only the tags are missing, and otherwise takes the steps of `NightlyRun` for the newest release and the newest commit; the release tags end up newest first, a permutation of what they were |

## Left out

- The docker-hub-api calls (`login`, `buildHistory`, `buildDetails`, `tags`, `buildSettings`, `createBuildTag`, `triggerBuild`, `deleteBuildTag`): their answers are inputs; their effect on the settings is the `BuildService` class. `login`, `buildHistory`, `buildDetails`, `tags` and `buildSettings` are assumed to answer; when one of them rejects, the source makes no create, trigger or delete call at all, which the model does not cover (so `ReusePlan` being non-empty presumes `buildSettings` answered).
- The service is assumed to store a created setting exactly as it is sent; how the real service fills missing fields is not modelled.
- Concurrency: `Promise.all`, `Promise.join` and `Promise.map` are sequenced, the "latest" side first, then the tagged side, and deletes in array order.
- GitHub, git, the file system and the template engine (`github`, `github-api-tags-full`, the progress bar, nodegit, `fs`, `ejs`, `Dockerfile.ejs`): what they return is an input, what the job asks of them is a `Task.Step`. The template itself is not part of this model; `Dockerfile.RenderedFields` stands for its two `ENV` lines. These collaborators are assumed to succeed; a failing git, `fs` or `ejs` call rejects the job part-way through, which `Task.NightlyRun`'s step list does not cover.
- generate/config.example/github-repo-auth.js is a credential callback and is not part of this model.
- Dates: moment parsing and `diff` are replaced by integer timestamps. The order of builds or tags with equal dates after sort and reverse is not promised.
- JavaScript value semantics: loose `==` is plain equality; `x || default` is modelled by the empty string standing for a missing field.
- The broken wiring of generate/docker-hub-builder.js is modelled by the parameters the function bodies use, that is, by what the calls evidently intend. The calls at lines 178, 190, 195, 209, 221 and 226 pass an extra leading argument, which shifts every parameter by one. `dockerHubInfo` is commented out at lines 6-14 yet used. `buildTagName` is free in `isThereLatestBuild`.
- Reconcile.BuildService.CheckLatestBuild: `buildTagNameLastLatestBuild` is declared nowhere, so reading it at line 189 throws a ReferenceError and `triggerLatestBuild` (line 190) is never reached on the OUTDATED path; the model follows the intended trigger.
- Crash paths are explicit error results: no passing "latest" build, a queued build without Dockerfile contents, a Dockerfile without one of the `ENV` lines, no commit, no release tag.
- `byPendingBuild` of generate/dockerhub.js refers to an undefined constant and is never called.
- generate/dockerhub.js runs at load time against a fixed build tag name; `DockerHub.RunChecks` takes the name as a parameter and the fixed name is `DockerHub.ScriptBuildTagName`.
- DockerHub.RunChecks: the tagged side uses the intended emptiness test, not the always-truthy test as written (see Findings).
- DockerHub.CheckTagged: applies the intended emptiness test, not the always-truthy `if (existingTag)` of generate/dockerhub.js:194, which never triggers (see Findings).
- Task.CleanReleaseName: takes the repository name literally; regular-expression metacharacters in it are not interpreted.
- Strings are sequences of code points; JavaScript's UTF-16 code units differ only for characters outside the Basic Multilingual Plane.
- Task.NightlyRun: the tags gitPushAll lists again after a commit are the earlier tags plus the new one, in that order; the order git lists them in is not modelled.
- Task.RunNightly: when both the commit and the release tag are missing, the missing commit is reported; which rejection wins in the source depends on timing.
- Logging (`console.log`) is left out.

## Findings

| source | as written | input that shows it | evidently intended | confidence | as-written member | corrected member |
|---|---|---|---|---|---|---|
| generate/dockerhub.js:194 | `if (existingTag)` tests the array returned by `fetchLastTaggedBuildTagname`; every array is truthy, so the tagged build is never triggered | no published tags: the array is empty and the script still logs that the tag was built and skips it | trigger the tagged build when no published tag has the name | not executed | DockerHub.TaggedBranchTriggersAsWritten | DockerHub.TaggedBranchTriggers |

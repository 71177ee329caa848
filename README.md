# cf-functions: function-association reconciliation, in Dafny

This project models the core of the `cf-functions` command-line tool. The
tool deploys CloudFront Functions and attaches them to the cache behaviours
of CloudFront distributions. The model covers:

- **Behaviour lookup.** A pattern selects a behaviour of a distribution
  config. The sentinel `"default"` selects the DefaultCacheBehavior; any
  other pattern is the PathPattern of a named cache behaviour.
- **The association manifest.** Configured associations, grouped per
  distribution id, with function names resolved to ARNs. Fetched snapshots
  are deduplicated (first wins). There is a strict mode (associate) and a
  non-strict mode (destroy).
- **Editing a cloned snapshot.** Associations are added with
  (FunctionARN, EventType) deduplication, or removed as the destroy command
  removes them. Change detection decides whether `updateDistribution` is
  sent.
- **The destroy command.** Its tolerant function deletion and the order of
  its steps.
- **The deployment-status poller.** A `while` loop over the status answers
  and a ten-minute timer.
- **The test command.** The event object a case runs with, the asymmetric
  output matcher, one result per case, and the totals and grouping of the
  final report.

Module by module:

- `Types` holds the records the core reads.
- `Snapshot` addresses behaviours and holds `Draft`, the deep clone that
  the commands edit in place.
- `Behaviours` is the locator functions.
- `ChangeDetection` is the change test.
- `Reconcile` is the shared write-if-changed rule.
- `Manifest` builds the manifest.
- `Associate` and `Destroy` are the two editing commands.
- `Poller` is the status poller.
- `Settle` is settlePromises.
- `AsymmetricMatch` is the matcher.
- `TestEvent` builds the event object.
- `TestRun` runs the test command and aggregates its results.

Remote calls (fetching and updating a distribution, status queries, and
describe, delete and test calls on functions) are inputs to the model. They
appear as reply values, traces, or function-typed parameters that give the
answer for each id or request.

The source is modelled as written, in three places where it behaves
differently from what its names suggest:

- `removeAssociation` stores the *return value* of `splice(indexOf(a), 1)`.
  Since `indexOf` compares identity, the index is always -1. A behaviour
  therefore keeps only its last item, and that happens whichever
  association was meant.
- Change detection only looks for added items. A removal is never a change,
  so (with distinct path patterns) destroy never calls `updateDistribution`.
- The poller takes its success branch for an `"InProgress"` status seen
  after the timer fired.

## Model

| member | source | states |
|---|---|---|
| Behaviours.DoesBehaviourExist | src/cli/utils.ts:411-421 | true iff the pattern is `"default"`, or the distribution was found and some named behaviour has that PathPattern |
| Behaviours.FindBehaviour | src/cli/utils.ts:423-436 | the default behaviour exactly for `"default"`; otherwise the first named behaviour with that PathPattern; none (undefined) iff no behaviour has it |
| Behaviours.FoundIffExists | src/cli/utils.ts:411-436 | the locator finds a behaviour exactly when the compatibility test says one exists |
| Behaviours.FindBehaviourSameShape | src/cli/utils.ts:423-436 | the locator depends only on the patterns of the named behaviours, so edits to FunctionAssociations never redirect it |
| Behaviours.DoesAssociationExist | src/cli/utils.ts:438-447 | true iff FunctionAssociations and Items are present and some item has the same FunctionARN and the same EventType |
| ChangeDetection.HaveBehaviourAssociationsChanged | src/cli/utils.ts:471-486 | the flag is set iff some new item has no (ARN, EventType) match among the old behaviour's items |
| ChangeDetection.HaveAssociationsChanged | src/cli/utils.ts:449-469 | true iff the default behaviour, or some new named behaviour compared with the first old behaviour of the same PathPattern, gained an item |
| ChangeDetection.ShrunkIsUnchanged | src/cli/utils.ts:449-486 | with distinct path patterns, a config whose every behaviour's items are a subset of the old items is never a change |
| ChangeDetection.SelfIsUnchanged | src/cli/utils.ts:449-486 | with distinct path patterns, a snapshot compared with itself shows no change |
| ChangeDetection.MissingOldBehaviourIsChange | src/cli/utils.ts:460-466 | a new named behaviour with items and no old behaviour of the same pattern is a change |
| Reconcile.WriteIfChanged | src/cli/commands/associate/utils.ts:120-152 | an update is sent iff the edit succeeded and a change is detected, with the clone's id, config and the fetched ETag as IfMatch; errors are reported against the original snapshot, carrying exactly the error the edit or updateDistribution threw; with no change the result is the unwritten clone, otherwise the reply parsed under the requested id |
| Manifest.FindFunction | src/cli/utils.ts:177-186 | the first deployed function with that name; a FunctionNotInAws failure iff none has it |
| Manifest.GetAssociatedDistributions | src/cli/utils.ts:354-389 | fails iff some fetch error is fatal (any error other than DISTRIBUTION_NOT_FOUND, or any error in strict mode), and then with such an error |
| Manifest.DistributionsByFirstFetch | src/cli/utils.ts:379-388 | the keys are exactly the ids of the successful fetches, and each maps to the first snapshot fetched for it |
| Manifest.StrictResolvesAll | src/cli/commands/associate/utils.ts:66-87 | in strict mode, a successful fetch phase leaves no configured distribution id out of the map |
| Manifest.CheckCompatibility | src/cli/utils.ts:391-409 | passes iff every configured association's pattern exists on its distribution; otherwise it fails at the first one that does not, naming its distribution, pattern and function |
| Manifest.MissingDistributionPassesOnlyDefault | src/cli/utils.ts:391-421 | a distribution that was not found passes only the `"default"` pattern |
| Manifest.CreateAssociationManifest | src/cli/utils.ts:308-352 | the nested loops build exactly what the manifest specification gives: the fetches, the compatibility check in strict mode only, then one push per configured association |
| Manifest.CreateStrictManifest | src/cli/commands/associate/utils.ts:30-87 | the associate command's always-strict copy: any failed fetch aborts with that error; once the fetches succeed, an unmatched pattern aborts with NoMatchingBehaviour naming the first one; a returned manifest means every pattern matched, and it has an entry for every configured distribution id holding exactly that id's configured associations in order |
| Manifest.ManifestGroups | src/cli/utils.ts:323-349 | a successful manifest has distinct ids; every entry holds its id's fetched snapshot; each id gets exactly its configured associations in config order; skipped distributions get none |
| Manifest.BuildGroups | src/cli/utils.ts:323-349 | building on a partial manifest appends to each kept id exactly its remaining configured associations, in order |
| Manifest.BuildFailsIffUndeployed | src/cli/utils.ts:329-333 | the manifest loop fails iff some configured function is not deployed, with FunctionNotInAws naming it |
| Manifest.UndeployedFunctionAborts | src/cli/utils.ts:329-333 | a function missing from the deployed list aborts the manifest even when its distribution is skipped |
| Manifest.StrictIncompatibleFails | src/cli/commands/associate/utils.ts:35-37 | in strict mode an association whose pattern matches no behaviour aborts the manifest with NoMatchingBehaviour |
| Manifest.NonStrictIgnoresBehaviours | src/cli/utils.ts:319-321 | in non-strict mode patterns are never checked: once the fetches succeed and all functions are deployed, the manifest is built |
| Settle.SettlePromises | src/cli/utils.ts:188-205 | the success list is the fulfilled values, and the reject list the rejection reasons, each in settlement order |
| Settle.PartitionIsComplete | src/cli/utils.ts:188-205 | successes plus rejects number exactly the settled results |
| Settle.SuccessesInOrder | src/cli/utils.ts:188-205 | the k-th fulfilled result is at its position among the successes |
| Settle.RejectsInOrder | src/cli/utils.ts:188-205 | the k-th rejected result is at its position among the rejects |
| Associate.AddAssociation | src/cli/commands/associate/utils.ts:174-192 | the forEach callback edits the clone in place to what one add step gives, or throws UndefinedBehaviour; id and ETag are kept |
| Associate.AddAssociationsToDistribution | src/cli/commands/associate/utils.ts:169-193 | the forEach leaves the clone as the whole add gives it, or stops at the first throw |
| Associate.AssociateFunctionsWithDistribution | src/cli/commands/associate/utils.ts:120-152 | clone, add, then write if changed; the fetched snapshot itself is a value and never changes |
| Associate.AddOneEffect | src/cli/commands/associate/utils.ts:181-189 | a new (ARN, EventType) is appended and Quantity goes up by exactly one; an existing one leaves Items and Quantity; an absent FunctionAssociations becomes Items [] with Quantity 0; no other behaviour changes |
| Associate.AddAllSameShape | src/cli/commands/associate/utils.ts:169-193 | the add keeps the named behaviours and their patterns |
| Associate.AddAllSucceedsIff | src/cli/commands/associate/utils.ts:174-180 | the add throws exactly when some association's pattern names no behaviour |
| Associate.AddAllKeepsInstalled | src/cli/commands/associate/utils.ts:181-189 | adding never loses a pair that was already on its behaviour |
| Associate.AddAllInstallsEach | src/cli/commands/associate/utils.ts:169-193 | after the add, every association's pair is among the items of its behaviour |
| Associate.AddAllInstalledIsNoop | src/cli/commands/associate/utils.ts:181-189 | adding pairs that are all already installed changes nothing |
| Associate.AddAllIdempotent | src/cli/commands/associate/utils.ts:169-193 | a second add of the same associations leaves the config unchanged |
| Associate.AddAllKeepsQuantities | src/cli/commands/associate/utils.ts:181-189 | Quantity is copied and incremented, so Quantity = length of Items, if it held before, holds after |
| Associate.AddAllLeavesOthers | src/cli/commands/associate/utils.ts:174-192 | a behaviour that no association's pattern selects keeps its FunctionAssociations |
| Associate.NewPairIsWritten | src/cli/commands/associate/utils.ts:130-136 | a pair that was not yet on its behaviour makes the edited clone a change, so the update is sent |
| Associate.AssociateTwiceWritesNothing | src/cli/commands/associate/utils.ts:120-152 | with distinct patterns, associating again on the result sends no update and returns that same distribution |
| Destroy.RemoveAssociation | src/cli/commands/destroy/main.ts:141-157 | the behaviour is edited in place to the as-written removal; id and ETag are kept |
| Destroy.RemoveAssociationsFromDistribution | src/cli/commands/destroy/main.ts:127-139 | the forEach leaves the clone as the whole removal gives it, or fails with UndefinedBehaviour at the first unknown pattern |
| Destroy.DisassociateFunctionsFromDistribution | src/cli/commands/destroy/main.ts:93-125 | clone, remove, then write if changed, reporting errors against the original snapshot |
| Destroy.SpliceAtIdentityIndexIsLast | src/cli/commands/destroy/main.ts:150-154 | `splice(-1, 1)` on a non-empty list returns its last item alone |
| Destroy.RemoveWithoutMatchIsNoop | src/cli/commands/destroy/main.ts:145-147 | with no (ARN, EventType) match, an absent FunctionAssociations included, the config is unchanged |
| Destroy.RemoveWithMatchKeepsLast | src/cli/commands/destroy/main.ts:150-155 | with a match, Quantity goes down by one and Items becomes the one-element list of the previous last item; no other behaviour changes |
| Destroy.RemovingOnlyItemKeepsIt | src/cli/commands/destroy/main.ts:150-155 | removing a behaviour's only association leaves that association in place with Quantity 0 |
| Destroy.RemovingSecondDropsFirst | src/cli/commands/destroy/main.ts:150-155 | removing the second of two associations keeps it and drops the first |
| Destroy.RemoveAtShrinks | src/cli/commands/destroy/main.ts:141-157 | one removal leaves every behaviour's items a subset of its old items |
| Destroy.RemoveAllShrinks | src/cli/commands/destroy/main.ts:127-157 | after any sequence of removals every behaviour's items are a subset of its original items |
| Destroy.RemoveAllSucceedsIff | src/cli/commands/destroy/main.ts:127-139 | the removal throws exactly when some association's pattern names no behaviour |
| Destroy.RemoveAllFailsUndefined | src/cli/commands/destroy/main.ts:132-137 | a failed removal fails only with the error of reading an undefined behaviour |
| Destroy.DisassociateNeverWrites | src/cli/commands/destroy/main.ts:103-109 | with distinct patterns the disassociate step never sends an update; it settles with the unwritten clone, or with the original snapshot and an UndefinedBehaviour error |
| Destroy.DestroyFunction | src/cli/commands/destroy/main.ts:225-260 | deleteFunction is asked with the name and the ETag describeFunction returned, and only when describe succeeded; the function counts as deleted iff both calls succeed or the first failure is FUNCTION_NOT_FOUND; any other error is a rejection naming the function and carrying that error |
| Destroy.DestroyAllFunctions | src/cli/commands/destroy/main.ts:225-260 | one deletion result per configured function, in key order, each deleting with its own described ETag |
| Destroy.ProcessAssociationManifest | src/cli/commands/destroy/main.ts:85-91 | one disassociate attempt per manifest entry, in manifest order |
| Destroy.DestroyHandler | src/cli/commands/destroy/main.ts:52-83 | the run aborts iff the non-strict manifest fails; otherwise it disassociates every entry, polls every entry whatever the disassociate outcomes, and deletes every configured function |
| Destroy.DestroySendsNoUpdate | src/cli/commands/destroy/main.ts:66-80 | with distinct patterns the destroy command sends no update at all |
| Poller.PollDistributionForDeployedStatus | src/cli/utils.ts:498-529 | the while loop ends exactly as the trace specification says: stopped on a status, thrown by a status call, or still polling when the trace runs out |
| Poller.PollStillPollingIff | src/cli/utils.ts:514-518 | the loop is still running exactly when every answer so far satisfied the loop condition |
| Poller.PollStopsAt | src/cli/utils.ts:514-518 | a stopped poll made at least one call and stopped on the first answer that failed the loop condition |
| Poller.PollStopped | src/cli/utils.ts:514-528 | the final status is set; it is "InProgress" only if the timer fired; it is reported deployed exactly for "InProgress" and "Deployed" |
| Poller.PollThrew | src/cli/utils.ts:514-518 | a rejected poll carries the error of the first status call that threw |
| Poller.DeployedAfterInProgress | src/cli/utils.ts:514-528 | two "InProgress" answers, then "Deployed": stops and reports deployed |
| Poller.TimedOutInProgressReportsDeployed | src/cli/utils.ts:522-528 | an "InProgress" seen after the timer fired stops the loop and is reported as deployed |
| Poller.OtherStatusReportsNotDeployed | src/cli/utils.ts:522-528 | any other set status stops the loop and is reported as not deployed, without a rejection |
| Poller.UnsetIgnoresTimer | src/cli/utils.ts:514-518 | an unset status keeps polling even after the timer fired |
| Poller.PollDistributionsForDeployedStatus | src/cli/utils.ts:488-496 | one poll per manifest entry, in manifest order |
| AsymmetricMatch.Lookup | src/matchers/is-asymmetric-match.ts:16-26 | an own key's value, none iff the key is absent |
| AsymmetricMatch.Property | src/matchers/is-asymmetric-match.ts:16-26 | null, booleans, numbers and "" own no property; an object's properties are its keys; an array owns "length" and its indices |
| AsymmetricMatch.IsEqualDefined | src/matchers/is-asymmetric-match.ts:40-62 | with no null in the expected value, the matcher never throws |
| AsymmetricMatch.ObjectMatchIff | src/matchers/is-asymmetric-match.ts:3-14 | an object matches iff every expected key is a property of the actual value and the values match |
| AsymmetricMatch.EmptyMatchesAnything | src/matchers/is-asymmetric-match.ts:7-13 | an empty expected object matches any actual value |
| AsymmetricMatch.TypeMismatchIsFalse | src/matchers/is-asymmetric-match.ts:41-43 | values whose typeof differs never match |
| AsymmetricMatch.PrimitivesStrictlyEqual | src/matchers/is-asymmetric-match.ts:54-61 | primitives of the same type match iff equal |
| AsymmetricMatch.NullExpectedThrows | src/matchers/is-asymmetric-match.ts:54-61 | a null expected value against an actual of type "object" throws (Object.keys of null) |
| AsymmetricMatch.ArrayMatchIff | src/matchers/is-asymmetric-match.ts:45-52 | arrays match iff every expected index exists in the actual array and the items at it match |
| AsymmetricMatch.ArrayPrefixMatches | src/matchers/is-asymmetric-match.ts:45-52 | a longer actual array still matches |
| AsymmetricMatch.ExtraKeysIgnored | src/matchers/is-asymmetric-match.ts:3-14 | adding keys to a matching actual object keeps the match |
| AsymmetricMatch.IsEqualReflexive | src/matchers/is-asymmetric-match.ts:40-62 | every null-free value with distinct keys matches itself |
| AsymmetricMatch.TestScriptExample | test.ts:1-8 | the repository's example match holds |
| TestEvent.Context | src/cli/commands/test/main.ts:187-201 | the context carries distributionId, the eventType name, `<id>.cloudfront.net` and `test-<uuid>` |
| TestEvent.MergeEventObject | src/cli/commands/test/main.ts:182-205 | fails iff the function has no association; otherwise `context` is always overwritten from the first association |
| TestEvent.MergeOverridesDefaults | src/cli/commands/test/main.ts:186-196 | every other top-level key takes the given value if present; otherwise it takes the default, with no default `response` for viewer-request |
| TestEvent.ViewerRequestHasNoDefaultResponse | src/cli/commands/test/main.ts:186-190 | a viewer-request event has a `response` only when the case gives one |
| TestEvent.ViewerResponseKeepsDefaultResponse | src/cli/commands/test/consts.ts:3-27 | a viewer-response event without a given `response` gets the default 200 "OK" response |
| TestRun.AssertExpectedOutput | src/cli/commands/test/main.ts:207-218 | true iff there is no function error, the output parses, and the spread expected object matches the spread output; false on any function error |
| TestRun.AssertExpectedOutputIff | src/cli/commands/test/main.ts:207-218 | with a null-free expected value, an error arises only from an unparsable output, and a pass means every expected key matches |
| TestRun.RunTestCase | src/cli/commands/test/main.ts:147-176 | one result per case; a throw anywhere (merging, the service call, or the assertion) gives isSuccess false with that very error; otherwise isSuccess is the assertion's outcome on the service's answer |
| TestRun.PassIff | src/cli/commands/test/main.ts:147-176 | a case passes iff the event merged, the service answered and the output matched |
| TestRun.IterateTestCases | src/cli/commands/test/main.ts:129-180 | exactly one result per test case, in case order |
| TestRun.IteratedErrorsFail | src/cli/commands/test/main.ts:168-176 | every case that threw is recorded as failed |
| TestRun.RunSuite | src/cli/commands/test/main.ts:101-122 | a suite rejects with a TestError naming the function iff loading the cases or describeFunction failed; otherwise it is the cases' results |
| TestRun.GroupAllGroups | src/cli/commands/test/main.ts:263-272 | resultsMap holds, under each name, exactly that name's cases in order |
| TestRun.Partitions | src/cli/commands/test/main.ts:260-288 | the cases split into clean and errored, and, separately, all cases into passed and not passed (`isSuccess` false), whatever their error |
| TestRun.ErroredAreFailed | src/cli/commands/test/main.ts:286-292 | in results where a thrown case counts as failed, the failures include every error |
| TestRun.AddSuite | src/cli/commands/test/main.ts:260-288 | one suite adds one to totalSuites and its case count to totalTests; it groups its clean cases, lists its errors, and counts passes and failures |
| TestRun.AggregateResults | src/cli/commands/test/main.ts:240-302 | totalSuites is the fulfilled suites; totalTests their cases; totalSuccess the passes; totalFails the failures plus all errors; errors is the case errors then the rejections |
| TestRun.FailuresCountErrorsTwice | src/cli/commands/test/main.ts:291-292 | an errored case is counted both as a failure and as an error |
| TestRun.SettleTestResults | src/cli/commands/test/main.ts:220-238 | the settled suites are split by settlePromises, then aggregated with those totals |

## Left out

- Input and output: reading config, env and handler files, schema
  validation, console and spinner output, and `process.exit`. An exit on a
  missing function or on an incompatible pattern is a `Failure` value.
- AWS SDK calls. They are reply values, traces or function-typed
  parameters. A distribution's answer is reduced to its ETag and config.
- Concurrency. `Promise.all` and `allSettled` are modelled in list order,
  so a rejecting `Promise.all` reports the first fatal result by position.
  Test-case results are taken in case order, not in completion order.
- Poller.UnsetIgnoresTimer: an unset (undefined or empty) status is not
  reachable through fetchDistributionStatus, whose two copies throw or exit
  on it (src/aws/cloud-front/distribution.ts:16-18,
  src/aws/cloud-front/distribution/main.ts:27-30). The lemma states the
  loop condition as written, not reachable behaviour.
- Timers. The ten-minute timer is the `elapsed` flag of each observation,
  and `sleep` is left out.
- JSON. `JSON.parse` of a function output is an optional parsed value, and
  `JSON.stringify` is left out. Numbers are integers. `uuid` is a
  parameter.
- `cloneDeep`. It is a value copy into a fresh `Draft` object, so aliasing
  between the clone and the fetched snapshot is outside the model.
- AsymmetricMatch.Property: looks up own properties only, not the
  prototype chain, and an object with a duplicate key is read at its first
  occurrence.
- TestRun.AggregateResults: does not model a function name that is an
  `Object.prototype` property ("constructor", "toString", "valueOf",
  "hasOwnProperty", "isPrototypeOf", "propertyIsEnumerable",
  "toLocaleString", "__proto__" and the like). For such a name
  `resultsMap[name]` is already truthy, so `.push` throws in the source;
  AggregateResults and GroupAll never throw and group it like any other.
- AsymmetricMatch.IsEqualDefined and the lemmas after it: they assume no
  null in the expected value. A null meeting an actual value of type
  "object" throws, which NullExpectedThrows and the `KeysOfNull` error
  model.
- ChangeDetection.ShrunkIsUnchanged, ChangeDetection.SelfIsUnchanged, Destroy.DisassociateNeverWrites,
  Destroy.DestroySendsNoUpdate and Associate.AssociateTwiceWritesNothing:
  they assume distinct path patterns, as CloudFront demands. With a
  duplicated pattern, the change test compares against the first
  behaviour of that pattern.
- The associate and publish command handlers (src/cli/commands/associate/main.ts
  and src/cli/commands/publish/main.ts). They are plumbing around
  create, update and publish calls, and do not call the associate
  utilities.
- Printing of results: `settleAndPrintAssociateResults`, the
  `print*` functions, and the tables the test command prints.
  TestRun.SettleTestResults models the aggregation only.
- Key order of JS objects: the function map, the manifest and
  `resultsMap` are sequences in insertion order. JS enumerates
  integer-like keys (such as "123") first, in ascending order, so for such
  function names or distribution ids the order of manifest entries, which
  FunctionNotInAws is reported first, the order of deletions and the order
  of `resultsMap` differ from the model.
- Every field of the CloudFront records that the core never reads.

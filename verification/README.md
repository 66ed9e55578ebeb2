# Verification model of Tango

Tango ingests ThinkingData log lines into MongoDB from many pods at once. It has no transactions: its
safety rests on a few protocols built from single-document atomic operations and unique indexes. This
project models those protocols in Dafny and proves what they promise, for every input, every run and every
interleaving of the modelled steps. `dafny verify dfyconfig.toml` checks everything.

MongoDB is a map of documents with atomic steps (match, upsert, `$set`, `$unset`, `$setOnInsert`, `$max`,
`$inc`, `$push`, `$addToSet`, replace, delete) and unique indexes; `FindOne` returns any matching document.
expr-lang compilation, the evaluation of a rule on a record, the match of one glob segment, the hash of a
routing key and JSON decoding are uninterpreted function parameters; so is the fate of a line in each processing
stage, for which `Ingest` puts the real parser and model builders. Faults, lost races, deliveries, flush ticks, file
growth and the other publishers' writes are chosen freely by the schedule that a run, or a method parameter, gives.

## What is modelled, file by file

- `Wrappers`: an optional value and a value-or-error.
- `IdentityDb`, `IdentitySteps`, `IdentityOrphans`, `IdentityRaces`: identity resolution with every database call
  and cache access as its own step, any number of pods and calls, database faults included.
- `IdentityTrails`, `IdentityHistory`, `IdentityEnds`: over every run of those steps, what each call is answered with
  in terms of what it read and wrote, what answers and cache entries name, and that calls end with an answer.
- `IdentitySpec`, `IdentityResolver`: the same resolver as objects with caches, each call run to completion,
  against a cacheless two-map directory.
- `IdentitySolo`: the step model against that directory.
- `Filters`, `Watchers`: reporting filters, the applier registry, the holder, and the configuration watcher.
- `Publish`, `PublishCalls`, `PublishSteps`, `PublishRuns`: the publish gate, rule union and merge; the two
  publish calls as written, with other publishers' writes falling between their database calls; and any number
  of concurrent publishers as a state machine.
- `ConfigRuns`: publishers, watchers and workers together, end to end.
- `Documents`, `WriteModels`, `BulkRetry`, `Store`, `WriteOrder`: what the update operators do to documents,
  the write models built from records, bulk writes with retry, and what order and repetition cannot change.
- `Processing`, `Uploaders`: the stages and counters of one line, and the batch uploader against the
  one-line-at-a-time uploader.
- `Records`, `Ingest`: the parser, and the processor over the real parser and model builders.
- `FlushThreshold`, `PipelineSteps`, `PipelineWorker`, `PipelineRuns`, `PipelineRoutes`, `DeadLetterCap`: the
  adaptive flush threshold, the dispatcher and worker pool as a state machine, the code between channel operations
  against its steps, which worker a line goes to, and the cap on dead-letter batches.
- `Glob`, `HashRewrite`, `HybridTail`: the `**` path matcher, the quote-aware rewriter, and hybrid tailing.

## What turned out not to hold as its comments say

- A mapping may be deleted as an orphan after another pod has bound it to an account
  (internal/dao/store/identity_atomic.go:117-121), and one account is then answered with two user ids:
  `IdentityOrphans.OrphanDeleteRace` is such a run, `UnsafeDeleteForgets` and `UnsafeDeleteTwoAnswers` show what
  every such delete leads to, and `IdentitySteps.OneAccountOneUser` proves the promise for all runs without one.
  A run in which every call carries an account has none (`IdentitySteps.AccountsAlone`).
- A distinct id that a login adds to a mapping deleted in between is bound to nothing, yet is cached under that
  mapping's id (internal/dao/store/identity_atomic.go:172-180 reports an unmatched update as a success):
  `IdentityHistory.DistinctsNameTheirMappings` says what entries name, and `SafeRunsMissNothing` that it takes an
  orphan delete of a mapping with an account.
- A distinct id is not bound to one account only (internal/dao/store/identity.go:20): two logins can each find it
  unbound and each bind it (`IdentityRaces.DistinctIdSplits`) or each insert a mapping with it (`InsertsSplit`).
  A run keeps the promise if and only if every write that adds a distinct id, or gives an account to a mapping,
  finds no other account with that distinct id at that moment: `StepKeepsAccountIff`, `AccountsStaySingleIff`, and
  `StepKeepsDistinctIff`, `MappingsStaySingleIff` for one mapping each. With calls run one after the other it
  cannot fail (`IdentityResolvers.OneMappingPerDistinct`).
- A rejected configuration document does not always leave the live filter alone
  (internal/cfgsync/cfgsync.go:119-121): a good filter beside a field that is not on the allowlist goes live
  while the watcher reports an error and stays unready. `Watchers.RefusedKeepsLiveIff` gives the exact
  condition, `StrayFieldStillSwaps` an instance. The publish gate never stores such a document.
- Ready also closes on a document with no filter at all (`Watchers.NoFilterClosesReady`).
- The `_ts` guard is per document, not per field (internal/dao/store/writemodel.go:46-47): an older overlay is
  dropped whole (`Store.StaleIsSkipped`). So after a failed attempt that skipped a write but applied a later one of
  the same key, a retry can lose the older write for good or keep a stale one: `BulkRetry.GapIff` gives the exact
  condition from any collection, `GapLosesAWrite` from none. Gaps between keys are harmless (`RetryTransparent`).
- Only `_ts` is raised with `$max`; the comment at internal/dao/store/writemodel.go:57-58 also names `#time`, which
  the code overwrites (`WriteModels.MetaMaxSplits`).
- An ordered bulk write that meets a benign skip, at any position, stops there and still reports success
  (`Store.OrderedSkipDropsTheRest`); it tries the whole batch if and only if no write but the last meets an error
  (`OrderedTriesAllIff`). Nothing outside the tests sends ordered batches.
- A publish that returns an error may have landed (internal/cfgsync/publish.go:74-80, 167-175):
  `PublishRuns.ReadBackFaultHasLanded` and `LostReplyHasLanded` are such runs, `FaultLandsIff` says exactly when. One
  that gave up or was rejected has not (`RefusedCallsLeaveNoTrace`), and none lands twice (`LandsAtMostOnce`).
- The dead-letter batch can outgrow its cap (internal/process/pipeline/worker.go:111-114), which only a parse error
  checks: `DeadLetterCap.CapExceeded` is such a schedule for every cap, `CapHoldsIff` says exactly when a run stays
  within it.

The counters would count a line twice, as a write and as a dead letter, if it panicked while its model is built
(internal/process/core/processor.go:113-120). That takes a user record with a nil document (`Ingest.LatePanicIff`),
which the parser never yields (`ParsedNeverPanicsLate`), so the totals balance outright (`LinesBalance`,
`PipelineBalances`).

## Model

| member | source | states |
|---|---|---|
| IdentitySteps.NextKeepsInv | internal/dao/store/identity_atomic.go:23-205 | every step of every interleaving, faults and orphan deletes included, keeps: accounts unique, ids issued once and within the counter, a mapping inserted with an account never removed (what the steps answer is in `IdentityTrails`) |
| IdentitySteps.RunKeepsInv | internal/dao/store/identity_atomic.go:23-205 | the same over whole runs |
| IdentitySteps.NextExtends | internal/dao/store/identity_atomic.go:172-205 | a mapping's account is written at most once, its distinct list only grows while it lives, a deleted id never comes back |
| IdentitySteps.RunExtends | internal/dao/store/identity_atomic.go:55-205 | the same between any two states of a run; every mapping's id is within the counter |
| IdentitySteps.IdsAreDistinct | internal/dao/store/identity_atomic.go:23-50 | two calls never hold the same newly issued id, and it was never inserted before |
| IdentitySteps.OneAccountOneUser | internal/dao/store/identity_lookup.go:8-96 | if the orphan delete only removes unbound mappings, two answered calls have the same account if and only if they have the same user id, at any time on any pods |
| IdentitySteps.CacheNamesTheHolder | internal/dao/store/identity_cache.go:35-45 | an account-cache entry of any pod names the one mapping that holds the account |
| IdentitySteps.AccountsMakeItSafe | internal/dao/store/identity_lookup.go:8-45 | when every call carries an account no run needs that proviso |
| IdentitySteps.AccountsAlone | internal/dao/store/identity_lookup.go:8-45 | so when every call carries an account, two answered calls have the same account if and only if they have the same user id, in every interleaving |
| IdentityTrails.AnswersFollowTheRules | internal/dao/store/identity_lookup.go:8-96 | in every run from empty, faults and deletes included, each answer is what the rules give for what the call itself read and wrote: from the cache exactly if it has all ids; a visitor's is the mapping its last read named, its own being dropped if that is another; a login's is the mapping of its account, else the one it could bind, else its own, else the one that took the account |
| IdentityTrails.NoOwnDeleteIsUsed | internal/dao/store/identity_atomic.go:112-124 | no call is answered with an id that it deleted itself, or caches one |
| IdentityTrails.OnlyItsOwnerDeletes | internal/dao/store/identity_atomic.go:92-128 | at every moment the collection is exactly what calls inserted and did not delete themselves, each mapping inserted by one call only: an answer that is the call's own insert stays there |
| IdentityTrails.StepFollows | internal/dao/store/identity_lookup.go:8-96 | every step of every call follows the rules |
| IdentityHistory.AccountsNameHolders | internal/dao/store/identity_cache.go:35-45 | whatever is deleted when, the answer of a call with an account, and every account-cache entry of every pod, names a mapping that had that account at some moment of the run |
| IdentityHistory.DistinctsNameTheirMappings | internal/dao/store/identity_cache.go:35-45 | a visitor's answer and every distinct-cache entry name a mapping that had the distinct id at some moment, or that a login tried to add it to after it was deleted |
| IdentityHistory.SafeDistinctsAreHad | internal/dao/store/identity_atomic.go:172-180 | under the delete guard the second never happens |
| IdentityHistory.HistoryMeans | internal/dao/store/identity_cache.go:35-45 | what the history records is exactly what held at some moment of the run |
| IdentityEnds.StepsLeadToTheEnd | internal/dao/store/identity_lookup.go:8-96 | whatever the other calls do, each step of a call brings it nearer its end |
| IdentityEnds.CallsAreAnswered | internal/dao/store/identity_atomic.go:55-168 | without database faults and under the delete guard no call of any run fails |
| IdentityEnds.AnsweredIsCached | internal/dao/store/identity_cache.go:35-45 | once a call is answered its pod has its account cached, or the distinct id of a call without one |
| IdentityEnds.SettledIsCached | internal/dao/store/identity_cache.go:35-45 | and its distinct id too, unless the account was bound to that id's mapping or got a new one beside it |
| IdentitySolo.SoloIsDirectory | internal/dao/store/identity_lookup.go:8-96 | a call that no other interrupts never fails, and its answer, its bindings, the id it issues and every cache are the directory's |
| IdentityOrphans.UnsafeDeleteForgets | internal/dao/store/identity_atomic.go:112-124 | whenever a delete removes a bound mapping, a later call for that account is answered with another id |
| IdentityOrphans.UnsafeDeleteTwoAnswers | internal/dao/store/identity_atomic.go:112-124 | every such delete of a mapping that a call was already answered with leads to two different answers for one account |
| IdentityOrphans.OrphanDeleteRace | internal/dao/store/identity_atomic.go:112-124 | a run from empty in which one account is answered with two user ids |
| IdentityRaces.StepKeepsDistinctIff | internal/dao/store/identity_atomic.go:61-205 | from every state with each distinct id in at most one mapping, a step of any call, faults included, keeps that if and only if what it inserts or binds is in no other mapping at that moment |
| IdentityRaces.MappingsStaySingleIff | internal/dao/store/identity_atomic.go:55-205 | over whole runs from empty: each distinct id lies in at most one mapping throughout if and only if every step meets that guard |
| IdentityRaces.StepKeepsAccountIff | internal/dao/store/identity_atomic.go:61-205 | the same, step by step, for "a distinct id belongs to at most one account"; here the bind of an account to a visitor's mapping counts too |
| IdentityRaces.AccountsStaySingleIff | internal/dao/store/identity.go:12-37 | the documented promise holds throughout a run from empty if and only if every step meets the account guard |
| IdentityRaces.DistinctIdSplits | internal/dao/store/identity_lookup.go:62-70 | a run from empty in which two binds leave one distinct id in two accounts' mappings |
| IdentityRaces.InsertsSplit | internal/dao/store/identity_atomic.go:132-168 | a run from empty in which two inserts do, with no bind at all |
| IdentityOrphans.DoneStays | internal/dao/store/identity_lookup.go:8-45 | an answer given stands through any later steps |
| IdentitySpec.StepConsistent | internal/dao/store/identity.go:12-37 | the directory stays a pair of functions into issued ids with one account per user |
| IdentitySpec.RunGrows | internal/dao/store/identity.go:96-109 | bindings are irreversible over any calls |
| IdentitySpec.AnswersStand | internal/dao/store/identity.go:96-109 | the same call later, after any calls of any pods, is answered the same and changes nothing |
| IdentitySpec.AccountsDiffer | internal/dao/store/identity.go:12-37 | two accounts are never answered with one user |
| IdentityResolvers.Database.NextUserID | internal/dao/store/identity_atomic.go:23-50 | gives up exactly after eight lost creation races, else issues the next id |
| IdentityResolvers.IdentityResolver.TryCache | internal/dao/store/identity_cache.go:5-30 | a hit needs every id of the call cached, answers as the directory does, and skips no binding that was due |
| IdentityResolvers.IdentityResolver.CacheMapping | internal/dao/store/identity_cache.go:35-45 | caches every id of a mapping and keeps the caches true of the collection |
| IdentityResolvers.IdentityResolver.AtomicCreateForAccountID | internal/dao/store/identity_atomic.go:55-86 | inserts a mapping for the account or adopts the one that holds it |
| IdentityResolvers.IdentityResolver.AtomicCreateForDistinctID | internal/dao/store/identity_atomic.go:92-128 | inserts a visitor's mapping, or drops it again for one that already has the distinct id |
| IdentityResolvers.IdentityResolver.AtomicCreateForBoth | internal/dao/store/identity_atomic.go:132-168 | inserts a mapping with both ids or binds the distinct id to the account's holder |
| IdentityResolvers.IdentityResolver.AtomicBindDistinctToAccount | internal/dao/store/identity_atomic.go:172-180 | adds the distinct id once |
| IdentityResolvers.IdentityResolver.AtomicBindAccountToDistinct | internal/dao/store/identity_atomic.go:184-205 | binds only an unbound mapping, and only an account nobody holds |
| IdentityResolvers.IdentityResolver.Resolve | internal/dao/store/identity.go:101-109 | whatever this pod has cached, the answer, the id issued and the bindings made are the directory's |
| IdentityResolvers.IdentityResolver.ResolveFromDB | internal/dao/store/identity_lookup.go:8-45 | the same for a cache miss |
| IdentityResolvers.IdentityResolver.ResolveWithBoth | internal/dao/store/identity_lookup.go:49-96 | the same for each of the four lookup outcomes |
| IdentityResolvers.RunCalls | internal/dao/store/identity.go:101-109 | any sequence of calls over any pods with separate caches gives exactly the directory's answers and ids |
| IdentityResolvers.OneMappingPerDistinct | internal/dao/store/identity.go:12-37 | each distinct id lies in at most one mapping |
| Filters.Keep | internal/parser/filter/filter.go:67-104 | keeps a record exactly when some include rule matches, if there are any, and no exclude rule does; a failing rule counts as not matched and is reported |
| Filters.ToStringSlice | internal/cfgsync/filter.go:41-70 | missing and null are empty, an array of strings is itself, all else is an error |
| Filters.RulesMean | internal/cfgsync/filter.go:41-70 | and nothing else is: exactly when it succeeds, and with which rules |
| Filters.CompileAll | internal/parser/filter/filter.go:111-128 | succeeds exactly when every rule compiles |
| Filters.Parser.SwapFilter | internal/parser/parser.go:41-48 | the filter goes live exactly when every rule compiles; else the last good one stays |
| Filters.ApplyFilter | internal/cfgsync/filter.go:22-34 | the filter applier accepts exactly the well-formed subtrees whose rules compile |
| Filters.Registry.Apply | internal/cfgsync/registry.go:72-105 | in any field order: no error exactly when nothing is off the allowlist and a filter, if present, is good; the live filter becomes the document's exactly when that filter is good |
| Filters.CleanlyIff | internal/cfgsync/registry.go:72-105 | no error is reported exactly when there is nothing beside `_id`, `version` and a good filter |
| Watchers.Watcher.Observe | internal/cfgsync/cfgsync.go:122-148 | only a strictly newer version is applied; the version advances even if applying fails; Ready closes on the first success |
| Watchers.Watcher.ObserveAll | internal/cfgsync/poll.go:29-58 | a whole run of deliveries is the fold of single ones |
| Watchers.VersionsIncrease | internal/cfgsync/cfgsync.go:113-135 | accepted versions strictly increase, and the last one is the watcher's |
| Watchers.ReadyMeansApplied | internal/cfgsync/cfgsync.go:68-74 | Ready is closed if and only if some accepted document was applied without error |
| Watchers.EndsAtTop | internal/cfgsync/cfgsync.go:113-135 | deliveries that contain the highest version, with a good filter, end with that filter live |
| Watchers.Converges | internal/cfgsync/cfgsync.go:23-30 | any two such delivery sequences, reordered, duplicated or lossy, end with the same live filter |
| Watchers.RefusedKeepsLiveIff | internal/cfgsync/registry.go:67-105 | a refused document leaves every live filter as it was exactly when its own filter is bad |
| Watchers.StrayFieldStillSwaps | internal/cfgsync/registry.go:72-105 | a refused document whose filter goes live |
| Publish.UnionRules | internal/cfgsync/publish.go:243-258 | the loop computes the union |
| Publish.UnionMeans | internal/cfgsync/publish.go:240-258 | the union has the stored rules as a prefix, exactly the rules of both, and no new duplicate |
| Publish.UnionTwice | internal/cfgsync/publish.go:240-258 | adding the same rules again changes nothing |
| Publish.ValidatePublishDoc | internal/cfgsync/publish.go:266-289 | the dry run on a throwaway parser decides the gate and returns the document without the reserved fields |
| Publish.GateMeans | internal/cfgsync/publish.go:260-289 | the gate passes exactly one good filter and nothing else |
| Publish.MergePublishDocs | internal/cfgsync/publish.go:191-238 | the loops compute the merge, in any field order, and its errors |
| Publish.MergeSub | internal/cfgsync/publish.go:208-235 | side by side: an omitted side stays, a published one is joined, anything malformed is an error |
| Publish.MergeJoins | internal/cfgsync/publish.go:184-238 | merging a good delta into a good document never fails, gives a good document, and joins each side's rules |
| Publish.MergeKeepsTheRest | internal/cfgsync/publish.go:184-238 | a merge has no reserved field, the delta's other fields replace the stored ones, and a stored filter keeps whatever it holds beside the two sides |
| PublishCalls.ConfigStore.Publish | internal/cfgsync/publish.go:53-83 | on any stored document, gated or not: refused exactly by the gate or by a version `$inc` cannot raise; else the delta lands by one upsert, also when the read-back then fails |
| PublishCalls.ConfigStore.Attempt | internal/cfgsync/publish.go:121-180 | on any stored document: one round is refused exactly by what it fetched, lands only when no other write fell between its fetch and its own, on top of all before it, and then returns its own version |
| PublishCalls.ConfigStore.PublishAppend | internal/cfgsync/publish.go:109-182 | on any stored document: refused by a gate or by what it fetched, else it misses eight times, leaving only what the others wrote, or lands once on top of all that landed before it; where only gated documents were stored the first gate alone refuses |
| PublishCalls.MissesAreCharged | internal/cfgsync/publish.go:120-181 | n misses mean at least n writes of other publishers |
| PublishCalls.SoundNeverRefuses | internal/cfgsync/publish.go:151-165 | on a document the gate let in, merging a gated delta is never refused |
| PublishCalls.NeverRefused | internal/cfgsync/publish.go:120-165 | so no attempt of an append is, whatever other publishers land before it |
| PublishCalls.LandAllMoves | internal/cfgsync/publish.go:64-178 | any landed writes move a numeric version by exactly their number |
| PublishSteps.MergedPassesGate | internal/cfgsync/publish.go:156-165 | re-validating the merge never rejects what the first gate let in, and the gate returns it unchanged |
| PublishSteps.LandIsGood | internal/cfgsync/publish.go:64-71 | every landing leaves a good document of the next version |
| PublishSteps.HoldingKnows | internal/cfgsync/publish.go:121-171 | the stored version equals the fetched one exactly when nothing landed since the fetch |
| PublishSteps.UnmovedLands | internal/cfgsync/publish.go:126-179 | an attempt on an unmoved document lands and keeps the invariant |
| PublishSteps.MovedMisses | internal/cfgsync/publish.go:143-178 | an attempt on a moved document misses, and the landing in between is its charge |
| PublishRuns.StepKeepsInv | internal/cfgsync/publish.go:53-182 | every step of any number of publishers keeps the log, the versions and each call's place in them |
| PublishRuns.RunKeepsInv | internal/cfgsync/publish.go:53-182 | the same over whole schedules |
| PublishRuns.Linearizable | internal/cfgsync/publish.go:109-182 | version v is exactly what the v-th landing makes of version v-1 |
| PublishRuns.ListsFold | internal/cfgsync/publish.go:191-258 | between set-mode publishes the rule lists are the earlier ones with the landed deltas joined in version order |
| PublishRuns.ListsStart | internal/cfgsync/publish.go:126-149 | the lists start as the first landed document's |
| PublishRuns.LandsLists | internal/cfgsync/publish.go:14-22 | an append joins its delta, a set-mode publish replaces both lists |
| PublishRuns.NoRuleLost | internal/cfgsync/publish.go:99-108 | until a set-mode publish: stored order kept as a prefix, every landed delta's rules still there, a side all deltas omit unchanged |
| PublishRuns.DistinctVersions | internal/cfgsync/publish.go:176-179 | each append returns the version of its own landing, so no two return the same |
| PublishRuns.PublishedIsNoOlder | internal/cfgsync/publish.go:74-82 | a set-mode call returns a version no older than its own write |
| PublishRuns.GivingUpMeansContention | internal/cfgsync/publish.go:28-31 | giving up means at least eight landings since the call began, none its own |
| PublishRuns.EightAttempts | internal/cfgsync/publish.go:120-181 | an append makes eight attempts and no more |
| PublishRuns.RefusedCallsLeaveNoTrace | internal/cfgsync/publish.go:115-181 | a call that gave up or was rejected has landed nothing |
| PublishRuns.LandsAtMostOnce | internal/cfgsync/publish.go:53-182 | no call lands more than once, however it ended |
| PublishRuns.FaultLandsIff | internal/cfgsync/publish.go:64-80 | from every reachable state: a call ended by a database fault has its write stored if and only if the fault struck the read-back, or left the write itself applied, which for an append needs that nothing landed since its fetch |
| PublishRuns.EndedStays | internal/cfgsync/publish.go:53-182 | what has ended never changes or lands later, whatever other calls do |
| PublishRuns.ReadBackFaultHasLanded | internal/cfgsync/publish.go:74-80 | a run in which a set-mode call returns an error because its read-back failed, and its write is stored |
| PublishRuns.LostReplyHasLanded | internal/cfgsync/publish.go:167-175 | a run in which an append returns an error because its reply was lost, and its write is stored |
| PublishRuns.AttemptEnds | internal/cfgsync/publish.go:167-179 | an attempt lands exactly when nothing landed since its fetch, else it goes round again |
| ConfigRuns.NextKeepsInv | internal/cfgsync/cfgsync.go:122-148 | every event of publishers, watchers and workers keeps the end-to-end invariant |
| ConfigRuns.LiveIsStored | internal/parser/parser.go:34-48 | a watcher's live filter is the stored filter at its last version, or the startup filter before the first |
| ConfigRuns.DecidedByOneVersion | internal/process/core/processor.go:93-104 | every line is decided as one version would decide it, wherever swaps fell; versions never go back along a worker; behind the gate none is the startup filter |
| ConfigRuns.PodKeeps | internal/role/daemon/report.go:135-162 | a gated pod ingests only after its watcher is ready |
| Documents.WriteAllAt | internal/dao/store/store.go:97-112 | a batch acts on each key independently |
| WriteModels.SplitFields | internal/dao/store/writemodel.go:28-39 | identifier fields and business fields are disjoint and together the document |
| WriteModels.IdentifierFields | internal/dao/store/writemodel.go:14-39 | which seven fields are identifiers |
| WriteModels.MetaMaxUpdate | internal/dao/store/writemodel.go:61-82 | the loop computes the split of any meta map |
| WriteModels.MetaMaxSplits | internal/dao/store/writemodel.go:57-82 | every identifier field goes to exactly one of `$set` and `$max`, with its value, and only `_ts` to `$max` |
| WriteModels.ToEachFields | internal/dao/store/writemodel.go:189-200 | an array appends its items, anything else itself |
| WriteModels.UserWriteModel | internal/dao/store/writemodel.go:120-186 | for any record: writes the user id into it and builds the operation's model, whose meaning the lemmas below and `WriteOrder.UserAddOnView` state |
| WriteModels.EventWriteModel | internal/dao/store/writemodel.go:207-254 | for any record: keys and stamps it if it was not, and builds the operation's model |
| WriteModels.UserModelConflictFree | internal/dao/store/writemodel.go:100-186 | no two operators of one model name the same field |
| WriteModels.GuardedOverlay | internal/dao/store/writemodel.go:41-55 | a guarded overlay is applied unless the stored `_ts` compares above the record's in BSON order; else it fails as a duplicate key |
| WriteModels.UserSetMeans | internal/dao/store/writemodel.go:127-134 | user_set overlays every field of the record, unless the stored document is newer |
| WriteModels.UserUnsetMeans | internal/dao/store/writemodel.go:146-162 | user_unset removes the named fields, unless the stored document is newer |
| WriteModels.UserSetOnceMeans | internal/dao/store/writemodel.go:136-139 | user_setOnce writes business fields only on insert, and the timestamp only moves forward |
| WriteModels.UserAppendMeans | internal/dao/store/writemodel.go:168-171 | user_append: refused exactly if a named field is stored as something else than an array; else each business field ends as its stored items followed by the record's, one by one, `_ts` only moves forward and all else stays |
| WriteModels.UserUniqAppendMeans | internal/dao/store/writemodel.go:173-176 | user_uniq_append: the stored items stay first, exactly the record's are there as well, none twice |
| WriteModels.UniqAppendTwice | internal/dao/store/writemodel.go:173-176 | so repeating it changes no business field |
| WriteModels.UserDelMeans | internal/dao/store/writemodel.go:164-166 | user_del leaves no document, whatever its age |
| WriteModels.TrackUpdateMeans | internal/dao/store/writemodel.go:231-237 | track_update: every field of the record, the others as they were, unless the stored event is newer |
| WriteModels.TrackOverwriteMeans | internal/dao/store/writemodel.go:239-245 | track_overwrite: exactly the record, unless the stored event is newer |
| WriteModels.TrackMeans | internal/dao/store/writemodel.go:222-229 | any other event: the record if there is none with its key, else nothing |
| BulkRetry.UserModelsRetryable | internal/dao/store/writemodel.go:127-166 | user_set, user_unset and user_del are retryable |
| BulkRetry.EventModelsRetryable | internal/dao/store/writemodel.go:207-254 | so is every event operation |
| BulkRetry.StepMeans | internal/dao/store/writemodel.go:41-55 | a retryable write is an assignment of fields, admitted by its guard, an insert if absent, or a delete |
| BulkRetry.RunEnds | internal/dao/store/writemodel.go:41-55 | where any run of guarded writes on one key ends |
| BulkRetry.RunTwice | internal/dao/store/store.go:97-112 | running a retryable batch again changes nothing, from any document or none |
| BulkRetry.SameAtEveryKey | internal/dao/store/store.go:81-105 | only the order within each key matters, as the batches are unordered |
| BulkRetry.PrefixThenAll | internal/dao/store/store.go:97-125 | one failed attempt that applied some prefix of the batch at every key leaves no trace after a full one |
| BulkRetry.RetryTransparent | internal/dao/store/store.go:97-137 | any number of failed attempts, each of which applied some prefix at every key, and then a full one leave what one clean attempt leaves |
| BulkRetry.GapIff | internal/dao/store/store.go:97-125 | an attempt that applied the second of two overlays of one key but not the first: from any collection the retry ends as a clean run does if and only if the timestamps are equal, the older write would be refused anyway, or nothing only it sets is new |
| BulkRetry.GapLosesAWrite | internal/dao/store/writemodel.go:41-55 | from no document that is: it does not exactly when the timestamps differ and the older write sets a field the newer does not |
| Store.IsOnlyDuplicateKey | internal/dao/store/store.go:145-159 | true exactly for one or more duplicate-key errors and nothing else |
| Store.Store.BulkWrite | internal/dao/store/store.go:97-137 | any models, ordered or not, any faults: it ends with the first attempt that lands, or fails when the time is up, counting each retry; a retryable batch, after faults that each applied a prefix at every key, ends as if sent once |
| Store.SucceedsIff | internal/dao/store/store.go:97-137 | it succeeds if and only if some attempt within the time that the server carried out met no error other than a skip for a newer record; else it has used all its time |
| Store.SpoilsIff | internal/dao/store/store.go:104-115 | the server reports such an error exactly when some write that is tried meets one |
| Store.Store.SendOnce | internal/dao/store/store.go:104-115 | one attempt: success is no error, or duplicate keys alone |
| Store.RetryableErrorsBenign | internal/dao/store/store.go:139-159 | retryable writes fail only as "a newer record won" |
| Store.StaleIsSkipped | internal/dao/store/writemodel.go:41-55 | an older user_set or user_unset changes nothing and counts as success |
| Store.OrderedStops | internal/dao/store/store.go:89-112 | an ordered send ends at its first error, wherever it is, with exactly the writes before it |
| Store.OrderedTriesAllIff | internal/dao/store/store.go:89-112 | it tries the whole batch if and only if no write but the last meets an error |
| Store.OrderedSkipDropsTheRest | internal/dao/store/store.go:89-112 | a benign skip at any position of an ordered batch ends it: what is before is written, the rest never tried, and it counts as success |
| WriteOrder.NewestWins | internal/dao/store/writemodel.go:239-245 | overwrites in any order, from an absent or older event, end in the newest replacement |
| WriteOrder.OverwritesConverge | internal/dao/store/writemodel.go:239-245 | any order and duplication of the same overwrites gives the same event |
| WriteOrder.TrackReplay | internal/dao/store/writemodel.go:222-229 | replaying applied track lines, in any amount, leaves every event unchanged |
| WriteOrder.UserModelIsUserWrite | internal/dao/store/writemodel.go:120-186 | every user operation but user_del either carries the guard and stamps it, or raises `_ts` with `$max` |
| WriteOrder.NoRollback | internal/dao/store/writemodel.go:117-186 | under any mix of them the stored `_ts` never decreases |
| WriteOrder.AddsCommute | internal/dao/store/writemodel.go:141-144 | two user_add records commute, also when one does not fit the stored field types |
| WriteOrder.UserAddOnView | internal/dao/store/writemodel.go:141-144 | the user_add model does to business fields and `_ts` what one add does |
| WriteOrder.UserAddsPermute | internal/dao/store/writemodel.go:100-144 | every permutation of a user_add run gives the same business fields and `_ts` |
| Processing.Processor.Process | internal/process/core/processor.go:69-122 | a line's result and counters follow the stages in order, panics included |
| Processing.Processor.AfterParse | internal/process/core/processor.go:91-104 | an empty filter is not run; a dropped record is counted and not written |
| Processing.Processor.AfterFilter | internal/process/core/processor.go:106-122 | an unresolved user is a dead letter; a write is counted before its model is built |
| Processing.StagesDecide | internal/process/core/processor.go:69-122 | what a line comes to, stage by stage: which failure is a parse error, which an identity error, and what is dropped or written |
| Processing.LinesAreSettled | internal/process/core/processor.go:65-122 | over any lines from any start: the counters the code keeps give writes + filtered + dead letters = lines + lines that panicked while their model was built |
| Processing.NoLatePanics | internal/process/core/processor.go:72-83 | so the two agree if and only if no line panicked while its model was built |
| Records.FlattenPayload | internal/parser/talog/parser.go:126-141 | both loops in any field order: properties are promoted over the root fields and then removed |
| Records.BuildRecord | internal/parser/talog/parser.go:72-100 | refuses exactly what the rules of its type refuse, else builds the record |
| Records.ParseLine | internal/parser/talog/parser.go:24-70 | a direct payload, else the first envelope key that holds one |
| Records.PayloadOf | internal/parser/talog/parser.go:24-70 | which payload a line is read from: itself if it has a marking field, else the first of msg, message and log that holds one that has |
| Records.ParsedIsStorable | internal/parser/talog/parser.go:72-124 | every parsed record is a user's or an event's, has an account or distinct id, and a document stamped with a numeric `_ts` and keyed by its own uuid |
| Records.AcceptedIff | internal/parser/talog/parser.go:72-124 | exactly which payloads are accepted |
| Records.RecordFields | internal/parser/talog/parser.go:72-141 | which payload field each part of a record is; properties are over the root fields, and time, uuid and stamp over both |
| Ingest.LatePanicIff | internal/process/core/processor.go:113-120 | a record panics after it was counted as a write exactly when it is a user record with a nil document that reaches the builder |
| Ingest.ParsedNeverPanicsLate | internal/process/core/processor.go:85-120 | no line does, as the parser never yields such a record |
| Ingest.ResolvedByItsIds | internal/process/core/processor.go:91-120 | the user id is resolved from the payload's account and distinct id, the filter sees the document, and the model is built from it with that user id |
| Ingest.ParsedModelsRetryable | internal/process/core/processor.go:113-120 | the models built from parsed lines keep the retry promise: all event models, and user models but for user_setOnce, user_add, user_append and user_uniq_append |
| Ingest.LinesBalance | internal/process/core/processor.go:60-122 | so lines = user writes + event writes + filtered + dead letters, after any lines |
| Ingest.PipelineBalances | internal/process/pipeline/worker.go:19-53 | and at the end of every pipeline schedule, the write counters being exactly the models handed to BulkWrite |
| Uploaders.SingleUploader.Run | internal/process/single/uploader.go:50-67 | one bulk write of one model per line that has one, in order |
| Uploaders.SingleUploader.Write | internal/process/single/uploader.go:89-113 | a result goes to its kind's collection, a filtered one nowhere |
| Uploaders.BatchUploader.Run | internal/process/batch/uploader.go:67-117 | each collection gets the models of the lines in order; every flush but the last carries exactly the batch size, the last one less; nothing is left behind |
| Uploaders.BatchUploader.Flush | internal/process/batch/uploader.go:140-165 | sends each non-empty batch once |
| Uploaders.SameDatabase | internal/process/batch/uploader.go:136-165 | how models are grouped into bulk writes does not change what they leave |
| Uploaders.BatchRefinesSingle | internal/process/batch/uploader.go:1-10 | for every batch size: same models in the same order, same collections, same counters as one line at a time, and these balance but for late panics |
| FlushThreshold.HitsTheSizes | internal/process/pipeline/dynamicbatch.go:22-75 | the threshold is the largest, initial and smallest size at ratios 0, 1/2 and 1 |
| FlushThreshold.NearestToTheLine | internal/process/pipeline/dynamicbatch.go:61-75 | in between it is the whole number nearest to the straight line between two sizes |
| FlushThreshold.Sanitize | internal/process/pipeline/dynamicbatch.go:22-50 | each bound is as given or raised to the one below it, the smallest at least 1 |
| FlushThreshold.NonIncreasing | internal/process/pipeline/dynamicbatch.go:22-75 | more backlog never raises it, across both pieces, rounding included |
| FlushThreshold.WithinBounds | internal/process/pipeline/dynamicbatch.go:22-85 | it stays within the sanitized bounds on every input |
| FlushThreshold.Config.ApplyDefaults | internal/process/pipeline/config.go:63-83 | establishes usable options and leaves usable ones alone |
| FlushThreshold.Config.ThresholdInRange | internal/process/pipeline/config.go:84-121 | with usable options the threshold is between MinBatchSize and MaxBatchSize |
| FlushThreshold.Config.DerivedSizes | internal/process/pipeline/config.go:84-121 | a quarter of the batch size, at least 1, and twice it, where no size is set |
| PipelineSteps.ClassifyKeeps | internal/process/pipeline/worker.go:99-121 | handling a line's result keeps every model written once in order or pending, and batch sizes bounded |
| PipelineSteps.DecideKeeps | internal/process/pipeline/worker.go:123-138 | so does the threshold check, which brings full batches back under the largest size |
| PipelineSteps.FlushKeeps | internal/process/pipeline/worker.go:79-84 | so does a flush |
| PipelineSteps.ClassifySendsIff | internal/process/pipeline/worker.go:99-121 | handling a result hands pending batches over exactly on a parse error that fills the dead-letter batch or finds the interval passed; else the model joins its own batch |
| PipelineSteps.DecideSendsIff | internal/process/pipeline/worker.go:123-138 | after a write they are handed over exactly if the interval has passed or one of the two batches has reached the threshold of the present backlog |
| PipelineSteps.TickSendsPending | internal/process/pipeline/worker.go:85-98 | a tick, and a worker's end, hand over everything that is pending |
| PipelineSteps.ReceiveKeeps | internal/process/pipeline/worker.go:92-99 | so does taking the oldest line off the channel, which loses none |
| PipelineSteps.SendKeeps | internal/process/pipeline/dispatch.go:25-37 | so does a line arriving in a channel with room, behind all before it |
| PipelineWorker.FlushBatch | internal/process/pipeline/worker.go:156-168 | hands a non-empty batch to BulkWrite once and empties it |
| PipelineWorker.PoolWorker.Classify | internal/process/pipeline/worker.go:99-121 | the worker's code for a result is the step |
| PipelineWorker.PoolWorker.Decide | internal/process/pipeline/worker.go:123-138 | the worker's threshold code is the step |
| PipelineWorker.PoolWorker.OnTick | internal/process/pipeline/worker.go:140-144 | the ticker's code is the step |
| PipelineWorker.Channels.Spill | internal/process/pipeline/dispatch.go:22-42 | a line goes to the first worker with room, from the affinity worker round the ring; none exactly when all are full |
| PipelineWorker.Channels.DispatchLine | internal/process/pipeline/dispatch.go:21-48 | a line goes to the worker its routing key names if that channel has room, else to the nearest round the ring that has |
| PipelineRuns.StepKeepsInv | internal/process/pipeline/dispatch.go:13-50 | every step of every schedule keeps the pipeline invariant (which worker a line goes to is in `PipelineRoutes`) |
| PipelineRuns.ExactlyOnePlace | internal/process/pipeline/worker.go:24-53 | a line taken from the input is in exactly one place: the dispatcher's hand, one channel, one worker's hands, or done |
| PipelineRuns.InOrder | internal/process/pipeline/dispatch.go:21-49 | each worker sees its lines in input order and no channel exceeds its size |
| PipelineRoutes.LinesGoHome | internal/process/pipeline/dispatch.go:21-49 | in every schedule each line went to the worker its routing key names if that channel had room at the first try; else to the nearest round the ring with room when tried; if none had, to the named one again |
| PipelineRoutes.SameKeySameWorker | internal/process/pipeline/dispatch.go:21-49 | so lines of one routing key for which no first try found a full channel went to one worker, the one the key names |
| PipelineRoutes.StepRoutes | internal/process/pipeline/dispatch.go:21-49 | every step keeps that |
| PipelineRuns.WrittenInOrder | internal/process/pipeline/worker.go:60-168 | every model is handed to BulkWrite once and in order or is pending; no user or event bulk write exceeds the largest size |
| PipelineRuns.ConfigIsUsable | internal/process/pipeline/config.go:84-121 | a defaulted configuration gives a usable setup whose largest size is MaxBatchSize |
| PipelineRuns.SomethingMoves | internal/process/pipeline/dispatch.go:44-48 | deadlock freedom: until all is done some step other than a tick is enabled |
| PipelineRuns.MeasureFalls | internal/process/pipeline/worker.go:90-152 | every step but a tick leaves strictly less to do |
| PipelineRuns.RunsAreBounded | internal/process/pipeline/worker.go:90-152 | so no schedule takes more steps, ticks aside, than there was work |
| PipelineRuns.EndsBalanced | internal/process/pipeline/worker.go:19-53 | at the end every line is done by its worker, every model has been handed over, lines = writes + filtered + dead letters but for late panics, and the write counters are the models handed over |
| DeadLetterCap.StepFitsIff | internal/process/pipeline/worker.go:99-144 | a step of any schedule keeps every dead-letter batch, waiting or written, within the cap if and only if no error arrives on a full batch |
| DeadLetterCap.CapHoldsIff | internal/process/pipeline/worker.go:99-144 | the same over whole runs from the start |
| DeadLetterCap.CapExceeded | internal/process/pipeline/worker.go:101-144 | for every cap and one worker: a schedule from the start that ends in a dead-letter bulk write one over the cap |
| Glob.DoGlobMatch | internal/source/tailer/tailer.go:157-193 | sound and complete: true exactly when the name splits so that each `**` covers zero or more segments and every other segment matches one |
| Glob.GlobMatch | internal/source/tailer/tailer.go:149-154 | two paths match exactly when their segments do |
| Glob.StarRunCollapses | internal/source/tailer/tailer.go:161-167 | a run of `**` equals one `**` |
| Glob.StarStarDepth | internal/source/tailer/tailer.go:171-178 | a `**` before more pattern matches exactly when the rest matches at some depth |
| Glob.SingleSegment | internal/source/tailer/tailer.go:181-193 | any other segment consumes exactly one segment that it matches |
| Glob.TrailingStar | internal/source/tailer/tailer.go:168-170 | a trailing `**` accepts any remainder |
| Glob.SplitJoin | internal/source/tailer/tailer.go:149-154 | splitting at separators and joining gives the path back |
| HashRewrite.RewriteHashRefs | internal/parser/filter/filter.go:134-180 | the scan prints the mapped tokens of its source, on every byte string |
| HashRewrite.LexPrints | internal/parser/filter/filter.go:134-180 | the tokens cover the source exactly, so literals with their escapes are copied byte for byte |
| HashRewrite.RefsExactly | internal/parser/filter/filter.go:155-175 | what is rewritten is exactly the hash references outside literals |
| HashRewrite.RefReaches | internal/parser/filter/filter.go:163-175 | a reference reaches to the last letter, digit or underscore that follows |
| HashRewrite.ScannerTracks | internal/parser/filter/filter.go:134-180 | after any number of source tokens the scanner is in the same state on the output as on the source |
| HashRewrite.LexRewritten | internal/parser/filter/filter.go:134-180 | lexing the output gives the mapped tokens |
| HashRewrite.RewriteTwice | internal/parser/filter/filter.go:134-180 | rewriting twice equals rewriting once, unterminated literals included |
| HybridTail.Tail.TailFileHybridEvent | internal/source/tailer/tailer.go:663-746 | reports a stall if and only if a tick comes while there is more to read before the watcher's end, the loss of the file or cancellation; ends at the first of them, with the file and lastSize as the events up to it leave them; keeps the tail invariant throughout |
| HybridTail.Tail.Reopen | internal/source/tailer/tailer.go:722-738 | a removed or replaced file resets lastSize for the next one and takes back nothing that was sent |
| HybridTail.Tail.DeliverNext | internal/source/tailer/tailer.go:698-720 | a delivered line moves lastSize past its terminator only when it is blank or forwarded |
| HybridTail.Tail.ForwardNext | internal/source/tailer/tailer.go:764-774 | one line of a drain is forwarded unless it is blank |
| HybridTail.Tail.DrainByPoll | internal/source/tailer/tailer.go:750-786 | keeps it through any failure; success brings lastSize to the end of the file it read, failure leaves it |
| HybridTail.Tail.OneRound | internal/source/tailer/tailer.go:624-657 | one turn of the outer loop: a stall is drained |
| HybridTail.Tail.TailFileHybrid | internal/source/tailer/tailer.go:617-658 | keeps it over any rounds; a round that stalls and whose drain does not fail ends with lastSize at the end of the file; if that is the last round, every non-blank line from the start to the end of the file has been sent |
| HybridTail.Tail.NothingLost | internal/source/tailer/tailer.go:698-709 | every non-blank line between the start and lastSize has been sent at least once |
| HybridTail.Tail.NothingLostBefore | internal/source/tailer/tailer.go:722-741 | the same of every file that was removed or replaced, up to where it had been consumed |
| HybridTail.Tail.NothingInvented | internal/source/tailer/tailer.go:764-774 | every text sent since the file was opened is a non-blank line of it after the start |
| HybridTail.BetweenMeans | internal/source/tailer/tailer.go:764-774 | the lines counted are exactly the non-blank texts from a line boundary to its terminator |

## Left out

- PublishRuns.Linearizable: concurrent publishers start from an unpublished document, so every stored one passed the gate; `PublishCalls`, `Watchers` and `Publish` cover arbitrary stored documents.
- Identity calls with both ids empty: the parser rejects such records (`Records.ParsedIsStorable`).
- IdentityResolvers.RunCalls: has no database faults and no interleaving inside a call; `IdentitySteps` has both.
- Retry of user_add, user_append and mixed user_uniq_append batches: a prefix applied twice is counted twice, so the code does not give it.
- BulkRetry.RetryTransparent: assumes every failed attempt applied a prefix of the batch at each key; `GapIff` says when a gap within a key is harmless.
- Store.Store.BulkWrite: the time for retries is a number of attempts, and a write-concern error is one of the faults.
- Update paths with dots or `$`: field names are flat.
- The order of sub-documents in `$max` and `$lte`: two different ones count as unordered.
- WriteOrder.UserAddsPermute: exact numbers, not 64-bit floats or integer overflow.
- FlushThreshold.NonIncreasing: exact reals, not 64-bit floats.
- Versions stored as fractional numbers, which the code truncates.
- A watcher without an applier, which only tracks versions.
- Change streams, polling and backoff timing: any stored version may be delivered at any time, and time is an input.
- ConfigRuns.DecidedByOneVersion: one holder per pod and loads and swaps atomic, as the atomic pointer makes them; memory ordering is not modelled.
- Cancellation of the pipeline and of the batch uploader: a flush on a cancelled context can drop models, so the code gives less there.
- Write errors of the uploaders and the pipeline: "handed to BulkWrite" is what is proved, and the write-error counter is not modelled.
- HybridTail.Tail.TailFileHybrid: no truncation in place, no replacement between a stall and its drain, no partial or over-long lines, and no carriage returns; a char stands for a byte.
- HybridTail.Tail.TailFileHybridEvent: a removal or replacement is found by the ticker; the watcher library's own reopening is not modelled.
- Single-segment glob matching (`filepath.Match`), expr-lang, JSON decoding, routing-key extraction: uninterpreted.
- Choosing the publish mode by name, HTTP gateway, cli, client facade, config loading, roles other than the ingestion gate, EJSON and SQL faces, fd watchdog: plumbing.

# The user microservice, modelled

A Dafny model of the parts of the user service where state, arithmetic and branching meet, with
proofs about whole runs of them: the versioned-namespace cache and everything around it, the nightly
batch allocator, the bulk membership update, the tenant hierarchy, and the queries and regroupings
behind the search endpoints. `dafny verify dfyconfig.toml` checks all of it.

## The cache

Entries are never deleted. Each namespace has a counter; the key of an entry embeds the counter of its
own namespace and of every namespace it depends on; invalidating means raising a counter after the
database commit.

- **CacheSteps** takes readers and writers as a step system: an operation may be skipped by the open
  circuit, fail, or be given up on and land later, entries may vanish, and steps interleave freely. In
  **CacheProtocol** an inductive invariant over all runs gives freshness: a read reflects every commit
  whose INCR of one of its namespaces had finished when the read began. That holds as it stands for
  loaders that read everything themselves.
- Two other kinds of loader bring a part from before: a row fetched before the versions were read, or what
  another cached read gave. **EarlyParts** has the exact condition under which that part keeps up, and
  freshness where no load is overtaken; **StaleReads** has the runs that go stale where one is, or where a
  commit is not announced.
- **EntryKeys** proves when two reads print one key, with a counterexample for every condition.
  **CacheCallers** lists all the call sites of the service, each with what its key is made of and with the
  one argument a key leaves out, the year of a user's cohorts; a search stands for its body by the body's
  hash. It says exactly which reads share an entry, and which kind each loader is of, and carries freshness
  and staleness over to them. Announcing what one changes is the callers' duty and stays a hypothesis
  (`Announces`) of `SettledReadsAreAtomic`.
- **CacheService** is the same service as one caller sees it, as a class with its two circuit-breaker
  fields, specified in **CacheReads** and **CacheBumps**. Single and bulk reads look and store under the
  one key that the versions of all their names have now; so they give what the loader gives wherever what
  is found under that key does, whatever older entries hold, for any failures and any breaker state.
  **CacheCoherence** says which reads a commit and an invalidation leave right, and **ReadAfterWrite** puts
  the two together: a read after a write whose invalidation reached it gives the new answer.
  **OwnerFields** is a client of the bulk read.
- **CircuitBreaker** bounds how often a dead cache is touched, and shows the bound is reached.
  **VersionStores** and **StoreRefinement** compare the two counter stores, **CacheMetrics** the
  counters of lookups, **CacheKeyUtil** the canonical text that is hashed into sub-keys.

## The rest

- **BatchAllocator**, **BatchPlaces**, **BatchGains**: first-fit placement with its nested loops, early exits and caught
  failures. A call to the database returns, throws undone, or throws after taking effect; capacity,
  accounting and the exact number of rows a user gains hold for all of these, completeness when nothing
  fails or, what comes to the same, no error is listed.
- **BulkMembers**, **BulkAnswers**, **BulkWrites**: taking away and giving cohorts in place. The final row of every seat
  (user, cohort, year) is a function of its row before and of how often the request names it; under any
  failures it follows from the writes the request comes to make, and so does whether the cache hears of it.
- **ParentChains**, **TenantForest**, **CohortHierarchy**: chains of parents, the circle check of tenant
  updates over ids that have several spellings, and the recursion that lists the cohorts below a root.
- **FieldFilter**, **ProtoFilters**: the custom-field search as a chain of joins with numbered
  placeholders, against the EXISTS form it stands for, and the cached answer that several searches share.
- **CenterPlaces**, **GeoHierarchy**, **GeoAnswers**: reading the places of centers out of their custom fields, and
  grouping the centers by place. **UserPaging**: paging users before their roles are joined and regrouped.

The objects of the service that update fields are classes here. Where a loop keeps state, the method is
proved equal to a function on that state, and the properties are lemmas about the function.

## Where the code and what it says differ

The model follows the code.

- A second INCR that meets a concurrent one does not over-invalidate, as the comment at
  `src/cache/stores/redis-version-store.ts:31-33` has it: the counters that readers see are exactly those
  of the memory store (`StoreRefinement.InterleavedRedisIsMemory`).
- The cohorts of a user are loaded for one academic year and cached without it
  (`src/cohort/cohort.service.ts:1379-1385`, `:1435-1437`), so that a request for another year is given
  the first one's answer (`CacheCallers.TwoYearsOneEntry`, `CacheCallers.SharedReadsHaveOneAnswer`).
- A cohort read fetches its row before it asks the cache (`src/cohort/cohort.service.ts:88-120`), and
  searches over users, cohorts and members build on other cached reads (`src/user/user.service.ts:987`,
  `:1033`, `src/cohort/cohort.service.ts:1112`, `src/cohortMembers/cohortMembers.service.ts:526`). Each can
  leave an old answer under the new versions (`CacheCallers.CohortReadGoesStale`,
  `CacheCallers.SearchGoesStale`).
- The context names of form fields are taken from the query as they come
  (`src/fields/fields.controller.ts:215-224`) and run together with a colon
  (`CacheCallers.FormFieldsAloneIff`). The tenant headers of form/read (`src/forms/forms.controller.ts:57`)
  and fields/search (`src/fields/fields.controller.ts:107`), and that of user/read, are not checked, and
  the words that stand for no tenant are accepted there (`CacheCallers.TenantWordsCollide`).
- Two requests that differ in a property named `__proto__` share a hash, because assigning to that name
  adds no property (`CacheKeyUtil.ProtoIsLost`). Sorting keeps a value exactly when it has no such
  property (`CacheKeyUtil.SortValueKeepsIff`). The user and cohort searches fill their field filter by
  assignment, so that the property is lost before it gets to the filter; `ProtoFilters.SameKeyAlikeIff`
  is about the filter itself.
- A create request that carries the id of an existing tenant overwrites that tenant's parent without the
  circle check of updates, so the hierarchy can close up (`TenantForest.CreateCanClose`). An update whose
  body carries a `tenantId`, which the validation at `src/tenant/tenant.controller.ts:81` lets through,
  renames the tenant and leaves its children without a parent (`TenantForest.UpdateCanOrphan`). The circle
  check of updates compares texts (`src/tenant/tenant.service.ts:459`, `:489-504`), while the database finds
  rows by uuid value: an id in upper case passes the check and can become its own parent or its child's
  child (`TenantForest.UpperCaseCanClose`, `TenantForest.UpperCaseParentCanClose`). No other kind of request
  breaks the hierarchy (`TenantForest.ApplyKeepsForestIff`). An update to an empty name skips the uniqueness
  check (`TenantForest.ApplyKeepsNamesIff`).
- The recursion over cohorts does not end if the root is on a cycle of parents, which `updateCohort` does
  not prevent (`CohortHierarchy.RecursionEndsIff`).
- A user with two differing mappings to one tenant is on a page twice and listed once, so the answer is
  shorter than the page (`UserPaging.AnswerIsThePage`).
- A bulk membership request that names a user or a cohort twice ends with ACTIVE and not with the
  requested status, except for the tenant whose id is written into the code (`BulkMembers.FinalState`). A failed search for a user's record leaves the changes
  made so far without any cache invalidation (`BulkWrites.ThrowLeavesChangeUnannounced`), and so does a
  save that stores its row and throws (`BulkWrites.StoredRowGoesUnannounced`).
- The allocator puts a user into two batches when a mapping update throws after the row was saved
  (`BatchGains.FailedUpdatePlacesTwice`), when a save throws after storing its row
  (`BatchGains.LandedSavePlacesTwice`), and when the list has the user twice and the first batch is
  full after the first time (`BatchGains.ListedTwicePlacedTwice`).
- A page past the end reports a total of zero (`UserPaging.TotalIsRightIff`).

## Model

| member | source | states |
|---|---|---|
| `CacheProtocol.IncrRaises` | src/cache/stores/redis-version-store.ts:27-35 | one raw INCR keeps the counter invariants, and one that finishes an `incr` leaves the effective version strictly higher |
| `CacheProtocol.HitIsFresh` | src/cache/cache.service.ts:66-73 | under the invariant, an entry found under the versions just read was loaded after every commit those versions account for |
| `CacheProtocol.StepKeepsInv` | src/cache/cache.service.ts:64-88 | every step of readers, writers, late SETs and INCRs, early fetches and evictions keeps the invariant |
| `CacheProtocol.InvAlways` | src/cache/cache.service.ts:50-88 | the invariant holds after every sequence of steps |
| `CacheProtocol.OnlyResultsAreCached` | src/cache/cache.service.ts:240-244 | no run ever stores null, undefined, false or an empty array |
| `CacheProtocol.RunGrows` | src/cache/cache.service.ts:267 | over any interleaving, whatever the keys, no effective version ever decreases |
| `CacheProtocol.FinishedIncrWasSeen` | src/cache/stores/redis-version-store.ts:27-35 | an `incr` that finishes, with anything in between its two commands, leaves the effective version strictly above any value it had while the `incr` was under way |
| `CacheProtocol.ReadsAreFresh` | src/cache/cache.service.ts:250-269 | freshness: a read that begins after some INCRs have finished returns what its loader gives when all it reads itself includes all their commits, over every interleaving; for a loader that reads everything itself that is the whole answer |
| `CacheProtocol.ReadsCanFinish` | src/cache/cache.service.ts:64-88 | no read depends on the cache to end: from any point of any run its own steps lead it to an answer, the loader's for the database as it is if it has not loaded yet |
| `EarlyParts.UnovertakenReadsAreFresh` | src/cache/cache.service.ts:64-88 | a read of any kind is fresh in all its parts where no load of it was overtaken: its early part includes every commit that its versions, or the INCRs finished at its start, account for |
| `EarlyParts.FetchedRowKeepsUpIff` | src/cohort/cohort.service.ts:88-109 | the exact condition for a row fetched before the versions: it keeps up if and only if it was fetched after the commit of every INCR of the read's names that has finished when the versions are read |
| `EarlyParts.BuiltPartKeepsUpIff` | src/fields/fields.service.ts:1762-1768 | the same for a loader that builds on another read: it keeps up if and only if what the other read returned was loaded after the commit of every INCR of the outer read's names that had finished when the outer versions were read |
| `EarlyParts.WiderInnerKeepsUp` | src/user/user.service.ts:985-990 | so it always does when the names of the other read hold all of the outer one's |
| `StaleReads.OvertakenLoadGoesStale` | src/cache/cache.service.ts:79-85 | the condition is needed: wherever a load was overtaken and its result shows it, storing it gives the old answer to a later read that begins after the INCR |
| `StaleReads.PrefetchedReadGoesStale` | src/cohort/cohort.service.ts:88-109 | such a run for a row that is fetched first |
| `StaleReads.ReadThroughGoesStale` | src/user/user.service.ts:987-990 | such a run for a loader that builds on another cached read |
| `CacheProtocol.SettledReadsAreAtomic` | src/cache/cache.service.ts:183-211 | with callers that announce what they change, a read whose loader reads everything itself, begun when all invalidations have finished, returns the loader's answer for some moment between its start and its end |
| `StaleReads.UnannouncedCommitGoesStale` | src/cache/cache.service.ts:198-208 | the hypothesis is needed: after a commit whose one INCR was skipped a later read returns the old answer |
| `StoreRefinement.InterleavedRedisIsMemory` | src/cache/stores/redis-version-store.ts:27-35 | over every interleaving of raw INCRs the effective versions are those of the memory store on the same `incr` calls in the order in which they finish |
| `VersionStores.MemoryCacheVersionStore.Mget` | src/cache/stores/memory-version-store.ts:15-17 | the counters in the order of the keys, undefined where there is none |
| `VersionStores.MemoryCacheVersionStore.Incr` | src/cache/stores/memory-version-store.ts:19-23 | the new counter is the effective version plus one, the others stay |
| `VersionStores.RedisCacheVersionStore.Mget` | src/cache/stores/redis-version-store.ts:20-25 | the same over the raw client |
| `VersionStores.RedisCacheVersionStore.Incr` | src/cache/stores/redis-version-store.ts:27-35 | one INCR, and a second one when the first yields 1 |
| `VersionStores.SequentialStoresAgree` | src/cache/stores/redis-version-store.ts:27-35 | after the same sequence of `incr` calls both stores hold the same counters |
| `VersionStores.SingleIncrVisible` | src/cache/stores/redis-version-store.ts:31-33 | a single raw INCR is visible to readers if and only if the counter was there; the double one always adds exactly one |
| `EntryKeys.EntryKeyInjective` | src/cache/cache.service.ts:250-257 | for one namespace and dependency list the printed key determines the sub-key and every embedded version |
| `EntryKeys.KeysNeverCollide` | src/cache/cache.service.ts:250-257 | among disciplined reads the printed key determines namespace, sub-key, dependencies and all versions |
| `EntryKeys.AgreeingVersionsPrintOneKey` | src/cache/cache.service.ts:250-257 | the other way round: a read has one key for all versions that agree on its names |
| `EntryKeys.UncleanNamespaceCollides` | src/cache/cache.service.ts:252 | a namespace that contains a version mark lets two reads print one key |
| `EntryKeys.UncleanKeyCollides` | src/cache/cache.service.ts:253-255 | so does a sub-key that ends like an embedded version |
| `EntryKeys.HiddenDepCollides` | src/cache/cache.service.ts:253-255 | so does a dependency that another one ends with |
| `EntryKeys.FamilyNamespaceClean` | src/cache/cache.metrics.ts:25-27 | a `family:id` namespace is free of version marks if and only if the id with its colon is: for an id without colons, if and only if it does not start with `v` and a digit |
| `CacheCallers.CallersAreDisciplined` | src/cohort/cohort.service.ts:106-119 | every set of reads of the service's call sites is disciplined; ids are taken as checked only where the call site checks them, and headers it takes as they come hold no version mark |
| `CacheCallers.TenantBumpsReach` | src/cohortMembers/cohortMembers.service.ts:78-82 | exactly which reads have a tenant's user list, membership or cohort namespace among their names, and so are reached by bumping it |
| `CacheCallers.UserBumpsReach` | src/user/user.service.ts:985-990 | the same for the namespaces of a user |
| `CacheCallers.FieldBumpsReach` | src/fields/fields.service.ts:67-70 | bumping the field definitions reaches all reads but those of tenants, user lists, core rows, tenant mappings, roles and user filters |
| `CacheCallers.SameRequestIff` | src/cohortMembers/cohortMembers.service.ts:78-82 | two reads have one namespace, sub-key and dependency list if and only if they are the same read, or differ only in the year of a user's cohorts, in a word for no tenant, or in context names that run together to one text |
| `CacheCallers.ReadsShareAnEntryIff` | src/cache/cache.service.ts:250-257 | over all call sites and versions, two reads print one key if and only if that is so and the versions of all their namespaces agree |
| `CacheCallers.NoTwoReadsShareAnEntry` | src/cache/cache.service.ts:250-257 | where the reads in use hold no such pair, different reads never share an entry, at any versions |
| `CacheCallers.TwoYearsOneEntry` | src/cohort/cohort.service.ts:1379-1385 | the cohorts of one user in two academic years do share one |
| `CacheCallers.SharedReadsHaveOneAnswer` | src/cohort/cohort.service.ts:1429-1437 | each read gets its own loader's answer only if the reads that share an entry have the same answer |
| `CacheCallers.UnsharedReadsCanBeServed` | src/cache/cache.service.ts:50-88 | and always if no two reads in use share one |
| `CacheCallers.DirectReadsAreFresh` | src/cache/cache.service.ts:259-269 | freshness of every read whose loader reads everything itself, among all reads of the service, with no condition on keys left |
| `CacheCallers.UnovertakenReadsAreFresh` | src/cohort/cohort.service.ts:88-120 | freshness of every read of the service, cohort reads and searches included, where no load of it was overtaken |
| `CacheCallers.CohortReadGoesStale` | src/cohort/cohort.service.ts:88-109 | a cohort read whose row was fetched before a finished rename leaves the old row to later reads |
| `CacheCallers.SearchGoesStale` | src/cohort/cohort.service.ts:1108-1116 | a search built on a cached field filter, or on cached custom fields, leaves the old result to later reads |
| `CacheCallers.FormFieldsAloneIff` | src/fields/fields.service.ts:67-70 | a read of form fields has its entry to itself if and only if both names are given, neither is the word "none", and neither has a colon but at the outer ends |
| `CacheCallers.TenantWordsCollide` | src/fields/fields.controller.ts:98-110 | a tenant header "global" or "no-tenant" makes a read one with the read without a tenant |
| `CacheCallers.UnplainTenantCollides` | src/fields/fields.controller.ts:107-109 | the condition on headers taken as they come is needed: one that holds a version mark prints the key of another call site's read |
| `CacheCoherence.Setting.RightAfterCommitIff` | src/cache/cache.service.ts:183-211 | after a commit and the INCRs that follow it, a read that was right is right again if and only if its answer did not change, or the version of one of its names rose, or nothing was stored for it |
| `CacheCoherence.Setting.CoherentAfterCommit` | src/cache/cache.service.ts:183-211 | so all reads are right again once each commit that changes an answer has raised a name of that read |
| `CacheCoherence.Setting.AnswersKeep` | src/cache/cache.service.ts:81-85 | storing answers under the current keys of their reads leaves every read as right as it was and puts no entry ahead of its versions |
| `CacheCoherence.Setting.KeyOfTheSteps` | src/cache/cache.service.ts:66-67 | the key the service looks up is the one the steps of the interleaved cache look up |
| `CacheCoherence.Bulk.WrittenBackKeeps` | src/cache/cache.service.ts:154-165 | the same for the write-back of a bulk read |
| `CacheCoherence.Bulk.AnswersAddUp` | src/cache/cache.service.ts:120-152 | hits and loaded answers together are the answers for all ids where the hits are right |
| `CacheServiceModel.CacheService.CacheableIff` | src/cache/cache.service.ts:232-237 | a namespace is cached if and only if the switch is on and neither it nor its family is disabled |
| `CacheServiceModel.CacheService.ExecuteOp` | src/cache/cache.service.ts:302-330 | an operation is skipped if and only if the circuit is open; one that fails or times out may still take effect; the breaker follows `CircuitBreaker.AfterCall` |
| `CacheServiceModel.CacheService.ResolveVersions` | src/cache/cache.service.ts:260-269 | the effective version of exactly the names asked for, or nothing when the operation fails |
| `CacheServiceModel.CacheService.BuildEntryKey` | src/cache/cache.service.ts:250-257 | the loop prints the key whose injectivity `EntryKeys` proves |
| `CacheServiceModel.CacheService.TryCache` | src/cache/cache.service.ts:64-77 | the versions are those of all the names of the read, what is found is the entry under the key they print, and the outcome counted is a hit or a miss by what is there if both lookups work, else an error |
| `CacheServiceModel.CacheService.GetOrLoad` | src/cache/cache.service.ts:50-88 | a hit gives the entry under the current key and writes nothing; anything else gives the loader's answer, which is stored under that key and no other if it can be cached and when the SET works; so the result is the loader's wherever the entry is; at most three operations are made, and exactly one outcome is counted |
| `CacheServiceModel.CacheService.Invalidate` | src/cache/cache.service.ts:188-211 | one call for every namespace, each once, all started in order before any ends; a namespace has no call if and only if the circuit was open when its turn came; the breaker follows the ends of the calls, in whatever order they come; those reported as bumped are those whose call worked, and their versions rose by one; the others' stay, but for calls that failed after landing; with the circuit closed and no failure all rise |
| `ReadAfterWrite.GetAfterWrite` | src/cache/cache.service.ts:50-88 | a read after a commit and its invalidation gives the new loader's answer if that is the old one's or a name of the read was bumped; and if the bumps reached every read that changed, the cache is fit for all reads again |
| `ReadAfterWrite.BulkGetAfterWrite` | src/cache/cache.service.ts:95-181 | the same for the ids of a bulk read |
| `CacheServiceModel.CacheService.Sift` | src/cache/cache.service.ts:120-133 | one pass splits the ids, with multiplicity, into hits with their values and misses, and counts one outcome each |
| `CacheServiceModel.CacheService.Backfill` | src/cache/cache.service.ts:154-165 | only cacheable answers of missed ids are written, under their own current keys, and all of them when it works; no call is made when there are none |
| `CacheServiceModel.CacheService.BulkGetOrLoad` | src/cache/cache.service.ts:95-181 | each id is looked up and stored under its key for the current versions of all its names; the result is the loader's answer for all ids wherever the hits are right; missed ids plus hits are the ids as a multiset; every cacheable id counts one outcome, a hit or a miss by what is there if both lookups work; at most three operations however many ids |
| `CacheReads.RecordedTotals` | src/cache/cache.metrics.ts:29-37 | each counter of a family grows by the number of the family's lookups with that outcome |
| `CacheMetricsModel.CacheMetrics.Record` | src/cache/cache.metrics.ts:29-37 | one counter of the namespace's family rises by one, all others stay |
| `CacheMetricsModel.CountedAt` | src/cache/cache.metrics.ts:29-37 | one record adds one to one counter of its own family and nothing to any other |
| `CircuitBreaker.AlwaysSane` | src/cache/cache.service.ts:336-357 | after every run a nonzero `circuitOpenUntil` implies at least `cbFailures` consecutive failures |
| `CircuitBreaker.AttemptsAreBounded` | src/cache/cache.service.ts:302-357 | if every attempt fails, a sequential run from any reachable state makes at most max(1, cbFailures) + (t1 - t0) / cbCooldownMs attempts between t0 and t1 |
| `CircuitBreaker.BoundIsReached` | src/cache/cache.service.ts:302-357 | for every number of cooldowns some run meets that bound |
| `CircuitBreaker.SuccessCloses` | src/cache/cache.service.ts:336-339 | one success resets both fields, whatever went before |
| `CacheKeyUtil.SortKeysSorts` | src/cache/cache-key.util.ts:8-9 | `sort()` on distinct names gives them in code-unit order |
| `CacheKeyUtil.ReduceIs` | src/cache/cache-key.util.ts:10-13 | the fold rebuilds exactly the named properties but `__proto__`, in enumeration order with indices first |
| `CacheKeyUtil.SortValueIs` | src/cache/cache-key.util.ts:3-16 | the sorted value is canonical at every depth and says what the value says without its `__proto__` properties |
| `CacheKeyUtil.CanonicalUnique` | src/cache/cache-key.util.ts:3-16 | two canonical values that say the same are equal, objects counting as unordered collections and arrays as sequences |
| `CacheKeyUtil.SortsAlikeIff` | src/cache/cache-key.util.ts:18-22 | two values sort to one if and only if they say the same, `__proto__` aside |
| `CacheKeyUtil.SortValueIdempotent` | src/cache/cache-key.util.ts:3-16 | sorting twice is sorting once |
| `CacheKeyUtil.SortValueKeepsIff` | src/cache/cache-key.util.ts:8-13 | sorting preserves every name-to-value map if and only if no property at any depth is named `__proto__` |
| `CacheKeyUtil.PrintInjective` | src/cache/cache-key.util.ts:23-25 | the JSON text, with its escapes, determines the value |
| `CacheKeyUtil.PrintedIs` | src/cache/cache-key.util.ts:23-25 | what is printed is canonical and says what JSON can say of the value without `__proto__` properties: undefined properties are dropped and undefined items are null, at every depth |
| `CacheKeyUtil.SameKeyIffSameMeaning` | src/cache/cache-key.util.ts:18-25 | two requests, undefined members included, get one hash if and only if JSON says the same of them, `__proto__` aside, for a digest without collisions |
| `CacheKeyUtil.SameKeyIffSameRequest` | src/cache/cache-key.util.ts:18-25 | without `__proto__` properties and undefined members, exactly the requests that say the same share a hash |
| `CacheKeyUtil.ProtoIsLost` | src/cache/cache-key.util.ts:10-13 | an object with a `__proto__` property and one without have one hash |
| `OwnerFields.GetBulkCustomFieldDetails` | src/fields/fields.service.ts:2143-2175 | for every id the answer is what the database has or an empty list, whatever is cached and whatever fails |
| `BatchAllocator.CronService.TryBatch` | src/cron/cron.service.ts:258-399 | the inner try with its catch does to rows, counters and errors what `Tried` says |
| `BatchAllocator.CronService.Visit` | src/cron/cron.service.ts:213-401 | so do the two inner loops with their early exits |
| `BatchAllocator.CronService.AssignStudentsToBatches` | src/cron/cron.service.ts:106-415 | and the whole run from fresh counters |
| `BatchPlaces.CapacityHolds` | src/cron/cron.service.ts:276-287 | however calls end, a batch that starts with at most 100 active rows of a year never has more than 100 |
| `BatchAllocator.RunKeeps` | src/cron/cron.service.ts:287-319 | however calls end, rows are only added, no batch above capacity grows, and no user gets a second row in a batch |
| `BatchAllocator.EveryUserIsCounted` | src/cron/cron.service.ts:106-108 | however calls end, users = assigned + skipped + already members |
| `BatchPlaces.CountedAsItIs` | src/cron/cron.service.ts:380-410 | an assigned user has a new row at one of the user's places and an active mapping when the run is over, one counted as a member has a row at one of them |
| `BatchPlaces.OnlyMatchingBatches` | src/cron/cron.service.ts:163-252 | however calls end, every added row puts a listed user, remote and with a district and a block, into a batch that is listed for a cohort of that district, names that block and has a mapping for the year; the row is written out |
| `BatchPlaces.InBlockCounts` | src/cron/cron.service.ts:232-248 | the batches of a block are those listed with it, each as often as it is listed |
| `BatchPlaces.CountIs` | src/cron/cron.service.ts:276-284 | what is counted are the rows of the batch and the year that are ACTIVE |
| `BatchPlaces.TurnErrors` | src/cron/cron.service.ts:392-414 | what a user's turn adds to the errors: one for each failed try at a place of the user, and one more if the turn itself failed |
| `BatchAllocator.VisitedIsFirstFit` | src/cron/cron.service.ts:213-401 | without failures the nested loops are first-fit over one list, whose places `BatchPlaces.CandidateIsPlace` gives |
| `BatchPlaces.CandidateIsPlace` | src/cron/cron.service.ts:213-255 | each candidate stands at a place of the lists of cohorts and batches, and what is listed before it in that block comes before it |
| `BatchPlaces.FirstFitIsComplete` | src/cron/cron.service.ts:213-408 | without failures all places of a user counted as "no available batch" have a hundred active rows when the run is over, and a placed user is at the first place that had room, all earlier ones being full |
| `BatchPlaces.SilentRunIsFirstFit` | src/cron/cron.service.ts:392-434 | a run whose summary lists no error kept that promise, whatever the calls were to do |
| `BatchAllocator.QuietHasNoErrors` | src/cron/cron.service.ts:392-414 | without failures no error is recorded |
| `BatchGains.RowsGained` | src/cron/cron.service.ts:289-399 | however calls end, the rows a user gains are the times the user is placed plus the tries that stored a row and failed after it |
| `BatchGains.OnePlacementIff` | src/cron/cron.service.ts:213-401 | on a list without duplicates a user gains at most one row if and only if no try for the user failed after its save, or a single one did and the user was not placed; who is not listed gains none |
| `BatchGains.OnePlacementPerUser` | src/cron/cron.service.ts:289-391 | so each user gains at most one row and nobody else any, whichever reads fail, when no save throws after landing and no mapping update throws |
| `BatchGains.FailedUpdatePlacesTwice` | src/cron/cron.service.ts:344-353 | with a mapping update that throws one user gains two rows |
| `BatchGains.LandedSavePlacesTwice` | src/cron/cron.service.ts:317-320 | so does one with a save that stores its row and throws |
| `BatchGains.ListedTwicePlacedTwice` | src/cron/cron.service.ts:106-108 | a user listed twice gains two rows without any failure when the first batch has one place left |
| `BatchGains.AgainIff` | src/cron/cron.service.ts:213-401 | without failures a user placed before and listed again is placed again if and only if the batch of the earlier turn, by the members it held at first and the arrivals since, has filled up and the first open one is another that the user is not in |
| `BatchGains.ListedAgainIff` | src/cron/cron.service.ts:106-415 | so a user, however often listed, gains at most one row if and only if that happens at none of the later turns |
| `BulkMembers.CohortMembersService.Remove` | src/cohortMembers/cohortMembers.service.ts:1159-1209 | one removal, with its failures caught |
| `BulkMembers.CohortMembersService.Add` | src/cohortMembers/cohortMembers.service.ts:1217-1296 | one addition: an existing row is merged, else one is inserted |
| `BulkMembers.CohortMembersService.CreateBulkCohortMembers` | src/cohortMembers/cohortMembers.service.ts:1109-1321 | the whole request and the cache namespaces it bumps; nothing happens without an active academic year |
| `BulkMembers.RunKeeps` | src/cohortMembers/cohortMembers.service.ts:1146-1296 | however calls end, rows of seats the request does not name are untouched, no row changes hands, and one row per user, cohort and year stays one |
| `BulkAnswers.EveryStepIsAnswered` | src/cohortMembers/cohortMembers.service.ts:1146-1296 | however calls end, results and errors are, in order, one entry for each step: taking tells whether there was a row to take, giving tells the row that is there afterwards, a cohort without the year and an unknown user are reported, and a failure only if a call fails; affected are the users whose rows an entry tells of |
| `BulkMembers.RunView` | src/cohortMembers/cohortMembers.service.ts:1146-1296 | the row of every seat after the request as a function of its row before and of how often user and cohort are named; `FinalState` says field by field what it gives |
| `BulkMembers.FinalState` | src/cohortMembers/cohortMembers.service.ts:1119-1296 | every field of every seat, for all tenants: an added seat is ACTIVE if there was a row or user or cohort is named twice, else has the requested status or ACTIVE; for the special tenant it has the requested status, and without one a row keeps its own, or REASSIGNED if it was taken away too, and a new one is ACTIVE; removed only ends REASSIGNED; everything else unchanged; one row per seat stays one |
| `BulkMembers.SilentResponseIsFinal` | src/cohortMembers/cohortMembers.service.ts:1140-1296 | the same final state whenever the response lists no step that failed |
| `BulkWrites.RunIsAsPlanned` | src/cohortMembers/cohortMembers.service.ts:1146-1296 | however calls end, the rows of every seat, who is affected and whether a call throws out of the loop follow from the writes the request comes to make, which the years, the users and the failures alone decide |
| `BulkWrites.ReadsOfMembersDepend` | src/cohortMembers/cohortMembers.service.ts:1314-1321 | the cached reads of a tenant's members, users and own cohorts, and of a user's core row, each depend on one of the namespaces the request bumps |
| `BulkWrites.ChangesAreAnnouncedIff` | src/cohortMembers/cohortMembers.service.ts:1314-1321 | under any failures, every seat whose rows end changed is announced to the cache if and only if every seat that those writes change belongs to a user with an answered step and no search for a user throws, or they change nothing |
| `BulkWrites.EachChangeIsAnnouncedIff` | src/cohortMembers/cohortMembers.service.ts:1314-1321 | every single change, also one undone later, is announced if and only if no search for a user throws in a request that changes something, and every change by a write that took effect and threw is one to a user with an answered step |
| `BulkWrites.ThrowLeavesChangeUnannounced` | src/cohortMembers/cohortMembers.service.ts:1148-1152 | such a throw after a change does happen |
| `BulkWrites.StoredRowGoesUnannounced` | src/cohortMembers/cohortMembers.service.ts:1274-1296 | a save that stores its row and throws does it too, with no call throwing out of the loop |
| `ParentChains.ChainEnds` | src/tenant/tenant.service.ts:491-526 | in a forest every chain of parents ends |
| `ParentChains.SetParentKeepsForestIff` | src/tenant/tenant.service.ts:485-526 | giving a node a parent keeps the forest if and only if the node is not on the chain of its new parent |
| `TenantForest.TenantService.IsCircular` | src/tenant/tenant.service.ts:485-526 | the walk ends on any table the database can hold, also one with a cycle, and rejects unless it gets to the top without meeting the tenant's text |
| `TenantForest.WalkIsExact` | src/tenant/tenant.service.ts:457-526 | in a forest that is: it rejects exactly the parent's own text and the tenants above the row that text finds; with both ids in the database's spelling, the tenant itself and its descendants |
| `TenantForest.TenantService.CreateTenants` | src/tenant/tenant.service.ts:276-314 | name taken, parent missing, an existing id in another spelling refused, or the row is written, over an existing tenant too |
| `TenantForest.CreateAcceptedIff` | src/tenant/tenant.service.ts:276-314 | a create request is accepted if and only if no tenant has the name, the parent, if given, is there, and an id that is there is spelled as in the database; then exactly its row is written, with that name and the parent given, none for null, its old one if left out; every refusal has its exact condition and changes nothing |
| `TenantForest.TenantService.UpdateTenants` | src/tenant/tenant.service.ts:426-530 | rows are found by the id's value and checks made on its text: each rejection in order, or exactly the given fields change, the id among them; another tenant's id is an error and changes nothing |
| `TenantForest.UpdateAcceptedIff` | src/tenant/tenant.service.ts:426-530 | an update is accepted if and only if the tenant is there, no other row has a name given that is not empty, a parent given is there and climbing from it gets to the top without the tenant's text, and a new id is not another's; then that row and no other has the fields given |
| `TenantForest.UpdateRefusedWith` | src/tenant/tenant.service.ts:426-525 | the exact conditions of the replies not found and conflict |
| `TenantForest.ParentClashesIff` | src/tenant/tenant.service.ts:485-526 | in a forest, with both ids in the database's spelling, a parent is refused if and only if the tenant is on its chain of parents |
| `TenantForest.TenantService.DeleteTenants` | src/tenant/tenant.service.ts:343-387 | the reply is success if and only if the tenant is there and no row has it as its parent; then exactly its row is gone, and otherwise nothing changes |
| `TenantForest.ApplyKeepsForestIff` | src/tenant/tenant.service.ts:257-530 | a request keeps the hierarchy a forest if and only if it is neither a create request that moves an existing tenant under itself, nor an accepted update request that renames a tenant with children, nor one that moves a tenant under itself with its id or the parent's in a spelling other than the database's |
| `TenantForest.RunKeepsForestIff` | src/tenant/tenant.service.ts:257-530 | over every sequence of requests the hierarchy is a forest all along if and only if no request is of these three kinds when its turn comes |
| `TenantForest.RunKeepsForest` | src/tenant/tenant.service.ts:257-530 | so it stays one when create requests write new tenants and update requests leave the id as it is and give parents with both ids in the database's spelling |
| `TenantForest.CreateCanClose` | src/tenant/tenant.service.ts:293-314 | a create request with an existing id closes a circle |
| `TenantForest.UpdateCanOrphan` | src/tenant/tenant.controller.ts:76-83 | an update request with another id in its body leaves a child whose parent is gone |
| `TenantForest.UpperCaseCanClose` | src/tenant/tenant.controller.ts:82-88 | an update request with the tenant's id in upper case makes the tenant its own parent, or its child's child |
| `TenantForest.UpperCaseParentCanClose` | src/tenant/tenant.service.ts:457-467 | so does one with an upper-case parent id |
| `TenantForest.ApplyKeepsNamesIff` | src/tenant/tenant.service.ts:276-291 | a request keeps names unique if and only if it is not an accepted update to an empty name that another tenant has |
| `CohortHierarchy.GetCohortHierarchy` | src/cohort/cohort.service.ts:1301-1337 | for a root on no cycle of parents the recursion ends and lists every proper descendant of the root once and nothing else, each under its own parent in table order |
| `CohortHierarchy.ChildrenInOrder` | src/cohort/cohort.service.ts:1301-1312 | the children of a cohort are in table order |
| `CohortHierarchy.RecursionEndsIff` | src/cohort/cohort.service.ts:1301-1337 | the recursion is bounded in depth if and only if the root is on no cycle, and then by the length of the table |
| `CohortHierarchy.DeeperIff` | src/cohort/cohort.service.ts:1308-1330 | a call gets one level deeper if and only if one of its calls for the children gets as deep |
| `FieldFilter.BuildQuery` | src/fields/fields.service.ts:1776-1798 | `paramIndex` stays one ahead of the parameters, and every placeholder stands for the value, name or context it is meant for |
| `FieldFilter.JoinsAreExists` | src/fields/fields.service.ts:1776-1800 | DISTINCT over the chain of joins is the set of items for which every field has a value asked for |
| `FieldFilter.FilterUserUsingCustomFieldsUncached` | src/fields/fields.service.ts:1771-1802 | that set, each item once, null when it is empty; an empty list of values is an SQL error |
| `FieldFilter.OrderDoesNotMatter` | src/fields/fields.service.ts:1781-1798 | the selected items depend on the fields listed and not on their order |
| `FieldFilter.EntriesMeant` | src/fields/fields.service.ts:1781-1782 | the entries of the request body are what it says as an unordered collection |
| `FieldFilter.SharedAnswerIsRight` | src/fields/fields.service.ts:1755-1768 | two searches with one cache key select the same items, so a cached answer of one is right for the other |
| `ProtoFilters.SameKeyAlikeIff` | src/fields/fields.service.ts:1755-1798 | for any bodies: two searches with one cache key select the same items from every table if and only if they ask the same of a field named `__proto__`, or another field they share has no value to choose from |
| `ProtoFilters.ProtoFieldIsNotHashed` | src/fields/fields.service.ts:1763-1765 | two filters, one with a field named `__proto__` besides, have one cache key, and on a table of one user they select different users |
| `GeoHierarchy.CollectCenters` | src/cohort/cohort.service.ts:1658-1690 | each center of the memberships once, with the distinct batches of the memberships under it |
| `CenterPlaces.ExtractPlaces` | src/cohort/cohort.service.ts:1726-1768 | each place is what the last field that names one of its level says, the empty text counting as none, and unknown if no field does |
| `CenterPlaces.PlaceIsTold` | src/cohort/cohort.service.ts:1726-1768 | a place is told by the last field whose label or name is its level's word and none before it: its id, or value, is the place's id, and its label, or value, the name; empty texts do not count |
| `CenterPlaces.ShouldInclude` | src/cohort/cohort.service.ts:1770-1812 | a center passes if and only if every list of places asked for holds its place and the custom-field search found it |
| `GeoHierarchy.LocateCenters` | src/cohort/cohort.service.ts:1704-1822 | the centers asked for, with their places and whether they pass |
| `GeoHierarchy.PushGains` | src/cohort/cohort.service.ts:1832-1849 | putting a center into the nested maps adds that center on its path and changes nothing else |
| `GeoHierarchy.BuildHierarchy` | src/cohort/cohort.service.ts:1824-1850 | keys are unique at every level and the maps hold exactly the included centers on their paths |
| `GeoHierarchy.Convert` | src/cohort/cohort.service.ts:1852-1916 | the answer shows the maps place by place, unknown places as null, each named by its first center |
| `GeoHierarchy.EveryCenterOnce` | src/cohort/cohort.service.ts:1815-1850 | every included center is on the path of its own places once, and nothing else is on any |
| `GeoHierarchy.GetUserGeographicalHierarchy` | src/cohort/cohort.service.ts:1658-1925 | conservation from memberships, custom fields and filters to the answer, and the page is a slice of it |
| `GeoAnswers.AnswerIsTheCenters` | src/cohort/cohort.service.ts:1815-1916 | the answer lists an entry below a state, a district and a block if and only if it is that of a center of the memberships that passes the filters, with its batches, and these are its own places |
| `Lists.PagesAddUp` | src/cohort/cohort.service.ts:1918-1920 | consecutive pages concatenate to the whole list |
| `UserPaging.ProcessOptimizedUserResults` | src/user/user.service.ts:4495-4536 | each user once, in the order of first rows, with the distinct role names of its rows |
| `UserPaging.AnswerIsThePage` | src/user/user.service.ts:4470-4536 | whatever order ties come in, each user of the page is listed once, in sort order, with exactly its roles in the tenant; the answer is as long as the page, and is the page, if and only if no user is on it twice; the total counts filtered rows however many roles the users have |
| `UserPaging.TotalIsRightIff` | src/user/user.service.ts:4295 | the reported total is right if and only if the page has a user on it or there is none at all |

## Left out

- Controllers, request validation, response envelopes, logging, audit and Kafka publishing.
- Keycloak, SSO, storage, CAPTCHA, tokens, notifications: foreign calls.
- SHA-256 is any function without collisions; the hexadecimal form of a digest is assumed in `CacheCallers`.
- Expiry of entries is a step that may happen at any time; counters are taken never to be lost.
- The JSON round trip of cached values, and overlap of counter keys and entry keys in one Redis.
- What a loader reads itself it reads from one database snapshot; a read that builds on several others at once has one early part, the oldest.
- A tenant request is one step; other check-then-write races of the tenant service are not modelled.
- A bulk read under interleaving: its ids are separate reads of `CacheSteps`; the bulk method itself is proved for one caller.
- Which namespaces each write path bumps is a hypothesis (`Announces`), shown for the bulk membership update only. Two paths miss it: the tenant id at src/cohortMembers/cohortMembers.service.ts:663, and the member changes at src/cohort/cohort.service.ts:770.
- CacheCallers.CallersAreDisciplined: not for tenant headers that hold a version mark, where two call sites can print one key (`CacheCallers.UnplainTenantCollides`).
- CacheKeyUtil.PrintInjective: a number is its printed text and strings hold no lone surrogates.
- How the allocator reads mode, district and block out of a user's custom fields; its cache invalidation; its configuration checks.
- Membership uniqueness through `updateCohortMembers`, which may rewrite user and cohort.
- TenantForest.RunKeepsForest: a generated id is taken to be new; ids in requests are uuids in some spelling. That `save` inserts when no row it loads has the body's id as a text is how the database library works.
- BulkMembers.FinalState: users and cohorts of a request are in the database's spelling; one given in two spellings would be one seat named twice.
- CohortHierarchy.GetCohortHierarchy: custom fields of the nodes are not listed.
- FieldFilter.BuildQuery: field values are strings; the query is a structure with placeholder numbers and not text.
- GeoHierarchy.GetUserGeographicalHierarchy: the filters on memberships before step 2; field labels and names come in lower case.
- UserPaging.AnswerIsThePage: the conditions of the user query and their parameter numbers; the filtered rows are a set.
- Device lists, academic-year activation, form validation and other small helpers: short independent checks without state of their own.

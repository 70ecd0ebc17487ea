# Verification of the unified AI runtime and the zone tracker

A Dafny model of the state machines in `ai/runtime/` and of the geofencing tracker in
`Geo_fencing/geo_fencing.py`, with proofs of what they promise over every run. Objects that the program
updates in place are classes here; each method is proved equal to a step function on values, and the
theorems are about runs of those steps. `dafny verify dfyconfig.toml` checks everything.

| file | what it models |
|---|---|
| `ReaderWriterLock.dfy` | the registry's lock, as interleaved atomic sections of any number of threads |
| `Registry.dfy` | the dictionary of models and versions, seen as one flat table |
| `Admission.dfy` | concurrency slots: limits, backpressure, release, registration and unregistration |
| `Recovery.dfy` | circuit breakers with a sliding window, and the recovery manager over the registry |
| `Strings.dfy`, `Ordering.dfy`, `SemanticVersion.dfy` | numerals and dotted lists; lexicographic orders; parser, printer and order of semantic versions |
| `VersionResolver.dfy`, `LatestVersion.dfy`, `Discovery.dfy` | resolution of a version; the sort key of `latest_version`; which version directories discovery lets in |
| `Polygon.dfy`, `ZoneTracker.dfy` | the ray-casting test; entries, exits, dwell times and live counts per zone |
| `Coordinator.dfy` | activation and deactivation across registry, sandboxes and active set |
| `GpuMemory.dfy` | the GPU allocator, and the loader's records of devices and modules |
| `Health.dfy` | a sandbox's health as a function of its whole history of outcomes |
| `Pipeline.dfy` | one inference request, on top of the resolver and the admission manager |

## Where the code departs from its documentation

The model follows the code; each of these is a theorem, with the exact condition where there is one.

- The lock's documentation calls it fair. Readers cannot hold up a waiting writer
  (`ReaderWriterLock.ReadersCannotStarveWriters`), but writers overtake each other and readers without bound
  (`ReaderWriterLock.WritersCanOvertakeForever`).
- Unregistering a model says that its active slots "will be released normally". Such a release is subtracted
  from the global counter a second time unless the model was registered again meanwhile
  (`Admission.ConservedStep`, `Admission.StrayReleaseLosesASlot`), and afterwards the clamp at 0 takes effect
  for the slots of other models as well (`Admission.ClampsExactly`, `Admission.ClampWithoutStray`).
- A request is refused for the global limit only if that limit is negative
  (`Admission.AdmissionBound`, `Admission.GlobalLimitReachedOnlyIfNegative`).
- `can_recover` says yes for a disabled version without a circuit, and `enable_model` then refuses for ever
  unless forced (`Recovery.CanRecoverIsOptimistic`). A version disabled by hand can be enabled unforced only if
  its circuit is open with attempts left (`Recovery.ManualDisableNeedsForce`).
- A recovery whose load fails is followed by no second cooldown (`Recovery.FailedLoadServesNoCooldown`), and an
  `enable_model` that fails because the registry lost the version keeps the attempt counted, or the circuit
  closed (`Recovery.EnableIsAtomic`).
- Automatic resolution depends on the load order exactly when the highest eligible versions tie, which takes
  build metadata (`VersionResolver.AutomaticIgnoresLoadOrder`). Discovery lets no build metadata in, but it
  lets in prerelease numbers with leading zeros, which automatic resolution never returns
  (`Discovery.LeadingZeroIsOnlyExplicit`).
- `latest_version` compares prereleases as text. It is right for whatever versions a model has exactly when the
  text orders every two of them rightly (`LatestVersion.LatestIsHighestExactly`), which two numbers of unequal
  length may break: 9 is taken for later than 10 (`LatestVersion.AlikeExactly`,
  `LatestVersion.LatestPicksTheLower`). For a release with build metadata it raises (`LatestVersion.KeyWithBuild`).
- `verify_invariants` does not see a ready version that is not active (`Coordinator.VerifiedMissesInactiveReady`).
- A failed reload releases the GPU memory of the version that is still running, and a failed load of a version
  that was never loaded leaves a record by which `unload` later reports success
  (`GpuMemory.FailedLoadRestores`, `GpuMemory.FailedLoadCanBeUnloaded`). A reload that finds memory short is told
  to use the CPU while it keeps the earlier reservation (`GpuMemory.ToldDeviceIsTracked`).
- An unhealthy sandbox can be lifted to degraded by a failure, exactly if the degraded threshold is below the
  unhealthy one and the recovery threshold is at least 4 (`Health.FailureLiftsExactly`).
- A request whose reply raises is counted twice (`Pipeline.InferencePipeline.Infer`).
- The live count of a zone counts detections: it exceeds entries minus exits, in a zone that was empty, exactly
  when a track is detected again after it was detected there (`ZoneTracker.LiveExceedsBalanceExactly`).

## Model

| member | source | states |
|---|---|---|
| `ReaderWriterLock.InvStep` | ai/runtime/registry.py:682-716 | every atomic section of every thread keeps the lock invariant: counters equal numbers of threads, writer excludes readers, and whoever sleeps is waited for by somebody |
| `ReaderWriterLock.MutualExclusion` | ai/runtime/registry.py:682-716 | in every interleaving a writer is alone with the lock and the three counters equal the numbers of reading and waiting threads |
| `ReaderWriterLock.NoLostWakeup` | ai/runtime/registry.py:682-716 | in every reachable state with a sleeper, somebody holds the lock or there are notified writers each of which enters at its next step |
| `ReaderWriterLock.NoDeadlock` | ai/runtime/registry.py:682-716 | while any thread is in the protocol, some thread of it has an enabled step |
| `ReaderWriterLock.DrainBounded` | ai/runtime/registry.py:682-716 | a run without arrivals is no longer than a measure of its first state |
| `ReaderWriterLock.EveryDrainEmptiesTheLock` | ai/runtime/registry.py:682-716 | once arrivals stop, every order of wake-ups and releases ends within the bound, and only in the initial state |
| `ReaderWriterLock.ReadersAheadOnlyLeave` | ai/runtime/registry.py:652-688 | while a writer waits no reader enters: the readers ahead of it only leave, one per release |
| `ReaderWriterLock.ReadersCannotStarveWriters` | ai/runtime/registry.py:652-716 | while a writer waits and no further writer comes, the steps other than arrivals of readers are bounded by the state in which the waiting began, however many readers arrive, and one can always be taken |
| `ReaderWriterLock.WritersCanOvertakeForever` | ai/runtime/registry.py:652-716 | for every n a run in which one thread takes the write lock n more times while another writer and a reader wait throughout |
| `ReaderWriterLock.RWLock.AcquireRead` | ai/runtime/registry.py:682-688 | the section up to the first sleep or the return is the step of the state machine |
| `ReaderWriterLock.RWLock.WakeReader` | ai/runtime/registry.py:682-688 | a woken reader tests again: the step from wake-up to sleep or return |
| `ReaderWriterLock.RWLock.ReleaseRead` | ai/runtime/registry.py:690-695 | the last reader out notifies one waiting writer, any of them |
| `ReaderWriterLock.RWLock.AcquireWrite` | ai/runtime/registry.py:697-706 | the writer counts itself waiting, then sleeps or enters |
| `ReaderWriterLock.RWLock.WakeWriter` | ai/runtime/registry.py:697-706 | a woken writer tests again |
| `ReaderWriterLock.RWLock.ReleaseWrite` | ai/runtime/registry.py:708-716 | one waiting writer is notified, or every sleeping reader |
| `Registry.RegisterIsFlat` | ai/runtime/registry.py:166-209 | registering a version sets that entry of the flat table and no other |
| `Registry.UnregisterIsFlat` | ai/runtime/registry.py:243-286 | unregistering removes that entry and no other, although an emptied model goes too |
| `Registry.StepOfFlatMap` | ai/runtime/registry.py:166-475 | a step at one version is one write or removal in the map by qualified id that coordinator and recovery manager work on |
| `Registry.UnregisterUndoesRegister` | ai/runtime/registry.py:166-286 | unregistering undoes a new registration exactly when the model had not been registered without versions |
| `Registry.ModelRegistry.RegisterModel` | ai/runtime/registry.py:131-164 | a new model is stored with the versions of its descriptor, a known one is left alone |
| `Registry.RegisterModelIsFlat` | ai/runtime/registry.py:131-164 | a new model adds exactly the versions of its descriptor to the flat table |
| `Registry.ModelRegistry.RegisterVersion` | ai/runtime/registry.py:166-209 | the table changes at that version only, the model being created on demand |
| `Registry.ModelRegistry.UnregisterVersion` | ai/runtime/registry.py:243-286 | reports whether the version existed and removes exactly it |
| `Registry.ModelRegistry.UnregisterModel` | ai/runtime/registry.py:211-241 | removes exactly the versions of that model |
| `Registry.ModelRegistry.UpdateState` | ai/runtime/registry.py:420-475 | a known version gets the new state and one event names the old and the new one; an unknown version changes nothing |
| `Admission.ModelsCountStep` | ai/runtime/concurrency.py:225-296 | in every step of every kind, each model's counter equals its listed slots and acquired minus released, and each version's counter the slots of that version |
| `Admission.ConservedStep` | ai/runtime/concurrency.py:437-466 | the global counter stays the sum of the model counters if and only if the step is not a stray release with the counter above 0 |
| `Admission.ClampsExactly` | ai/runtime/concurrency.py:268-466 | after every run the clamps of the model counters do not fire; the global ones fire exactly when a slot comes back at counter 0 or a model with more slots than the counter goes; and, while no release was stray, on stray releases only |
| `Admission.ClampWithoutStray` | ai/runtime/concurrency.py:437-671 | after a run with a stray release the clamp fires for a slot that is not stray |
| `Admission.SumStep` | ai/runtime/concurrency.py:437-671 | every step moves the sum of the model counters as it moves the global counter, except that a stray release does not move it |
| `Admission.ExactStep` | ai/runtime/concurrency.py:437-671 | the outstanding slots stay exactly what the counters count if and only if no busy model is unregistered |
| `Admission.SlotsAreConserved` | ai/runtime/concurrency.py:310-671 | over every run: model and version counts right and the global counter between 0 and their sum; equal to it without stray releases; and the number of outstanding slots, acquired minus released, when only idle models are unregistered |
| `Admission.StrayReleaseLosesASlot` | ai/runtime/concurrency.py:437-655 | a run after which the manager counts no slot while one is out |
| `Admission.AdmissionBound` | ai/runtime/concurrency.py:527-571 | with a positive limit the counter never exceeds nine tenths of it rounded up, nor do the outstanding slots unless a busy model was unregistered, and no request is refused for the global limit |
| `Admission.GlobalLimitReachedOnlyIfNegative` | ai/runtime/concurrency.py:550-571 | a new manager refuses for the global limit exactly when that limit is negative |
| `Admission.BoundIsAttained` | ai/runtime/concurrency.py:527-637 | the bound is reached when model and version limits permit |
| `Admission.ModelLimitEnforced` | ai/runtime/concurrency.py:250-266 | a model never has more active slots than the largest limit it had in the run, whatever happens to other models |
| `Admission.VersionLimitEnforced` | ai/runtime/concurrency.py:246-266 | a version never has more active slots than the largest limit it had in the run, the one registered for it or else the model's |
| `Admission.RefusalExactly` | ai/runtime/concurrency.py:491-637 | the answer to a request after any run, from the registrations, the shutdown and the numbers of slots: the model's limit is the last one given since it was last unregistered, else the default; the version's the last one given since then, else the model's |
| `Admission.RequestsAreCounted` | ai/runtime/concurrency.py:527-637 | every request before the shutdown is counted once, as acquired or as rejected, and every acquired one has its own slot |
| `Admission.HardThreshold` | ai/runtime/concurrency.py:673-677 | the quotient test at 0.9 is the integer comparison used by the proofs, for positive and negative limits |
| `Admission.ModelConcurrencyState.CanAcquire` | ai/runtime/concurrency.py:250-266 | model limit first; and no refusal exactly if model and version have fewer active slots than their limits, the version's being the model's unless one is registered |
| `Admission.ModelConcurrencyState.Acquire` | ai/runtime/concurrency.py:268-273 | one more slot in every counter of the model |
| `Admission.ModelConcurrencyState.Release` | ai/runtime/concurrency.py:275-291 | a listed slot is taken back once; an unlisted one changes nothing |
| `Admission.ConcurrencyManager.RegisterModel` | ai/runtime/concurrency.py:367-403 | the limit given becomes the model's; without one a known model keeps its limit and a new one gets the default |
| `Admission.ConcurrencyManager.RegisterVersionLimit` | ai/runtime/concurrency.py:405-435 | the version limit step, on a model known or created |
| `Admission.ConcurrencyManager.UnregisterModel` | ai/runtime/concurrency.py:437-466 | the model goes and its active count leaves the global counter |
| `Admission.ConcurrencyManager.TryAcquire` | ai/runtime/concurrency.py:491-637 | the first refusal in the order of the tests, or a slot; shut down, nothing is even registered |
| `Admission.ConcurrencyManager.BeginShutdown` | ai/runtime/concurrency.py:742-755 | new requests are refused from then on, the slots that are out staying counted |
| `Admission.ConcurrencyManager.ReleaseSlot` | ai/runtime/concurrency.py:639-671 | the release step in its three branches: model unknown, slot listed, slot not listed |
| `Admission.ConcurrencySlot.Release` | ai/runtime/concurrency.py:155-169 | the handle's release is one release event of the manager, idempotent by its flag |
| `Recovery.OpensExactlyOnTheTrace` | ai/runtime/recovery.py:657-683 | a failure opens the circuit exactly when the whole trace since it was last closed meets a criterion, with its time and the first criterion met; else state and stamps stay |
| `Recovery.Projection` | ai/runtime/recovery.py:532-857 | each circuit of the stack sees its own events and nothing else |
| `Recovery.TracksStep` | ai/runtime/recovery.py:316-359 | one event keeps the pruned list, the timeout counter and the unhealthy counter equal to what the whole trace defines |
| `Recovery.SlidingWindowIsExact` | ai/runtime/recovery.py:316-365 | over every run of the wired stack with a clock that does not go back, for every policy, the incremental fields are those of the trace; and if the thresholds are positive a closed circuit is always strictly below them, as it is at the start exactly then |
| `Recovery.InWindowExactly` | ai/runtime/recovery.py:336-339 | a failure of the trace is in the window exactly if it is later than the latest less the window's length |
| `Recovery.HalfOpenClosesExactly` | ai/runtime/recovery.py:624-655 | from its preparation on, unless a failure reopens it or somebody interferes, a half-open circuit counts its successes and is closed if and only if they are as many as the policy asks, at least one |
| `Recovery.AgreeStep` | ai/runtime/recovery.py:591-605 | an open circuit means a disabled version after every recovery operation, and only an outside write over such a version breaks it |
| `Recovery.AgreeRun` | ai/runtime/recovery.py:1385-1398 | it holds over every run of the wired stack in which others move no disabled version and register a version once, with no open circuit left over |
| `Recovery.EnableIsAtomic` | ai/runtime/recovery.py:1085-1169 | a success leaves half-open, or not open and no attempts used when forced, with the version discovered; a refusal changes nothing exactly if a guard refused or the forced closing had nothing to close, and else keeps the attempt, or the circuit closed |
| `Recovery.CanRecoverIsOptimistic` | ai/runtime/recovery.py:1235-1259 | `can_recover` agrees with unforced `enable_model` if and only if the version is not a disabled one without a circuit |
| `Recovery.ManualDisableNeedsForce` | ai/runtime/recovery.py:959-1132 | a version disabled by hand can be enabled unforced at some later time if and only if its circuit is open with attempts left |
| `Recovery.FailedLoadServesNoCooldown` | ai/runtime/recovery.py:780-794 | after a recovery whose load failed the next unforced request is let through if and only if attempts are left and the minimum interval has passed: no cooldown |
| `Recovery.BoundedRecovery` | ai/runtime/recovery.py:716-778 | in every run without forced closing or removal an open circuit is let into half-open at most max_recovery_attempts times, each after the cooldown since a failure last opened it and the minimum interval; closed circuits remember no opening |
| `Recovery.ExhaustedIsAbsorbing` | ai/runtime/recovery.py:679-750 | open with all attempts used stays open, with no further recovery, and the version disabled under the same discipline |
| `Recovery.CircuitBreakerState.RecordFailure` | ai/runtime/recovery.py:316-327 | append, prune, count |
| `Recovery.CircuitBreakerState.PruneOldFailures` | ai/runtime/recovery.py:336-339 | keeps in order exactly the failures later than the cutoff |
| `Recovery.RecoveryStack.RecordFailure` | ai/runtime/recovery.py:532-605 | the whole step with the disabling callback, and the answer is whether the circuit opened |
| `Recovery.RecoveryStack.RecordSuccess` | ai/runtime/recovery.py:624-655 | the answer is whether the circuit was half open and this success was enough for the policy, and a half-open circuit closes exactly then |
| `Recovery.RecoveryStack.CheckDisableCriteria` | ai/runtime/recovery.py:657-683 | none if every counter is below its threshold, else the first criterion met |
| `Recovery.RecoveryStack.CanAttemptRecovery` | ai/runtime/recovery.py:716-748 | true exactly for an open circuit with attempts left, past the interval and the cooldown |
| `Recovery.RecoveryStack.CanRecover` | ai/runtime/recovery.py:1235-1259 | the advice, which is also yes for a disabled version without a circuit |
| `Recovery.RecoveryStack.DisableModel` | ai/runtime/recovery.py:959-1066 | a registered version ends disabled, and success says whether it is registered |
| `Recovery.RecoveryStack.EnableModel` | ai/runtime/recovery.py:1068-1216 | the enabling step and its verdict, the abort after a failed registry update included |
| `Recovery.RecoveryStack.ForceClose` | ai/runtime/recovery.py:806-834 | closes a known circuit and resets its attempts |
| `Recovery.RecoveryStack.NotifyLoadFailure` | ai/runtime/recovery.py:1278-1293 | a half-open circuit reopens and the version is disabled |
| `Recovery.RecoveryStack.RemoveState` | ai/runtime/recovery.py:836-857 | forgets the circuit and says whether there was one |
| `Strings.NumberOfDigits` | ai/runtime/versioning.py:98-104 | printing a number and reading it gives the number, of any length |
| `Strings.DigitsOfNumber` | ai/runtime/versioning.py:220-222 | reading a numeral without leading zero and printing it gives the numeral |
| `Strings.SplitOfJoin` | ai/runtime/versioning.py:225-226 | splitting a dotted list gives its identifiers |
| `SemanticVersion.MatchDeterminesParse` | ai/runtime/versioning.py:202-235 | whatever groups the regular expression matches, the parsed version is the one built from them |
| `SemanticVersion.ParseAcceptsTheLanguage` | ai/runtime/versioning.py:202-235 | a string is parsed if and only if the regular expression matches it |
| `SemanticVersion.ParseOfPrint` | ai/runtime/versioning.py:98-104 | parsing a printed well-formed version gives every component back |
| `SemanticVersion.PrintOfParse` | ai/runtime/versioning.py:210-235 | printing a parsed string gives the string back, and the parsed version is well formed |
| `SemanticVersion.ComparePrereleaseLoop` | ai/runtime/versioning.py:167-199 | the loop over paired identifiers is the lexicographic comparison |
| `SemanticVersion.IdsTotal` | ai/runtime/versioning.py:167-199 | well-formed identifiers are totally ordered; identifiers with leading zeros are not |
| `SemanticVersion.Trichotomy` | ai/runtime/versioning.py:106-165 | exactly one of less, equal and greater holds, and the other operators are the derived ones |
| `SemanticVersion.LtTransitive` | ai/runtime/versioning.py:121-147 | less-than is transitive |
| `SemanticVersion.EqRespectsLt` | ai/runtime/versioning.py:106-147 | versions equal but for their build stand in the same relations |
| `SemanticVersion.LtIsPrecedence` | ai/runtime/versioning.py:121-199 | less-than is the precedence of section 11 of Semantic Versioning 2.0.0, worded by first difference |
| `VersionResolver.SortSorts` | ai/runtime/versioning.py:698-699 | the descending sort is a permutation in which nothing exceeds what precedes it |
| `VersionResolver.SortIsStable` | ai/runtime/versioning.py:698-699 | entries of equal precedence keep their order |
| `VersionResolver.PickIsTop` | ai/runtime/versioning.py:655-702 | the pick is of greatest version, and fails only when nothing has a version |
| `VersionResolver.PickIgnoresOrder` | ai/runtime/versioning.py:655-702 | the pick is independent of the order of the items if and only if a single item is on top |
| `VersionResolver.MeetsExactly` | ai/runtime/versioning.py:383-414 | what `is_eligible` accepts of the versions that parse: state and health as configured, no prerelease unless included, not before a readable minimum nor after a readable maximum in the precedence of the standard |
| `VersionResolver.ResolveAutomatic` | ai/runtime/versioning.py:626-725 | returns a version that meets these and that none which meets them exceeds, and none exactly if none meets them |
| `VersionResolver.GetEligibleVersions` | ai/runtime/versioning.py:727-753 | lists each version that meets these as often as it is there, none exceeded by a later one, headed by what automatic resolution returns |
| `VersionResolver.ResolveExplicitExactly` | ai/runtime/versioning.py:537-624 | the answer by name: not found, not ready, unhealthy or the version, whatever its prerelease and the bounds |
| `VersionResolver.AutomaticReresolves` | ai/runtime/versioning.py:537-725 | asking by name for the automatic choice gives the same descriptor |
| `VersionResolver.AutomaticIgnoresLoadOrder` | ai/runtime/versioning.py:626-725 | resolution is independent of the load order if and only if the highest eligible versions do not tie |
| `VersionResolver.NoBuildNoTie` | ai/runtime/versioning.py:626-725 | keys without build metadata never tie |
| `VersionResolver.EqualVersionsTie` | ai/runtime/versioning.py:626-725 | two eligible versions of equal precedence: whichever was loaded first is returned |
| `VersionResolver.BuildsAreEqual` | ai/runtime/versioning.py:106-115 | every version has two builds with different keys and equal precedence |
| `VersionResolver.HighestVersion` | ai/runtime/versioning.py:965-982 | a string that parses and that none exceeds in the precedence of the standard, and there is one whenever anything parses |
| `VersionResolver.HighestStableVersion` | ai/runtime/versioning.py:984-1001 | the same among those that are not prereleases |
| `LatestVersion.KeyOfPrint` | ai/runtime/models.py:438-455 | the key of a printed version without build: its three numbers, and its prerelease as text or a tilde |
| `LatestVersion.MissingPartsAreZero` | ai/runtime/models.py:438-455 | the key of a single number has zeros for the missing parts |
| `LatestVersion.KeyWithBuild` | ai/runtime/models.py:438-455 | with build metadata the key of a release raises, and that of a prerelease has the build in its text |
| `LatestVersion.AgreesAcrossReleases` | ai/runtime/models.py:438-455 | the key orders as SemVer does across releases and between a release and its prereleases |
| `LatestVersion.JoinedTextOrder` | ai/runtime/models.py:438-455 | the text of a prerelease without hyphens sorts as the list of its identifiers compared as text |
| `LatestVersion.AgreesExactly` | ai/runtime/models.py:438-455 | two such prereleases of one release are ordered rightly if and only if their first differing identifiers compare alike as text and as identifiers |
| `LatestVersion.AlikeExactly` | ai/runtime/models.py:438-455 | which identifiers do: two names, two numbers of equal length; of unequal length exactly if the shorter is not after the beginning of the longer; a number and a name exactly if the number sorts first |
| `LatestVersion.NumeralBeforeLetter` | ai/runtime/models.py:438-455 | a number and a name that begins with a letter do |
| `LatestVersion.MaxIsGreatest` | ai/runtime/models.py:406-411 | the version chosen has a greatest key and is the first such |
| `LatestVersion.LatestOfTwo` | ai/runtime/models.py:406-411 | of two versions the latest is a highest if and only if the key orders the two rightly |
| `LatestVersion.LatestIsHighestExactly` | ai/runtime/models.py:406-411 | the latest is a highest version for whichever of the given versions a model has, if and only if the key orders every two of them rightly |
| `LatestVersion.LatestPicksTheLower` | ai/runtime/models.py:406-455 | for every two numbers of which the shorter is, as text, after the beginning of the longer, the lower prerelease is returned |
| `Discovery.AdmittedParses` | ai/runtime/models.py:24-37 | a version that discovery admits is parsed exactly when its prerelease has no leading zero |
| `Discovery.AdmittedIsPlain` | ai/runtime/models.py:24-37 | a discovered version that parses has no build and no hyphens in its prerelease, as the theorems about `latest_version` ask |
| `Discovery.DiscoveredIgnoreLoadOrder` | ai/runtime/discovery.py:184-200 | among discovered versions automatic resolution never depends on the load order |
| `Discovery.LeadingZeroIsOnlyExplicit` | ai/runtime/versioning.py:626-670 | a discovered version that is ready and healthy resolves by name, but with a leading zero never automatically |
| `Discovery.AdmittedButUnread` | ai/runtime/models.py:24-37 | every release number with such an identifier is admitted and not parsed |
| `Polygon.PointInPolygon` | Geo_fencing/geo_fencing.py:326-344 | the loop computes the parity of the edges that the test accepts |
| `Polygon.TogglesIsCrossing` | Geo_fencing/geo_fencing.py:335-341 | the nested tests are the half-open crossing test: both tests on x before the quotient are redundant |
| `Polygon.TogglesSymmetric` | Geo_fencing/geo_fencing.py:335-341 | the direction of an edge does not matter |
| `Polygon.RotationInvariant` | Geo_fencing/geo_fencing.py:326-344 | the answer does not depend on the start vertex |
| `Polygon.ReversalInvariant` | Geo_fencing/geo_fencing.py:326-344 | nor on the orientation |
| `Polygon.ChordSplit` | Geo_fencing/geo_fencing.py:326-344 | inside a polygon means inside exactly one of the two parts that any chord between vertices cuts it into |
| `Polygon.InsideBoundingBox` | Geo_fencing/geo_fencing.py:326-344 | no point outside the half-open bounding box is inside |
| `Polygon.RectangleIsHalfOpenBox` | Geo_fencing/geo_fencing.py:326-344 | an axis-aligned rectangle is its half-open box from every start vertex in both orientations |
| `Polygon.RectanglesTile` | Geo_fencing/geo_fencing.py:326-344 | rectangles sharing a side have no common point and make up the large one |
| `ZoneTracker.ZonesAreAccounted` | Geo_fencing/geo_fencing.py:601-671 | over every sequence of frames and added zones: entries minus exits is the number of tracks with that status, dwell samples number the exits, entry times are for the current zone alone |
| `ZoneTracker.EntriesAndExits` | Geo_fencing/geo_fencing.py:643-671 | after every run, from the observations alone: entries are those that find a track in the zone which was not there before, exits those that find it elsewhere after, dwell times for each exit, in order, the time since the entry it ends; a track that stays changes nothing |
| `ZoneTracker.LiveWithinBalance` | Geo_fencing/geo_fencing.py:616-640 | after every frame the live count is the number of detections in the zone; unless a track is detected again after it was detected there, that is the number of tracks found, at most entries minus exits |
| `ZoneTracker.LiveExceedsBalanceExactly` | Geo_fencing/geo_fencing.py:616-671 | in a zone that was empty the live count stays within entries minus exits if and only if no track is detected again after it was detected there |
| `ZoneTracker.DistinctNeverRepeat` | Geo_fencing/geo_fencing.py:622-625 | distinct ids in a frame are enough for that in every zone |
| `ZoneTracker.GeoFencingTracker.AddZone` | Geo_fencing/geo_fencing.py:402-410 | fewer than three points are refused, others appended |
| `ZoneTracker.GeoFencingTracker.FindZone` | Geo_fencing/geo_fencing.py:635-641 | the first zone, in the order of addition, that the point is inside |
| `ZoneTracker.GeoFencingTracker.ProcessFrame` | Geo_fencing/geo_fencing.py:616-671 | the loops over zones and detections are the frame step of the state machine |
| `ZoneTracker.ObservedCounts` | Geo_fencing/geo_fencing.py:643-671 | one detection counts an entry or an exit of a zone exactly if it finds the track newly in or newly out of it |
| `ZoneTracker.GeoFencingTracker.Observe` | Geo_fencing/geo_fencing.py:632-671 | the dictionary updates for one detection are the step of which this is said |
| `Coordinator.ConsistentStep` | ai/runtime/coordinator.py:189-408 | active set, sandboxes and ready versions stay equal after an event if and only if it is not a disturbance from outside, or a deactivation that leaves the version ready or breaks off |
| `Coordinator.ConsistentRun` | ai/runtime/coordinator.py:189-622 | over every undisturbed run they stay equal |
| `Coordinator.ActivationIsAtomic` | ai/runtime/coordinator.py:189-309 | an activation ends with both resources or changes nothing, but that its rollback removes an orphaned sandbox; in a consistent state it changes nothing |
| `Coordinator.DeactivateUndoesActivate` | ai/runtime/coordinator.py:189-408 | activating and deactivating restores everything but the load state |
| `Coordinator.VerifiedMissesInactiveReady` | ai/runtime/coordinator.py:477-536 | consistency is what is verified and, which is not, that no inactive version is ready |
| `Coordinator.RepairRestores` | ai/runtime/coordinator.py:538-593 | from any state a repair makes active set and sandboxes equal, fails exactly the active versions without a sandbox, repeats to no effect, passes verification exactly when the kept versions were ready, and leaves a consistent state alone |
| `Coordinator.ModelCoordinator.ActivateModel` | ai/runtime/coordinator.py:189-309 | each result code with its exact condition, and the activation step |
| `Coordinator.ModelCoordinator.DeactivateModel` | ai/runtime/coordinator.py:311-408 | each result code with its exact condition, and what it leaves of sandbox, active set and load state |
| `Coordinator.ModelCoordinator.GetReadySandbox` | ai/runtime/coordinator.py:410-451 | finds exactly the versions that are active, ready and have a sandbox; in a consistent state those are the active ones and nothing changes |
| `Coordinator.ModelCoordinator.VerifyInvariants` | ai/runtime/coordinator.py:477-536 | its two loops decide the three inclusions |
| `Coordinator.ModelCoordinator.RepairInvariants` | ai/runtime/coordinator.py:538-593 | its two loops compute the repaired state |
| `Coordinator.ModelCoordinator.ShutdownAll` | ai/runtime/coordinator.py:595-622 | nothing is active any more, the active versions have lost their sandboxes and, if registered, are unloaded; others stay as they were |
| `GpuMemory.BestIsGreatest` | ai/runtime/gpu_manager.py:298-320 | the selection loop takes the first fitting device of greatest free memory, and none only if none fits |
| `GpuMemory.CanAllocateExactly` | ai/runtime/gpu_manager.py:237-272 | true exactly when some device that may be used has room beside driver, reservations and margin |
| `GpuMemory.CanAllocateFindsTarget` | ai/runtime/gpu_manager.py:237-272 | and exactly when the selection finds one |
| `GpuMemory.AllocationFits` | ai/runtime/gpu_manager.py:274-355 | a new request gets the first device of most free memory among those with room, which keeps its margin; it is sent to the CPU, or refused without fallback, only if none has room |
| `GpuMemory.ReservationsAreConserved` | ai/runtime/gpu_manager.py:237-431 | over every run each reservation is the sum of the allocations on the device, a device with one keeps its margin, and releasing all brings every reservation to 0 |
| `GpuMemory.ReleaseUndoesAllocate` | ai/runtime/gpu_manager.py:274-393 | allocating for a new id and releasing it is the identity |
| `GpuMemory.LoadKeepsCoherent` | ai/runtime/loader.py:711-813 | loading and unloading keep the loader's records equal to the allocator's |
| `GpuMemory.ToldDeviceIsTracked` | ai/runtime/loader.py:711-781 | a load is told the device that is tracked for it, or the CPU, with nothing changed, exactly when the memory does not fit as it starts |
| `GpuMemory.ImportsExactly` | ai/runtime/loader.py:333-494 | which modules a load tries: each once, in order, if its file is there and the earlier ones were good enough |
| `GpuMemory.FailedLoadLeaves` | ai/runtime/loader.py:264-289 | a failed load leaves the records of the modules it tried, no device, and for a version that held none nothing else changed |
| `GpuMemory.FailedLoadRestores` | ai/runtime/loader.py:211-289 | a failed load leaves allocator and loader as they were if and only if the version held no GPU memory and there was no inference module to import |
| `GpuMemory.FailedLoadCanBeUnloaded` | ai/runtime/loader.py:291-331 | a failed load makes an unknown version unloadable exactly if it found an inference module |
| `GpuMemory.UnloadUndoesLoad` | ai/runtime/loader.py:185-331 | a load, successful or not, and an unload restore allocator and loader if and only if the loader knew nothing of the version and found an inference module |
| `GpuMemory.GpuManager.AddDevice` | ai/runtime/gpu_manager.py:133-179 | a detected device joins the list with nothing used or reserved |
| `GpuMemory.GpuManager.MayAllocate` | ai/runtime/gpu_manager.py:237-272 | true exactly when the named device, or some device, fits |
| `GpuMemory.GpuManager.SelectDevice` | ai/runtime/gpu_manager.py:298-320 | the loop with its running best computes the selection |
| `GpuMemory.GpuManager.Allocate` | ai/runtime/gpu_manager.py:274-355 | the allocation step and the placement: the earlier device, a new one, the CPU or a refusal |
| `GpuMemory.GpuManager.Release` | ai/runtime/gpu_manager.py:357-393 | the release step, false for an unknown id |
| `GpuMemory.GpuManager.ReleaseAll` | ai/runtime/gpu_manager.py:401-431 | whatever the order, each device gives back the sum allocated on it; the count is the number of allocations |
| `GpuMemory.ModelLoader.Load` | ai/runtime/loader.py:185-289 | the records of devices and modules after a load that succeeds or fails at any stage, and its verdict |
| `GpuMemory.ModelLoader.ImportModules` | ai/runtime/loader.py:214-222 | the modules recorded are those tried up to the first that cannot be used |
| `GpuMemory.ModelLoader.ImportModule` | ai/runtime/loader.py:603-611 | a module is recorded before it is executed |
| `GpuMemory.ModelLoader.Unload` | ai/runtime/loader.py:291-331 | forgets the modules and releases the device; nothing for a version without modules |
| `GpuMemory.ModelLoader.AllocateDevice` | ai/runtime/loader.py:711-781 | the device returned, and a placement tracked exactly when the allocator was asked and did not refuse |
| `GpuMemory.ModelLoader.ReleaseDevice` | ai/runtime/loader.py:783-813 | the tracked placement goes, and its memory if it is on a GPU |
| `Health.CountersAreTrailingRuns` | ai/runtime/sandbox.py:231-254 | the two counters are the lengths of the trailing runs of the history |
| `Health.HealthyMeansRecovered` | ai/runtime/sandbox.py:301-343 | healthy if and only if every run of failures that reached a threshold was followed by a run of successes that reached the recovery threshold |
| `Health.UnhealthyMeansCollapsed` | ai/runtime/sandbox.py:301-343 | unhealthy if and only if a run of failures reached the unhealthy threshold and since then no run of successes reached half the recovery threshold and none of failures only the degraded one |
| `Health.HealthyIsBelow` | ai/runtime/sandbox.py:301-343 | a healthy sandbox has fewer trailing failures than either threshold |
| `Health.DegradesFirst` | ai/runtime/sandbox.py:301-343 | no step goes from healthy to unhealthy, in any history, if and only if the degraded threshold is the smaller |
| `Health.StraightSuccessesRecover` | ai/runtime/sandbox.py:301-343 | from any history the recovery threshold of straight successes makes the sandbox healthy |
| `Health.FailureLiftsExactly` | ai/runtime/sandbox.py:301-343 | in some history a failure lifts an unhealthy sandbox to degraded if and only if the degraded threshold is the smaller and the recovery threshold is at least 4 |
| `Health.OneCallbackPerChange` | ai/runtime/sandbox.py:1041-1103 | there are as many callbacks as changes of health, each starting where the one before ended, the last ending at the present health |
| `Health.ExecutionMetrics.RecordSuccess` | ai/runtime/sandbox.py:231-242 | totals keep adding up; the run of failures ends |
| `Health.ExecutionMetrics.RecordFailure` | ai/runtime/sandbox.py:244-254 | totals keep adding up; the run of successes ends |
| `Health.ExecutionSandbox.DetermineHealth` | ai/runtime/sandbox.py:301-343 | the transition rule |
| `Health.ExecutionSandbox.Record` | ai/runtime/sandbox.py:1041-1103 | after each outcome the state is that of the longer history |
| `Health.ExecutionSandbox.Execute` | ai/runtime/sandbox.py:671-857 | success exactly if every stage there is finished and the output was valid; one outcome is recorded, and a timeout exactly if the first stage not to finish timed out |
| `Pipeline.UsableIsEligibleOrUnknown` | ai/runtime/pipeline.py:876-926 | the state check accepts what the pipeline's eligibility accepts, and ready versions of unknown health |
| `Pipeline.RunsOnlyAcceptable` | ai/runtime/pipeline.py:840-926 | behind the resolver the sandbox runs only for one of the model's versions that is ready and healthy, or degraded where that is allowed |
| `Pipeline.SlotRoundTrip` | ai/runtime/concurrency.py:155-169 | a slot taken and released leaves every active count, global, per model and per version, as it was |
| `Pipeline.RejectionKeepsActivity` | ai/runtime/concurrency.py:527-610 | a refused request changes no active count |
| `Pipeline.InferencePipeline.Infer` | ai/runtime/pipeline.py:692-838 | on every exit the active counts are unchanged; each of the nine exits, and whether the sandbox ran, by its exact condition on what the stages said; totals balance if and only if the reply did not raise |
| `Pipeline.InferencePipeline.RunWithSlot` | ai/runtime/pipeline.py:767-789 | the slot is given back whether the sandbox is missing, fails, raises or succeeds, and the exit says which |
| `Pipeline.InferencePipeline.CountExit` | ai/runtime/pipeline.py:791-838 | one success or one error per exit, a second error when the reply raises, and rejections counted apart |

## Left out

- Threads inside the other objects: every method that holds its object's mutex is one atomic step.
- Spurious wake-ups, interrupts inside `Condition.wait`, and re-entrant use of the lock.
- Persistence of circuit breakers: it is off. `record_failure` and `record_success` would call it while holding the mutex it takes again.
- Clocks: each operation of the breaker reads the clock once; the tracker takes one time for all of a frame.
- Float rounding: coordinates and times are exact reals, the backpressure quotient is an exact fraction, memory is counted in integral units.
- Uuids: slot ids are fresh by assumption of the step, and model ids and version strings outside the resolver are plain names, so that the qualified id "model:version" is one name.
- Regular expression quirks: version strings are ASCII without newlines; and `int` of anything but plain decimal digits, which it reads with signs, spaces or underscores.
- `prepare_recovery` and `abort_recovery` called directly, past the recovery manager, which would bypass the cooldown.
- The operations log, enable and disable callbacks, listeners' errors and messages of the recovery manager.
- Explicit resolution past its three tests, version status queries, and `VersionLifecycleManager`: thin calls of `update_state`.
- `FairScheduler`, last-served times, the soft backpressure level and wait hints: advisory.
- What modules do when they are imported, warm-up and `sys.modules` in the loader: whether a stage succeeds is an input. A loader without a GPU manager, which always answers CPU and tracks nothing.
- Durations and averages in the execution metrics, the executor's thread or process pool and its zombie tasks.
- Request and frame validators, resolution errors and response texts of the pipeline: each stage accepts, refuses or raises.
- Frame skipping, drawing, heat maps, speeds, alerts, the database and `load_zones`, which replaces zones but keeps their counters.
- HTTP routes, the chatbot, the front end, the tank monitors, reporting and the backend client.

# Verified models of the DSSE core

This project models the state-changing core of the DSSE repository in Dafny 4.11 and proves what its packages promise.
`dafny verify dfyconfig.toml` checks everything.

- **Device updater** (`Versions`, `Gate`, `Journals`, `Updater`, `UpdaterPasses`, `UpdaterRuns`, `UpdaterGuarantees`,
  `UpdaterSteering`, `UpdaterWaiting`, `UpdaterObject`, `RolloutPlans`, `Reports`). A pass is a function from the
  journal and the answers of platform and disk to the effects it performs: saves, steering down and up, installer
  launches. A process may die after any effect, and the next one reads the last journal that reached the disk; a save
  can succeed, fail, or fail after having replaced the file. Theorems range over every run of such passes. The passes
  are also written as statements on a journal object, and proved equal to the functions.
- **Authentication rollout** (`AuthRollout`, `AuthEdges`). The authority's edits, and a network of Edges that receive
  its distributions in any order, any number of times or never.
- **Certificate pair** (`CertPair`). Two files and a journal. A write renames and then flushes; what was renamed but
  not flushed may be undone by a power loss. A run is the sequence of disk states it goes through.
- **Access decisions** (`DecisionStore`), **connector routing** (`Cidr`, `Routes`, `RouteNames`, `RouteCandidates`),
  **asset catalog** (`Catalog`, `CatalogRuns`, `CatalogStore`), **single-writer file** (`SingleWriter`).

`Text` holds the string operations the others share. Times are whole seconds; random numbers, clocks, the network, file
systems and cryptography are parameters: answers given to a pass, a predicate for matching certificates and keys, an
injective digest.

## What the proofs brought out

- `Run` continues a rollback that died before changing anything, if it aims at the very version now offered, and its
  success then reads as rolled back (`UpdaterGuarantees.RunRecordsUpdateIff`, `RunTakesOverRollback`).
- A rollback whose launch, restore and save all fail names only the save (`UpdaterSteering.RollbackTellsCallerIff`).
- A rollback can refuse the release it restores, when it first counts the last allowed failure of an update to it
  (`UpdaterGuarantees.RollbackPoisonsRestoredIff`).
- Signed and out-of-range pre-release identifiers are ordered differently from the standard
  (`Versions.OrdinaryIffStandard`).
- An empty connector id makes the single resolver depend on list order (`Routes.ScanAnswersIff`).
- `replaceAuthored` compares the texts as they came in, so an entry with an untrimmed tenant, or with a blank id, is
  stored and removed again; and it cannot remove an entry under a shipped id (`CatalogRuns.ReplacedExactlyIff`).
- The drop ledger loses counts when a write fails after opening its file, when a file cannot be read, and when the
  sender dies between removing a claim and putting its count back; it repeats them when a claim cannot be removed
  (`Reports.FaultsAreExactly`).
- A corrupt report that cannot be removed is stepped over (`Reports.RemovesAPrefixIff`).
- A store that has to be written in place can lose old and new contents together (`SingleWriter.TornSaveLosesBoth`); an
  emptied rollout cache reads as none, so an Edge can go back (`AuthEdges.EmptiedEdgeGoesBack`).
- A `Run` whose save took effect but was reported failed erases the record of a dead attempt without telling anyone to
  check the network (`UpdaterSteering.DeadAttemptIsToldIff`).

## Model

| member | source | states |
|---|---|---|
| `Versions.Parse` | agentupdate/version.go:68-102 | the parser as it runs: trim, cut the build at the first `+`, the pre-release at the first `-`, three strict decimal components; equals `ParseVersion` |
| `Versions.ParseThenRender` | agentupdate/version.go:48-102 | rendering a parsed version gives back the trimmed input, for every string that parses |
| `Versions.ComparePreReleaseLoop` | agentupdate/version.go:168-203 | the identifier-by-identifier loop, which skips equal identifiers, computes the lexicographic comparison of ranks |
| `Versions.VersionsReflexive` | agentupdate/version.go:136-155 | comparing a version with itself gives 0 |
| `Versions.VersionsTotal` | agentupdate/version.go:136-155 | swapping the arguments negates the result, so any two versions are ordered |
| `Versions.VersionsTransitive` | agentupdate/version.go:136-203 | the order is transitive over all versions, numeric and textual identifiers mixed |
| `Versions.RankAgreesIff` | agentupdate/version.go:174-176 | the code ranks a pre-release identifier as section 11 of Semantic Versioning 2.0.0 does if and only if it is not a signed number and not digits out of range |
| `Versions.OrderFollowsStandard` | agentupdate/version.go:136-203 | on versions with such ordinary identifiers the order is the standard's precedence |
| `Versions.OrdinaryIffStandard` | agentupdate/version.go:136-203 | a version's identifiers are ordinary if and only if the code orders it against every ordinary version as the standard does |
| `Versions.SignedIdentifierDeviates` | agentupdate/version.go:174-186 | a concrete pair of versions with a signed identifier on which the code and the standard disagree |
| `Versions.LargeIdentifierDeviates` | agentupdate/version.go:174-186 | digits beyond the parser's range rank above the word `-`, where the standard ranks them below |
| `Versions.SameVersionReflexive` | agentupdate/version.go:120-131 | a string names its own release exactly when it is not blank |
| `Versions.SameVersionSymmetric` | agentupdate/version.go:120-131 | naming the same release is symmetric |
| `Versions.SameVersionTransitive` | agentupdate/version.go:120-131 | naming the same release is transitive, also through strings that do not parse |
| `Versions.ChainClimbs` | agentupdate/manifest.go:363-398 | in every chain of updates that `Applicable` admits one after another, each version is strictly above every earlier one, so no release is ever returned to |
| `Gate.ClockTimeRoundTrip` | agentupdate/gate.go:285-300 | a clock time written out as hour and minute reads back as its minute of the day, and nothing past 23:59 reads at all |
| `Gate.WrapIsCircular` | agentupdate/gate.go:265-284 | the two-branch window test is membership of an arc of the day, wrapping or not |
| `Gate.GateOpensIff` | agentupdate/gate.go:159-262 | the gate opens if and only if the fleet releases the device and either every local rule is met or the deadline has passed; so no deadline beats a plan hold, a freeze or an unopened wave |
| `Gate.RaisedWindowKeepsProtections` | agentupdate/plan.go:137-162 | after folding in any number of fleet windows, an unforced install still meets the device's own idle, attendance and power rules and every folded plan's |
| `Journals.EntryIsOwed` | agentupdate/journal.go:334-355 | entering a terminal phase from another phase always leaves an outcome owed, whatever was reported before |
| `Journals.EntryFingerprintIsNew` | agentupdate/journal.go:452-472 | over every history of journal operations, such an entry has a fingerprint different from every earlier one |
| `Journals.ReloadIsIdentity` | agentupdate/journal.go:627-775 | the adoption of journals from builds without a counter changes no journal this build writes |
| `Journals.TenthFailureReleases` | agentupdate/report_quarantine.go:37-71 | nine consecutive queue failures keep the outcome pending, the tenth always releases the device, files the outcome as quarantined and leaves nothing owed and nothing else changed |
| `Journals.Journal.BeginAttempt` | agentupdate/journal.go:291-318 | the new state of an attempt's start, update or rollback |
| `Journals.Journal.RefuseVersion` | agentupdate/journal.go:320-329 | a blank version is not refused; otherwise the trimmed one is |
| `Journals.Journal.EnterPhase` | agentupdate/journal.go:334-355 | the new state of a phase change: the terminal counter, the in-flight stamp and its clearing |
| `Journals.Journal.CountFailure` | agentupdate/journal.go:370-394 | the new state of a counted failure, and whether it reached the ceiling |
| `Journals.Journal.CountSuccess` | agentupdate/journal.go:543-562 | the new state of a success: completed or rolled back by the kind of attempt |
| `Journals.Journal.HoldReport` | agentupdate/journal.go:523-534 | a taken slot keeps the older report and counts the loss |
| `Journals.Journal.CountQueueFailure` | agentupdate/report_quarantine.go:37-71 | the new state of a failed queueing, and whether it gave the outcome up |
| `Updater.Prepare` | agentupdate/runner.go:216-420 | every way `Run` can stop before steering is touched has done nothing but save journals, and tells of no launch and no steering |
| `UpdaterPasses.RunSound` | agentupdate/runner.go:208-519 | for every answer of platform and disk: each saved journal is well formed and drops no refusal, steering is taken down and an installer launched only directly after a successful save of the phase that names it with this pass's time, and nothing is launched over a young attempt |
| `UpdaterPasses.RollbackSound` | agentupdate/rollback.go:73-300 | the same for `Rollback` |
| `UpdaterRuns.NeverTwoInstallers` | agentupdate/runner.go:247-517 | over every run of `Run`, `Rollback`, `Reconcile` and reporting edits, each cut off after any effect and resumed from the last journal that reached the disk, two installers launched less than the grace apart have a `Reconcile` between them that saw the first one's target running |
| `UpdaterRuns.PlaySafe` | agentupdate/journal.go:873-903 | the invariant behind it, from any safe state: every launch ever made was seen landed, is in flight on the disk under its own time, or is older than the grace |
| `UpdaterGuarantees.PoisonFollowsRelease` | agentupdate/journal.go:567-580 | a refused release is refused under every spelling of its version |
| `UpdaterGuarantees.PoisonIsPermanent` | agentupdate/runner.go:288-291 | over every run, once a release is refused it stays refused and is never handed to the installer as an update again, under any build metadata |
| `UpdaterGuarantees.CeilingPoisons` | agentupdate/journal.go:370-394 | the failure that reaches the ceiling refuses the target, no earlier failure refuses anything |
| `UpdaterGuarantees.RollbackRefusesOnlyTheLeft` | agentupdate/rollback.go:209-229 | recording a rollback refuses exactly the release being left, unless it is the one being restored |
| `UpdaterGuarantees.RollbackNeverPoisonsRestored` | agentupdate/rollback.go:209-229 | the refusal step of a rollback leaves the release being restored refused, or not, as it was |
| `UpdaterGuarantees.HoldRefusesIff` | agentupdate/rollback.go:106-138 | keeping the outcome of an interrupted attempt refuses a release if and only if it was refused before, or that attempt was an update to it whose failure reaches the ceiling |
| `UpdaterGuarantees.RollbackPoisonsRestoredIff` | agentupdate/rollback.go:106-229 | after a rollback that got as far as writing, the release it restores is refused if and only if it was before or the outcome kept was the last failure allowed of an update to that release |
| `UpdaterGuarantees.RestoredCanBeRefused` | agentupdate/rollback.go:106-138 | that happens: a rollback to the release whose third update attempt died refuses the release it restores |
| `UpdaterGuarantees.LaunchedRollbackPoisonsTheLeft` | agentupdate/rollback.go:209-300 | after a rollback that launched, the release left is refused in memory and on disk |
| `UpdaterGuarantees.RollbackKeepsOutcome` | agentupdate/rollback.go:106-138 | a rollback that reaches its first save has written with it, and still holds at the end, the outcome it would erase: filed in the free slot, or counted as dropped |
| `UpdaterGuarantees.RunRecordsUpdateIff` | agentupdate/runner.go:293-333 | a `Run` that goes on has its attempt recorded as an update if and only if the journal does not hold an unfinished rollback to the very version offered |
| `UpdaterGuarantees.RunTakesOverRollback` | agentupdate/runner.go:293-333 | that exception happens for every applicable release: `Run` continues the dead rollback as a rollback |
| `UpdaterSteering.RunSteered` | agentupdate/runner.go:420-529 | for every answer: taken down and not launched means exactly one attempt to restore, anything else means none, and no journal saved while steering is down hides it |
| `UpdaterSteering.RollbackSteered` | agentupdate/rollback.go:238-300 | the same for `Rollback` |
| `UpdaterSteering.CrashLeavesRecord` | agentupdate/journal.go:267-290 | wherever a sound and steered trace is cut with steering down, the journal the next pass reads says so |
| `UpdaterSteering.RunCrashLeavesRecord` | agentupdate/runner.go:420-529 | so it is for every `Run` cut off anywhere |
| `UpdaterSteering.RollbackCrashLeavesRecord` | agentupdate/rollback.go:238-300 | and for every `Rollback` cut off anywhere |
| `UpdaterSteering.FailedRestoreIsToldIff` | agentupdate/rollback.go:278-300 | over disarm, launch and restore, a failed restore is told to the caller if and only if it happened and the exit is not the rollback whose launch, restore and save all failed |
| `UpdaterSteering.RunTellsCaller` | agentupdate/runner.go:487-519 | `Run` tells its caller of a failed restore if and only if it happened |
| `UpdaterSteering.DeadAttemptIsToldIff` | agentupdate/runner.go:253-286 | a `Run` that finds an attempt dead in flight, where steering outlives the agent, tells its caller to check the network if and only if its save was confirmed; the warning is neither given nor left on disk if and only if the save took effect and was reported failed |
| `UpdaterSteering.ErasedRecordIsToldIff` | agentupdate/runner.go:253-286 | over any step of any run, a `Run` after which the disk no longer says the network is in question tells so exactly if its own save was confirmed |
| `UpdaterSteering.RollbackTellsCallerIff` | agentupdate/rollback.go:73-300 | `Rollback` tells its caller of a failed restore if and only if it happened and launch, restore and save did not all fail |
| `UpdaterSteering.SilentRollbackHappens` | agentupdate/rollback.go:288-295 | that exit is reached: on a new device a rollback takes steering down, fails to restore it and tells nothing of it |
| `UpdaterSteering.RehearsalPredicts` | agentupdate/runner.go:216-223 | a dry run changes neither journal nor disk nor steering, and says it would launch exactly when the real pass with nothing failing launches |
| `UpdaterSteering.RollbackRehearsalPredicts` | agentupdate/rollback.go:76-79 | a dry run of `Rollback` leaves the journal as it is, the outcome unheld, and says it would launch exactly when the real one with nothing failing launches |
| `UpdaterWaiting.HeldOnlyBeforeDeadline` | agentupdate/runner.go:329-375 | however often a device has polled one release and been turned away, by holds, freezes, waves, its own rules, an unreadable version or missing restore material, with crashes and failed saves, its start never moves, and an unobstructed pass held at the gate is before the start plus the deadline days |
| `UpdaterObject.PrepareRun` | agentupdate/runner.go:208-420 | the checks of `Run` as statements with their early exits equal `Prepare` |
| `UpdaterObject.LaunchWithRestore` | agentupdate/runner.go:420-519 | the launch with its deferred restore equals the launch stage, effects, outcome and errors included |
| `UpdaterObject.HandOverNow` | agentupdate/runner.go:420-519 | disarm, launch and restore as statements equal `HandOver` |
| `UpdaterObject.Run` | agentupdate/runner.go:208-519 | `Run` on a journal object and a device that records its effects equals `RunPass`: same journal, effects, outcome and errors |
| `UpdaterObject.RollBack` | agentupdate/rollback.go:73-300 | `Rollback` likewise equals `RollbackPass` |
| `UpdaterObject.ReconcileNow` | agentupdate/tick.go:17-44 | an open attempt is closed exactly when its target came back up |
| `AuthRollout.Store.Submit` | authrollout/state.go:229-284 | an edit is one transaction: what the file holds after a save that is confirmed, or reported failed with the old, the new, no or torn contents; a torn file refuses every edit; the local revision moves exactly on a confirmed write |
| `AuthRollout.EditKeeps` | authrollout/state.go:286-406 | every accepted edit keeps the state valid, keeps every observation advertising every enabled feature, moves the revision by one and takes nothing back |
| `AuthRollout.HistoryReachable` | authrollout/state.go:142-189 | in every history the stored state is valid and each stored observation advertises every enabled feature |
| `AuthRollout.HistoryNeverGoesBack` | authrollout/state.go:286-406 | in every history revision, generation, completion and enabled features never go back, and one revision is one state, unless a save emptied the file in between |
| `AuthRollout.HistoryHoldsIff` | authrollout/state.go:207-284 | from any state on, the store holds on to everything at every later point if and only if no save empties its file |
| `AuthRollout.EmptiedStoreStartsOver` | authrollout/state.go:207-215 | an emptied store starts over and gives a revision number to a second state |
| `AuthRollout.HistoryKeepsCensus` | authrollout/state.go:286-323 | in every history an id keeps its role and pin, a retired member stays retired, no member disappears and the provider baseline never changes, unless a save emptied the file |
| `AuthRollout.EnabledWasActivated` | authrollout/state.go:373-406 | a feature enabled in any history was added by an activation at which every non-retired member of that census had advertised it within the freshness limit |
| `AuthEdges.Cache.Adopt` | authrollout/distribution.go:82-151 | the cache and lease after a distribution, for a write that is confirmed, or reported failed with the old, the new, no or torn contents in the file |
| `AuthEdges.AdoptsExactlyTheNewer` | authrollout/distribution.go:91-119 | only a later state is ever adopted over a cached one; while no save empties the authority's file, the newer is adopted, the same changes nothing and the older conflicts: exactly by revision |
| `AuthEdges.RunSound` | authrollout/distribution.go:23-151 | for any loss, repetition, delay or reordering, with restarts and ambiguous writes, every Edge holds only states the authority held |
| `AuthEdges.EveryDeploymentSound` | authrollout/distribution.go:23-151 | so it is from an empty deployment on, and no lease is longer than the freshness limit |
| `AuthEdges.EdgesNeverGoBack` | authrollout/distribution.go:82-151 | whatever arrives and whatever the authority did, an Edge whose file is not emptied never goes back in revision, generation, completion or features |
| `AuthEdges.EdgeHoldsOnIff` | authrollout/distribution.go:82-151 | an Edge holds on to what it has, or to something later, or refuses to be read, at every point of a run if and only if no save of the run empties its file |
| `AuthEdges.EmptiedEdgeGoesBack` | authrollout/distribution.go:91-119 | with its file emptied an Edge takes any valid distribution however old under a new lease, and accepts legacy evidence if that state allows it |
| `AuthEdges.SameRevisionSameState` | authrollout/distribution.go:82-151 | while no save empties the authority's file, two Edges at one revision hold one state, and no Edge is ever ahead of the authority |
| `AuthEdges.CompletionEndsLegacy` | authrollout/distribution.go:153-166 | once an Edge holds a completed rollout, and while its file is not emptied, it never again accepts legacy evidence |
| `AuthEdges.RepeatsNeverExtendLease` | authrollout/distribution.go:58-151 | while an Edge stays on one revision and its file is not emptied, its lease is the one first granted or gone for good |
| `AuthEdges.LegacyWindowIsBounded` | authrollout/distribution.go:153-166 | all instants at which an Edge whose file is not emptied accepts legacy evidence under one revision lie within one freshness period |
| `AuthEdges.FeatureAtEdgeWasActivated` | authrollout/distribution.go:167-169 | a feature reported enabled at any Edge was activated at the authority as above |
| `CertPair.RecoveryKeeps` | certreload/pair_update.go:86-124 | recovery is safe at every instant, and a completed one leaves, durably, a matching pair that was already the only kind that could come out |
| `CertPair.UpdateKeeps` | certreload/pair_update.go:130-177 | an update is safe at every instant whatever the callback writes, and reports success only with the new pair durably committed |
| `CertPair.UnflushedUpdateIsNotSafe` | certreload/pair_update.go:126-177 | a callback that reports success without flushing, and a power loss after it, leave a certificate and a key that do not match and nothing to recover from |
| `CertPair.RunKeeps` | certreload/pair_update.go:86-201 | over every run of updates and recoveries cut off anywhere, with power losses that undo unflushed renames, only the first pair and pairs some update asked for can come out |
| `CertPair.PairIsAtomic` | certreload/pair_update.go:86-201 | from a matching pair, after every such run the journal holds a matching pair or the files match, and a completed recovery leaves one of those pairs whole |
| `CertPair.CommittedStays` | certreload/pair_update.go:164-177 | after an update that reported success only its pair or a later one can come out |
| `CertPair.ReloadSucceeds` | certreload/reload.go:51-75 | after every such run a reload whose reads and writes succeed finds a matching pair |
| `CertPair.Backing.Recover` | certreload/pair_update.go:86-124 | recovery as ordered writes goes through exactly the disk states of `Recovery` |
| `CertPair.Backing.WithPairUpdate` | certreload/pair_update.go:130-177 | the update as ordered writes goes through exactly the disk states of `Update` |
| `CertPair.ReloadableCert.Reload` | certreload/reload.go:51-75 | only a matched pair is ever served, a failed reload keeps the served one |
| `DecisionStore.PinnedSurvives` | accessdecision/store.go:63-175 | a decision in flight survives every sequence of operations on other ids, unchanged |
| `DecisionStore.CapacityHolds` | accessdecision/store.go:131-153 | the unpinned decisions stay within the capacity over every history |
| `DecisionStore.LostOnlyForCause` | accessdecision/store.go:131-153 | a decision is given up only if it had expired or capacity many others are at least as recent |
| `DecisionStore.EvictionIsDetermined` | accessdecision/store.go:131-153 | with distinct last-seen times the promise determines what is left |
| `DecisionStore.FrontEvictionIsRight` | accessdecision/store.go:131-159 | because the list is sorted, dropping from its front removes exactly the expired and then the least recent down to the capacity |
| `DecisionStore.Store.Evict` | accessdecision/store.go:131-159 | the two loops keep map, list and counter consistent and meet the eviction promise |
| `DecisionStore.Store.UpsertDecision` | accessdecision/store.go:63-68 | refines the map of id to pinned or last seen |
| `DecisionStore.Store.MarkDecisionInFlight` | accessdecision/store.go:72-77 | refines the map; other entries are only evicted |
| `DecisionStore.Store.MarkDecisionComplete` | accessdecision/store.go:81-96 | refines the map; an unknown id still evicts |
| `DecisionStore.Store.GetDecision` | accessdecision/store.go:163-175 | returns the stored decision and refreshes it exactly if it is unpinned |
| `DecisionStore.Store.InFlightCount` | accessdecision/store.go:229-234 | the counter is the number of pinned decisions |
| `Cidr.OverlapIffShared` | connector/route.go:220-222 | two masked blocks pass the base-address test if and only if some address is in both |
| `Cidr.OverlapIsNested` | connector/route.go:220-222 | overlapping blocks are nested |
| `Cidr.RelationIsExact` | connector/route.go:225-238 | for overlapping blocks the vague relation is never reported, equal and contains mean equality and inclusion of addresses, and the other side sees the relation reversed |
| `Cidr.CollisionIsSymmetric` | connector/route.go:177-216 | collision is symmetric with contains and contained-by exchanged |
| `Cidr.DetectCollisions` | connector/route.go:177-216 | the scan reports the colliding routes in their order |
| `Cidr.ReportedIff` | connector/route.go:177-216 | reported are exactly the existing routes that collide |
| `Routes.ScanAnswersIff` | connector/route.go:26-40 | the scan gives the smallest id among the longest covers, refusing differing namespaces, if and only if no longest cover has an empty id or the last one has |
| `Routes.OrderDoesNotMatter` | connector/route.go:95-136 | for connectors with non-empty ids every ordering of the list gives the same answer, that one |
| `Routes.EmptyIdsMakeOrderMatter` | connector/route.go:95-136 | two connectors, one with an empty id, give two answers for one address in the two orders |
| `RouteNames.DomainMatchIsByLabels` | connector/route.go:57-86 | a route domain fronts a host exactly when its labels end the host's, strictly for a wildcard, and its specificity is the number of those labels |
| `RouteNames.TiesAreTheSameName` | connector/route.go:57-86 | two domains that front a host equally specifically are the same name |
| `RouteCandidates.HeadIsAnswer` | connector/route.go:259-334 | the head of the candidate list is the smallest id among the longest covers, or the list is empty when none covers or namespaces differ |
| `RouteCandidates.ResolversAgreeIff` | connector/route.go:21-40 | the single resolver and the head of the list agree if and only if the covers are orderly, in particular whenever every id is given |
| `RouteCandidates.CandidatesOrderFree` | connector/route.go:259-334 | for connectors with distinct ids the whole candidate list is the same in every ordering |
| `RouteCandidates.ResolveForHost` | connector/route.go:21-40 | the nested loops compute the scan over all name covers |
| `RouteCandidates.ResolveForIP` | connector/route.go:95-136 | the nested loops compute the scan over all address covers in scope |
| `RouteCandidates.ResolveCandidates` | connector/route.go:259-334 | the loops, the stable sort and the ambiguity check compute the candidate list |
| `Catalog.UniqueAlias` | assetcatalog/assetcatalog.go:86-105 | the open-ended suffix search ends within one more try than there are aliases in use by others, with the first free alias |
| `Catalog.Search` | assetcatalog/assetcatalog.go:86-105 | the alias found is free, and every earlier try was taken |
| `Catalog.PutKeepsIff` | assetcatalog/store.go:88-105 | storing an entity keeps alias map and entities in exact correspondence if and only if no other kind of the tenant uses its id |
| `Catalog.DeleteKeeps` | assetcatalog/store.go:188-232 | deleting keeps the correspondence |
| `Catalog.DeleteAllStep` | assetcatalog/distribution.go:149-171 | deleting one key after another in any order is deleting them all |
| `CatalogRuns.RunKeepsAliases` | assetcatalog/store.go:88-232 | from an empty catalog with ids distinct across kinds, after every sequence of upserts, deletes and replacements the correspondence is exact, so no two entities of a tenant share an alias |
| `CatalogRuns.ReplacedExactlyIff` | assetcatalog/distribution.go:91-174 | for every catalog and all lists: the authored part becomes exactly what the lists say if and only if, among the authored keys, the texts written down and the shipped ids pick out the keys the lists say |
| `CatalogRuns.ReplacedExactly` | assetcatalog/distribution.go:91-174 | with tidy entries and no NUL in a tenant: the authored part becomes exactly what the lists say, bodies included, with endpoints derived from enrolment kept, if and only if no authored entry the lists do not mention has a shipped id |
| `CatalogRuns.StoredIsDroppedIff` | assetcatalog/distribution.go:108-147 | an entry just stored is dropped again exactly when its text was not written down and its id is not shipped; without a NUL, when the lists do not mention it in the form it is stored under |
| `CatalogRuns.UntidyExample` | assetcatalog/distribution.go:108-131 | into any catalog, an endpoint whose tenant has a leading space is stored and dropped by the same replacement |
| `CatalogRuns.ShippedEntryStays` | assetcatalog/store.go:188-215 | an authored endpoint or group under a shipped id survives even a replacement by nothing |
| `CatalogRuns.NulKeepsStranger` | assetcatalog/distribution.go:108-131 | a NUL in a tenant makes two entries share a text, so an entry nobody mentions is kept |
| `CatalogStore.Store.ClaimAlias` | assetcatalog/store.go:97-105 | the alias claimed and the alias map after it |
| `CatalogStore.Store.UpsertItem` | assetcatalog/store.go:110-183 | the catalog after an upsert, or unchanged when refused |
| `CatalogStore.Store.DeleteItem` | assetcatalog/store.go:188-232 | the catalog after a delete; unknown ids and endpoints or groups under shipped ids change nothing |
| `CatalogStore.Store.ReplaceAuthored` | assetcatalog/distribution.go:91-174 | upserts in order, then the stale entries deleted in any order, equal `Replace`; a failure leaves the catalog as it was |
| `SingleWriter.NoUpdateIsLost` | blobstore/single_writer.go:40-82 | in every interleaving a save by a process that has loaded is refused unless the file holds the contents that process last knew; otherwise the file then holds the old or the new contents if and only if the write did not destroy both by failing after truncating |
| `SingleWriter.ChangeHasKnowingWriter` | blobstore/single_writer.go:61-82 | the file changes only by a save, to the first part of its data, to all of it if and only if the write was not cut short, and from contents the saver knew, or blindly by a process that never loaded |
| `SingleWriter.RefusalHasCause` | blobstore/single_writer.go:66-73 | a process that has loaded is refused exactly when the file differs from what it held where the process last knew it, and then a save since changed it behind its back: another process's, its own reported as failed, or its own during an unfinished load |
| `SingleWriter.TornSaveLosesBoth` | blobstore/blobstore.go:128-134 | a process alone on a file that can only be written in place: a failing write leaves neither old nor new contents, and its next save is refused |
| `SingleWriter.File.Save` | blobstore/blobstore.go:90-134 | the contents and the reported outcome for a replacement that is done, unflushed, not staged or impossible, and for every way the write in place can go |
| `SingleWriter.BlindSaveOverwrites` | blobstore/single_writer.go:66-73 | a process that never loaded does overwrite |
| `SingleWriter.Persister.Save` | blobstore/single_writer.go:51-82 | file and remembered digest after a save, for every such outcome |
| `RolloutPlans.OpensIff` | agentupdate/rollout.go:195-307 | a plan opens the device if and only if it is readable, not a halt, not known to be for another, not from the future, not older than the floor, not stale and about the release offered |
| `RolloutPlans.HaltIsAlwaysObeyed` | agentupdate/rollout.go:216-296 | a plan that halts always halts |
| `RolloutPlans.FloorNeverFalls` | agentupdate/journal.go:221-240 | over every sequence of plans the accepted floor never falls |
| `RolloutPlans.FloorStaysNearClock` | agentupdate/rollout.go:216-224 | however plans are dated the floor never passes the latest clock reading plus the tolerance |
| `RolloutPlans.OthersLeaveNoTrace` | agentupdate/rollout.go:236-270 | plans known to be for another device or tenant change nothing, however many arrive |
| `RolloutPlans.NoReplayOpens` | agentupdate/rollout.go:244-253 | after a plan has been accepted, only a plan at least as new can open the device |
| `Reports.BooksBalance` | agentupdate/report.go:300-484 | in every interleaving of prunes with the sender's steps, with crashes and with writes refused or truncated, files unreadable and removals or renames failing anywhere, total drops plus repeats equal what is owed, carried and lost |
| `Reports.FaultsAreExactly` | agentupdate/report.go:300-484 | a count is lost, or may be told twice, exactly if one of the named steps was taken |
| `Reports.DropsAreConserved` | agentupdate/report.go:394-467 | without a losing step nothing dropped goes untold, a sender crash between claim and release can only repeat a count, and the account is exact if and only if no repeating step was taken |
| `Reports.CrashInReleaseLoses` | agentupdate/report.go:446-467 | a crash while an undelivered claim is put back loses its count |
| `Reports.FullDiskLosesOrphan` | agentupdate/report.go:374-440 | a full disk loses an orphaned claim: folding it in creates an empty ledger that is renamed over it, reads as nothing and is removed |
| `Reports.KeptClaimIsToldTwice` | agentupdate/report.go:446-467 | a claim that could not be removed when its count was put back is told twice |
| `Reports.RemovesAPrefixIff` | agentupdate/report.go:217-256 | a drain removes exactly a prefix if and only if it removes nothing behind a corrupt file whose removal failed |
| `Reports.StuckFileIsSteppedOver` | agentupdate/report.go:232-236 | a spool of two files whose drain removes the second and leaves the first |
| `Reports.LeftIs` | agentupdate/report.go:217-256 | what a drain leaves: such stuck files, then everything from the first stop on, in order |
| `Reports.SentInOrder` | agentupdate/report.go:225-254 | the accepted reports are all the good ones reached, in order, and only the first carries the count of drops |
| `Reports.Spool.DrainReports` | agentupdate/report.go:217-256 | the loop over the stored files equals `Drain`, and the count is delivered exactly if some report was accepted |

## Left out

- Signatures, digests, X.509, base64 and JSON: parameters or already decoded values.
- Texts of log lines, reasons and errors: an error is one of a few kinds; a withheld wave is a flag.
- Journals with the phases pending reboot and observing: no modelled code enters them; properties are over journals
  reachable from a new one.
- The completion of a pending report written by a build without report ids (`agentupdate/journal.go:795-827`).
- Manifest signing, validation and artifact verification: only applicability and ordering are modelled.
- Reading and verifying the plan envelope: `RolloutPlans` starts where a plan has been decoded.
- Case folding outside ASCII, in device identities and host names.
- Overflow of durations, revisions, generations and counters: integers are unbounded.
- SingleWriter.NoUpdateIsLost: assumes the file lock excludes other writers and that digests tell contents apart.
- A power loss that undoes a journal or blob whose replacement was reported as not flushed (`CertPair` does model it).
- Combined certificate and key files, which have no journal.
- CertPair.UpdateKeeps: requires a callback that reports success to have flushed what it wrote, as its documentation
  demands.
- Parsing of addresses and blocks: routes hold parsed, masked blocks; IPv4-mapped IPv6 blocks are not modelled.
- Service port normalisation and the validation of endpoint kinds: a flag on the incoming item.
- Persistence and refresh of the catalog: it starts empty, and a failed operation leaves it as it was.
- Reports.BooksBalance: one sending process at a time; any number of pruning processes.
- Report ids, the order in which reports are pruned, and refusal reports.
- Queries of the decision store by tenant and application.

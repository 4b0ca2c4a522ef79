# AKM core algorithms and protocols, modelled and proved in Dafny

AKM is a package manager for agent knowledge: bundles of markdown assets that are indexed, searched,
improved and shared through a registry. This project models the parts of it that are hard to get
right by reading: a lock file shared by processes that die, promise chains and worker pools, a JSONC
reader, atomic file replacement, a registry merge, bundle naming and renaming, the ref grammar, ref
surgery across tables, and a package installer that has to undo itself.

`dafny verify dfyconfig.toml` checks everything.

## How the models are built

- **Protocols are step systems.** A state, the steps enabled in it, and their effect; the theorems
  quantify over every sequence of steps. `FileLock` has one step per file-system call of each process
  and a death step. `SerializeByKey` and `ConcurrentMap` have one step per promise reaction or worker
  turn; their classes `Chains` and `Pool` hold the same state in fields, each method's new state is the
  step's, and `SerializeAll` and `ConcurrentMap` drive them to the end through any order of steps.
- **Loops are methods** proved against a recursive function or a declarative predicate, whose meaning is
  then proved by lemmas. Objects the code updates in place (`Walk`, `Disk`, `UsedIds`, `StateDb`,
  `Prefix`) are classes.
- **What the code calls but does not decide is a parameter**: failing system calls are chosen
  nondeterministically, and so are the order of worker turns and the moment of an abort; random names are
  fresh numbers; `localeCompare` is any total preorder; the entry order of an object and the names every
  object inherits are given; `JSON.parse`, digests, path functions, npm and the
  health check of an installed package are arbitrary functions or outcomes.

### The lock file

A process is an *owner* from its successful `linkSync` (src/core/file-lock.ts:100) until its own last
`unlinkSync` of the lock path, on the error paths (110, 114) as well as in `releaseLock` (229). It
acquires only while it owns nothing and releases each ownership once. Pids and inodes are not reused,
a dead process stays dead, and no two lock files ever have the same content and the same identity,
because every payload carries a fresh `lockId`. Every call may fail at any time.

Between the rename at line 183 and the put-back at line 202 a reclaimer can hold the file of a live
owner. That makes unconditional mutual exclusion false, and the project says exactly when it holds:
over a whole run the lock stays protected (one live owner at most, and a path that names no other
file while it lives) if and only if no file is linked onto the path while an owner's other file is in
quarantine. `ThreeProcessesCanBothOwn` is a concrete run of three processes, without any failing call,
in which two live processes own the lock. With two processes the condition cannot be violated, provided
that the put-back link fails only because the path is taken; `FailedPutBackLetsTwoOwn` shows the run
that breaks it otherwise.

Whether a lock nobody owns can be taken again has its own exact condition (`FileLockRelease`): the path
must be *attended*, that is, free or naming a file that is stale or that a live process owns. A step ends
that exactly when it leaves a live file there that nobody owns, by a put-back or by an owner that gives up
its own file without unlinking it.

### Where code and documentation differ

- src/core/file-lock.ts:10-11 has a probe tell live holders from dead ones. A put-back (202) that comes after
  its owner's release (228) leaves the lock of a live process that no longer holds it: two processes, no
  failing call, and everyone is locked out until that process dies (`ReleasedLockCanStay`,
  `BlockedUntilDeath`). `AlwaysAttendedExactly` says in which runs it cannot happen. With four processes a
  release can leave its own file as well, because it read back another's (`ReleaseCanLeave`).
- scripts/rekey-asset-ref.ts:42-43 calls a second run a no-op. It moves nothing, but line 160 still deletes
  detached usage events at the new ref, among them the ones the first run put there. `SecondRunMovesNothing`
  gives the exact condition, `SecondRunCanDropEvents` an input.
- scripts/rekey-asset-ref.ts:299-303 says that a failed index step changes nothing in the end. The swapped
  call restores the tables exactly when the new ref had no rows before, and otherwise does not
  (`CompensationRestoresExactly`, `SwappedCallCanMoveMore`).
- `mergeEntries` (scripts/build-registry-index.ts:453-470) is not associative in the asset types in general:
  the key `type:name` is ambiguous when a type contains a colon, and a type can then be lost or kept depending
  on the grouping. So a list of entries may not always be deduplicated in parts. `MergeAssociatesExactly` and
  `DeduplicationIsAHomomorphismExactly` give the exact conditions, `ColonsCanHideAKind` and
  `DeduplicatingPartsCanDiffer` the entries that fail; types without a colon never do.
- src/core/bundle-rename.ts:105-134 accepts `__proto__` as a new bundle id, and the assignment at 134 then sets
  the prototype of the new record instead of an entry: the bundle is gone (`RenamingToProtoLosesTheEntry`).
  The lookup at 106 also finds names every object inherits, such as `constructor`; such a rename rewrites
  defaults and refs but makes no bundle. `NothingNamesTheOldId` and `ThereAndBackExactly` say exactly when
  entries are kept and come back.
- src/core/asset/asset-ref.ts:132-133 promises that printing a parsed ref round-trips for everything the parser
  accepts. It does not for a concept id that ends in white space when no fragment follows, which an empty
  fragment lets through (`a #`). `RefsRoundTripExactly` gives the exact condition.
- scripts/package-install.ts:404-408 restores a launcher that was a regular file with the mode the platform
  gives it on creation, so an exact restoration needs modes that survive that.

## Model

| member | source | states |
|---|---|---|
| FileLockInvariant.StepKeepsSound | src/core/file-lock.ts:91-231 | every file-system call of any process, and any death, keeps the protocol invariant: complete payloads under shared names, one place per published file, no way back for a reclaimed one |
| FileLockRuns.RunIsSound | src/core/file-lock.ts:91-231 | the invariant holds in every world of every run |
| FileLockRuns.LockPathIsAlwaysComplete | src/core/file-lock.ts:91-118 | whatever is reachable at the lock path in any run carries a finished payload |
| FileLockRuns.ReclaimedOnceAndForGood | src/core/file-lock.ts:164-217 | over any run no lock file is reclaimed by two calls, and a reclaimed file never returns to the lock path |
| FileLockRuns.ReclaimDeletesTheProbedFile | src/core/file-lock.ts:164-217 | a reclaim that returns true deletes exactly the probed file, which is stale, held by no live process and not reclaimed before |
| FileLockRuns.HandleExactlyWhileOwning | src/core/file-lock.ts:106-118 | over any run, a process between calls has a handle if and only if it owns a lock, whatever reading its file back came to |
| FileLockSafety.StepKeepsExclusive | src/core/file-lock.ts:91-231 | a step that links no file onto the path while an owner's other file is in quarantine keeps one owner at most, its file safe and its handle right |
| FileLockSafety.LastUnlinkKeepsExclusive | src/core/file-lock.ts:106-116 | an owner's last unlink removes its own file or nothing |
| FileLockRuns.ProtectedExactlyWhenUndisturbed | src/core/file-lock.ts:183-206 | one step leaves the lock protected if and only if it links no file over an owner's quarantined one |
| FileLockRuns.MutualExclusion | src/core/file-lock.ts:91-231 | for any number of processes, the lock is protected in every world of a run if and only if no step of the run links a file onto the path while an owner's other file is in quarantine |
| FileLockRuns.ReleaseUnlinksOnlyItsOwn | src/core/file-lock.ts:220-231 | in such a run a release, or an abandoned acquire, unlinks its own file or nothing, despite the gap between reading and unlinking |
| FileLockRuns.TwoProcessMutualExclusion | src/core/file-lock.ts:91-231 | between two processes the lock is protected in every reachable world, whatever dies and whatever else fails, if the put-back link fails only with EEXIST |
| FileLockCalls.UncontendedAcquire | src/core/file-lock.ts:91-118 | on a free path an undisturbed acquire leaves one new complete file there, a handle that describes it, and every other name as it was |
| FileLockCalls.FailedReadBackGivesUp | src/core/file-lock.ts:106-116 | if the published file cannot be read back, the acquire leaves the directory and the processes as they were |
| FileLockCalls.UncontendedReclaim | src/core/file-lock.ts:137-217 | on a lock that names no pid or a dead one an undisturbed probe and reclaim free the path, delete that file and change no other name |
| FileLockCalls.ProbeDecides | src/core/file-lock.ts:137-158 | after an undisturbed probe the process may reclaim if and only if the payload is whole and names no pid, or a dead one |
| FileLockCalls.NamelessIsReclaimed | src/core/file-lock.ts:150-151 | a run that reclaims a lock without a pid although nobody has died |
| FileLockCalls.AcquireThenRelease | src/core/file-lock.ts:91-231 | without interleaving, acquire followed by release restores the directory and leaves nothing held; FileLockRelease says what becomes of a release otherwise |
| FileLockCalls.LiveLockIsDisplaced | src/core/file-lock.ts:178-187 | a run in which a reclaimer moves the file of a live owner aside |
| FileLockCalls.ThreeProcessesCanBothOwn | src/core/file-lock.ts:183-206 | a run of three processes, in which every call succeeds and nobody dies, after which two live processes own the lock |
| FileLockCalls.FailedPutBackLetsTwoOwn | src/core/file-lock.ts:201-207 | a run of two processes in which a failed put-back link lets both own the lock |
| FileLockRelease.AttendedExactlyWhenNothingIsLeft | src/core/file-lock.ts:91-231 | one step of an attended lock leaves it attended if and only if it leaves no live file on the path that nobody owns |
| FileLockRelease.AlwaysAttendedExactly | src/core/file-lock.ts:91-231 | over a whole run the path is free, stale or owned throughout if and only if it starts so and no step leaves such a file |
| FileLockRelease.OnlyPutBackLeaves | src/core/file-lock.ts:201-206 | where the owners' files are safe and no call fails, only a put-back can leave one |
| FileLockRelease.CanBeTakenAgain | src/core/file-lock.ts:91-217 | with nobody owning an attended lock, an undisturbed contender reclaims what is on the path, if anything, and owns the lock |
| FileLockRelease.CanBeTakenExactlyWhenAttended | src/core/file-lock.ts:91-231 | with nobody owning the lock or past a recheck, some calls get it for a process at rest if and only if it is attended |
| FileLockRelease.BlockedUntilDeath | src/core/file-lock.ts:91-231 | from an unattended path, with nobody owning the lock or past a recheck, no calls of any processes get anyone the lock before the process its file names has died |
| FileLockRelease.ReleasedLockCanStay | src/core/file-lock.ts:201-229 | a run of two processes without a failing call or a death, after which nobody owns the lock and the path is not attended |
| FileLockRelease.ReleaseCanLeave | src/core/file-lock.ts:106-117 | a run of four processes without a failing call or a death whose last step, a release, leaves its own file |
| SerializeByKey.StepKeepsValid | src/core/concurrent.ts:17-36 | every call and every promise reaction keeps the chain invariant |
| SerializeByKey.OneAtATimeInCallOrder | src/core/concurrent.ts:17-36 | over any run and any mix of failures, tasks of one key run one at a time and start in the order of the calls |
| SerializeByKey.StartsExactlyWhenItsKeyIsFree | src/core/concurrent.ts:22-28 | a waiting task can start if and only if the earlier tasks of its own key are over; other keys never matter |
| SerializeByKey.DeletesExactlyTheDrainedTail | src/core/concurrent.ts:29-34 | a clean-up deletes the map entry if and only if no later task is queued behind it |
| SerializeByKey.EachCallerIsToldItsOwn | src/core/concurrent.ts:22-35 | over any run a caller is told an outcome if and only if its own task ended with it |
| SerializeByKey.DrainsInWorkSteps | src/core/concurrent.ts:17-36 | without further calls every step does one unit of the remaining work, so every chain drains |
| SerializeByKey.StopsOnlyWhenDrained | src/core/concurrent.ts:17-36 | a run can stop only when every task has run and been cleaned up and the map is empty |
| SerializeByKey.Chains.SerializeByKey | src/core/concurrent.ts:17-36 | the call on the caller's own map takes exactly the call step |
| SerializeByKey.Chains.OnSettled | src/core/concurrent.ts:32-34 | the reaction on the map takes exactly the clean-up step |
| SerializeByKey.SerializeAll | src/core/concurrent.ts:17-36 | however calls and reactions on the map interleave and whichever tasks fail, the run ends with every task run exactly once, those of one key in the order of the calls, each caller told how its own task ended, and the map empty |
| ConcurrentMap.StepKeepsValid | src/core/concurrent.ts:55-79 | every worker turn, settled call and abort keeps the pool invariant |
| ConcurrentMap.ClaimsEachIndexOnce | src/core/concurrent.ts:65-67 | over any run the claimed indices are the prefix up to nextIndex, each claimed once and in order |
| ConcurrentMap.NeverMoreThanThePool | src/core/concurrent.ts:64-77 | the calls in flight are the claimed unsettled indices: at most `concurrency`, at most one for each item, none without a positive `concurrency` |
| ConcurrentMap.ThePoolFills | src/core/concurrent.ts:76 | and some run has `concurrency` calls in flight, or one for each item |
| ConcurrentMap.NoClaimAfterAbort | src/core/concurrent.ts:66 | once the signal has aborted nothing is claimed any more |
| ConcurrentMap.EachSlotIsItsOwnResult | src/core/concurrent.ts:61-78 | when the workers are done every claimed slot holds its own call's result, or nothing if that call threw, and no other slot holds anything |
| ConcurrentMap.EveryItemIsCalled | src/core/concurrent.ts:65-76 | without an abort every item is called if and only if the pool has a worker or there is no item |
| ConcurrentMap.PoolProgresses | src/core/concurrent.ts:64-78 | each turn and each settled call reduces the remaining work, and one of them is possible until every worker is done |
| ConcurrentMap.Pool.WorkerTurn | src/core/concurrent.ts:65-67 | the turn on the shared variables takes exactly the worker step |
| ConcurrentMap.Pool.OnSettled | src/core/concurrent.ts:68-72 | storing a result, or swallowing an error, takes exactly the settling step |
| ConcurrentMap.ConcurrentMap | src/core/concurrent.ts:55-79 | for every order of turns and every moment of abort the map terminates with a prefix of the items called and each outcome in its own slot; without an abort and with a worker, all of them |
| ClosestMatch.DistanceIsLeastCost | src/core/closest-match.ts:11-23 | the recursive distance is the least cost of any edit script from one string to the other |
| ClosestMatch.DistanceIsReached | src/core/closest-match.ts:11-23 | some script costs exactly the distance |
| ClosestMatch.DistanceIsALowerBound | src/core/closest-match.ts:11-23 | no script costs less |
| ClosestMatch.Symmetric | src/core/closest-match.ts:11-23 | the distance is the same in both directions |
| ClosestMatch.ZeroOnlyWhenEqual | src/core/closest-match.ts:11-23 | the distance is zero if and only if the strings are equal |
| ClosestMatch.Triangle | src/core/closest-match.ts:11-23 | the triangle inequality |
| ClosestMatch.EditDistance | src/core/closest-match.ts:12-23 | the rolling-row loop computes that distance for all strings |
| ClosestMatch.ClosestMatch | src/core/closest-match.ts:29-40 | the first candidate of least distance is returned if and only if that distance is within the threshold |
| ExtraParams.NormalizeIgnoresSpelling | src/core/extra-params.ts:71-73 | a capital letter anywhere in a key may be replaced by its lower-case letter, and any other ASCII character that is no letter or digit may be left out |
| ExtraParams.NormalizesToWhatItSpells | src/core/extra-params.ts:71-73 | a key normalizes to a name of letters and digits if and only if it spells it, in any mixture of cases and with other characters anywhere between |
| ExtraParams.CredentialsAreCaught | src/core/extra-params.ts:18-30 | a key counts as a credential if and only if it spells one of the eight names |
| ExtraParams.ProtectedAreCaught | src/core/extra-params.ts:5-29 | a key counts as protected if and only if it spells one of the ten names |
| ExtraParams.OffenceIsSpelled | src/core/extra-params.ts:96-110 | an offence is a reachable key that spells a credential, or a key of the root that spells a protected name |
| ExtraParams.Walk.Visit | src/core/extra-params.ts:87-113 | a visit enters each unseen container below an entry once and adds exactly their offences |
| ExtraParams.Walk.VisitItems | src/core/extra-params.ts:88-95 | the array branch of the walk |
| ExtraParams.Walk.VisitEntries | src/core/extra-params.ts:96-112 | the object branch of the walk |
| ExtraParams.ValidateExtraParams | src/core/extra-params.ts:76-116 | on any finite, possibly cyclic graph the walk ends after visiting every reachable container once; the issues are exactly the credential keys of reachable objects and the protected keys of the root, and each path leads from the root to its key |
| ExtraParams.NoIssuesMeansClean | src/core/extra-params.ts:76-116 | an object root has no issue if and only if no reachable object has a key that spells a credential and the root none that spells a protected name |
| Jsonc.StripJsonComments | src/core/common.ts:104-142 | the first loop computes the comment-stripping function |
| Jsonc.StripTrailingCommas | src/core/common.ts:951-971 | the second loop computes the comma-dropping function |
| JsoncTokens.StripsExactlyTheComments | src/core/common.ts:99-142 | from any decorated token sequence the first pass removes the comments and nothing else, string literals included |
| JsoncTokens.StripsExactlyTheTrailingCommas | src/core/common.ts:950-971 | the second pass removes exactly the commas whose next token is a closing brace or bracket |
| JsoncTokens.StrippingUndecorates | src/core/common.ts:973-984 | both passes leave a text whose tokens are those of the input without comments and trailing commas |
| JsoncTokens.PlainTextIsUntouched | src/core/common.ts:104-142 | text without comments and trailing commas passes through both unchanged |
| JsoncTokens.ParseJsonc | src/core/common.ts:977-984 | the second pass runs only when the stripped text does not parse; with a parser that rejects trailing commas the result for any decorated text is that of its undecorated text |
| JsoncTokens.ParsesTheUndecoratedText | src/core/common.ts:977-984 | for a parser that rejects trailing commas, a decorated text parses to exactly what its undecorated text does |
| AtomicWrite.WriteAll | src/core/common.ts:185-190 | the write loop ends, having written exactly the data unless a call fails or makes no progress, and succeeds if none does |
| AtomicWrite.Prepare | src/core/common.ts:176-193 | creating, filling and syncing the private file changes nothing the target can show after a power loss, and succeeds if the name is free and no call fails |
| AtomicWrite.CleanUp | src/core/common.ts:210-219 | removing the private name never changes the target |
| AtomicWrite.Publish | src/core/common.ts:194-240 | from the rename on the target shows an earlier content or the new one, whole; once the directory is synced, only the new one; without a failing call it is renamed and nothing is thrown |
| AtomicWrite.WriteFileAtomic | src/core/common.ts:166-241 | after every step of every outcome, and whatever a power loss keeps, the target holds one of its earlier contents or the new content, whole; a failure before the rename leaves it as it was; without a failing call, and with a fresh private name, the new content is there and nothing is thrown, and it is durable where directories can be synced |
| ConfigDiff.JoinIsInjective | src/commands/config-cli.ts:116-122 | different paths of non-empty dot-free keys have different dotted names |
| ConfigDiff.CollideExactly | src/commands/config-cli.ts:121 | two paths get the same dotted name if and only if their keys fall into the same pieces between dots |
| ConfigDiff.SameLeavesMeansEqual | src/commands/config-cli.ts:110-122 | a configuration is determined by its leaves |
| ConfigDiff.FlattenConfigLeaves | src/commands/config-cli.ts:116-122 | the walk in entry order sets the dotted name of each leaf in turn |
| ConfigDiff.LeafIsListed | src/commands/config-cli.ts:117-121 | the walk comes to every leaf |
| ConfigDiff.ListedIsLeaf | src/commands/config-cli.ts:117-121 | and to nothing but leaves, each under the dotted name of its path |
| ConfigDiff.LastLeafStays | src/commands/config-cli.ts:121 | of several leaves with one dotted name the last in entry order stays |
| ConfigDiff.FlattenIsInjective | src/commands/config-cli.ts:116-122 | trees no two of whose leaf paths share a dotted name flatten alike if and only if they are equal, whatever their entry orders |
| ConfigDiff.PlainKeysDoNotClash | src/commands/config-cli.ts:121 | trees with non-empty keys without dots have no such paths |
| ConfigDiff.DotsCanCollide | src/commands/config-cli.ts:121 | for any two keys, the key joined by a dot and the nested pair are different trees that flatten alike |
| ConfigDiff.DiffLeaves | src/commands/config-cli.ts:134-142 | the loop and the sort give exactly the differing leaves, each once, sorted by path, with the missing side absent |
| ConfigDiff.DiffConfigs | src/commands/config-cli.ts:129-143 | the rows are the diff of the leaves the two configurations flatten to in their entry orders |
| ConfigDiff.EmptyDiffMeansEqual | src/commands/config-cli.ts:129-143 | where leaf names do not clash the diff is empty if and only if the configurations are equal |
| ConfigDiff.ReversedDiffSwapsColumns | src/commands/config-cli.ts:129-143 | the diff the other way round has the same rows with the columns swapped, and in the same order if no two of its paths tie |
| ConfigDiff.OverlayGivesOther | src/commands/config-cli.ts:129-143 | laying the rows over the local leaves gives the other side's leaves |
| KeyedMerge.MergedDependsOnLookup | scripts/build-registry-index.ts:477-488 | under a total order, a first-wins sorted merge depends only on which element each key finds first |
| KeyedMerge.SortedByTies | scripts/build-registry-index.ts:515-517 | a sorted list is determined by the order within each group of tied keys, which a stable sort keeps |
| KeyedMerge.MergedAssociates | scripts/build-registry-index.ts:472-484 | first-wins sorted merging is associative, even where different keys tie |
| RegistryMerge.MergeStringsMember | scripts/build-registry-index.ts:486-489 | a merged string list holds exactly the non-blank strings of its parts |
| RegistryMerge.MergeAssetLists | scripts/build-registry-index.ts:472-484 | the map loop over two asset lists gives the first asset of each key, sorted, or nothing |
| RegistryMerge.MergeAssociatesExactly | scripts/build-registry-index.ts:453-470 | merging entries is associative in every field if and only if no asset type is hidden behind another entry's asset of the same key |
| RegistryMerge.ColonFreeHidesNothing | scripts/build-registry-index.ts:479 | with asset types that have no colon nothing is ever hidden |
| RegistryMerge.ColonsCanHideAKind | scripts/build-registry-index.ts:455 | three entries with colons in their types for which the two groupings differ |
| RegistryDedup.OneEntryPerId | scripts/build-registry-index.ts:444-451 | deduplication gives one entry per id, in first-seen order |
| RegistryDedup.GroupingAgreesExactly | scripts/build-registry-index.ts:447-449 | for the entries of one id, merging the later ones first gives the same entry if and only if no type that wins among the later ones is declared by none and wins no key among all |
| RegistryDedup.DeduplicationIsAHomomorphismExactly | scripts/build-registry-index.ts:444-451 | deduplicating two lists and then their concatenation is deduplicating the concatenation if and only if the second list hides no type of an id that has an entry in the first and several in the second |
| RegistryDedup.DeduplicationIsAHomomorphism | scripts/build-registry-index.ts:444-451 | so it always is with asset types that have no colon |
| RegistryDedup.DeduplicatingPartsCanDiffer | scripts/build-registry-index.ts:444-451 | lists of one and of two entries for which it is not |
| RegistryDedup.DeduplicatedIsFixed | scripts/build-registry-index.ts:444-451 | deduplicating again changes nothing |
| RegistryStashes.EachStandsForItsId | scripts/build-registry-index.ts:444-470 | each entry has the identity of the first input entry with its id and of every other field the first value given; if it stands for several, all their non-blank tags, the first asset of each key, and the types declared or kept |
| RegistryStashes.DeduplicateStashes | scripts/build-registry-index.ts:444-451 | the loop over an insertion-ordered map gives one such entry per id, in first-seen order |
| BundleIds.SlugifyIsNeat | src/core/bundle-id.ts:28-33 | a slug is letters and digits joined by single dashes, or empty |
| BundleIds.NeatNameIsItsOwnSlug | src/core/bundle-id.ts:12-33 | a base name of lower-case letters and digits joined by single dashes is its own slug |
| BundleIds.NamelessPathGetsItsHash | src/core/bundle-id.ts:14-16 | a path whose base name leaves no slug gets one made from its hash |
| BundleIds.NumberingIsInjective | src/core/bundle-id.ts:103-105 | different numbers give different candidates |
| BundleIds.EnsureUniqueId | src/core/bundle-id.ts:99-106 | the search ends with the first free one of: the preferred id, the hashed one, the numbered ones from 2 |
| BundleIds.DeriveBundleId | src/core/bundle-id.ts:75-81 | the id is the first free one for a legal registry id or the path slug, and is added to the used set |
| BundleIds.DeriveBundleIds | src/core/bundle-id.ts:84-97 | each id is the first free one given the earlier ids and, for sources that are not configured, the reserved ones |
| BundleIds.BatchIsUnique | src/core/bundle-id.ts:84-97 | only one list of ids meets that, so the derivation is determined |
| BundleIds.IdsAreDistinct | src/core/bundle-id.ts:84-97 | ids are always pairwise distinct, and no derived id is a configured one |
| BundleIds.ConfiguredIdsAreKept | src/core/bundle-id.ts:84-97 | every configured source keeps its id, wherever it stands, if and only if the legal configured ids are distinct |
| BundleIds.DerivingAgainKeepsIds | src/core/bundle-id.ts:84-97 | every id is a legal bundle id, and deriving again from sources configured with the ids gives the same ids |
| BundleRefs.NormalizedIsFixed | src/core/asset/asset-ref.ts:10-104 | a normalized concept id is valid, has no doubled slash and no `#`, and normalizes to itself |
| BundleRefs.AcceptedExactly | src/core/asset/asset-ref.ts:12-29 | in characters: a concept id is accepted if and only if its normal form is not empty or absolute, no drive path, has no `#` or null byte and no segment `.` or `..` between separators of either kind |
| BundleRefs.SeparatorsAreTurned | src/core/asset/asset-ref.ts:31-33 | without doubled separators an accepted id only has its backslashes turned |
| BundleRefs.CollapseMergesTwo | src/core/asset/asset-ref.ts:31-33 | and two slashes in a row anywhere count as one |
| BundleRefs.QualifiedRefParses | src/core/asset/asset-ref.ts:145-182 | what a ref with a doubled slash and a `#` after it parses to, and when it is refused, in terms of its pieces |
| BundleRefs.PrintsExactly | src/core/asset/asset-ref.ts:112-126 | printing succeeds if and only if the concept id is accepted and the bundle, if any, has none of the barred characters |
| BundleRefs.ShortRefParses | src/core/asset/asset-ref.ts:145-182 | what a ref without either parses to |
| BundleRefs.RefIsParsed | src/core/asset/asset-ref.ts:145-182 | what every parsed ref is like: a legal bundle, a normalized concept id, a non-empty fragment |
| BundleRefs.RefsRoundTripExactly | src/core/asset/asset-ref.ts:112-182 | printing a parsed ref succeeds, and parsing the text gives it back if and only if the concept id does not end in white space or a fragment follows |
| BundleRefs.BlankBeforeEmptyFragmentIsLost | src/core/asset/asset-ref.ts:130-137 | a ref the parser accepts that does not come back |
| BundleRename.RenameBundleInConfig | src/core/bundle-rename.ts:105-153 | the loop over the bundles computes the renamed configuration; it refuses exactly unless the old id is configured or inherited and the new one is another legal name that is not configured |
| BundleRename.RenamedRefNames | src/core/bundle-rename.ts:118-144 | a rewritten ref no longer names the old bundle, and exactly the refs reported by the plan change |
| BundleRename.RenamedRefIsSpelled | src/core/bundle-rename.ts:118-144 | a ref of the old bundle becomes the new id, `//`, its concept id and its fragment; any other text stays |
| BundleRename.NothingNamesTheOldId | src/core/bundle-rename.ts:105-153 | after a rename no key, default or enabled ref names the old bundle; a bundle has the new name if and only if there was one to rename and the name is not `__proto__`; all entries keep their places if and only if none is written to `__proto__` |
| BundleRename.RenamingToProtoLosesTheEntry | src/core/bundle-rename.ts:133-135 | a configuration whose only bundle is gone after a rename to `__proto__` |
| BundleRename.RefThereAndBack | src/core/bundle-rename.ts:142-144 | one ref comes back from a rename and its reverse if and only if it does not name the new bundle and, if it names the old one, is spelled as it would be printed |
| BundleRename.ThereAndBackExactly | src/core/bundle-rename.ts:105-153 | renaming there and back restores the configuration if and only if the old id is a legal name, no entry has or gets the key `__proto__`, the way back finds the new name, nothing named it before, and the refs of the old one were spelled canonically |
| WorkflowFlags.ParseWorkflowParameterFlags | src/commands/workflow-cli.ts:325-383 | the index loop computes the unit-by-unit parse, errors included |
| WorkflowFlags.PrintedFlagsParseBack | src/commands/workflow-cli.ts:325-383 | flags printed after the target parse back to themselves if and only if every name is one the parser can report |
| WorkflowFlags.ParsedIsPrintable | src/commands/workflow-cli.ts:348-379 | the parser reports only such names |
| WorkflowFlags.SpacedIsInline | src/commands/workflow-cli.ts:370-377 | between whole units the spaced form means the inline form for a value that is not read as a flag |
| WorkflowFlags.SpacedExactly | src/commands/workflow-cli.ts:374-380 | the spaced form gives its value back if and only if the value does not start with a dash or is a negative number |
| WorkflowFlags.TargetExactly | src/commands/workflow-cli.ts:335-345 | a token counts as the target if and only if it does not start with a dash, is a lone dash or is a negative number |
| WorkflowFlags.ValueFlagsSwallowFlags | src/commands/workflow-cli.ts:358-361 | every reserved value flag without an inline value takes whatever follows, even what would have been a parameter |
| WorkflowFlags.RunSwallowsFlags | src/commands/workflow-cli.ts:358-361 | so it is for each value flag of the command itself |
| WorkflowFlags.ReservedFlagsChangeNothing | src/commands/workflow-cli.ts:346-362 | a reserved flag, with its value if it takes one, put between whole units changes neither the flags nor the error |
| WorkflowFlags.WhatFollows | src/commands/workflow-cli.ts:327-357 | after the target and complete flags, `--`, another argument that is no option and the removed option are each refused with their own error, and a short option is passed over |
| WorkflowFlags.NothingBeforeTheTarget | src/commands/workflow-cli.ts:335-368 | before the target, another argument that is no option and every parameter flag are refused as early |
| Rekey.ScalarPromise | scripts/rekey-asset-ref.ts:141-153 | re-keying a scalar table keeps its key unique, empties the old ref, lets the old ref's row replace the new ref's, touches no third ref and is idempotent |
| Rekey.MoveKeepsUnique | scripts/rekey-asset-ref.ts:148-151 | the UPDATE meets no row at the new ref once the DELETE has run |
| Rekey.RekeyedAt | scripts/rekey-asset-ref.ts:159-164 | no row stays at the old ref, no third ref is touched, and the new ref ends with the moved rows and those it had that are not dropped |
| Rekey.RekeyedTwice | scripts/rekey-asset-ref.ts:159-164 | re-keying twice is re-keying once if and only if none of the moved rows is one that would be dropped |
| Rekey.SecondRunMovesNothing | scripts/rekey-asset-ref.ts:135-168 | after one run nothing is at the old ref; a second run changes something if and only if the first one moved a detached usage event |
| Rekey.SecondRunCanDropEvents | scripts/rekey-asset-ref.ts:159-164 | one detached event for which a second run is no no-op |
| Rekey.CompensationRestoresExactly | scripts/rekey-asset-ref.ts:298-307 | the swapped call restores all tables if and only if none of them had a row at the new ref |
| Rekey.SwappedCallCanMoveMore | scripts/rekey-asset-ref.ts:298-307 | one row for which the swapped call does not restore the tables |
| Rekey.StateDb.RekeyScalar | scripts/rekey-asset-ref.ts:146-152 | one scalar transaction, with the number of rows it moved |
| Rekey.StateDb.RekeyStateDb | scripts/rekey-asset-ref.ts:135-168 | the tables whose transactions succeeded are re-keyed and the others untouched; a dry run changes nothing and reports the counts a run would |
| Rekey.RekeyAssetRef | scripts/rekey-asset-ref.ts:225-344 | refusals and dry runs change nothing; otherwise the tables are all re-keyed, which is announced exactly when some row moved, or partly when a transaction fails, or taken back when the index step fails, restored exactly when the new ref had no rows |
| LocalVersion.PrecedenceIsATotalOrder | scripts/package-install.ts:186-200 | the precedence of section 11 of Semantic Versioning 2.0.0, as modelled, is a strict total order |
| LocalVersion.ReleasesRank | scripts/package-install.ts:186-200 | and ranks the releases of the example in that section as it does |
| LocalVersion.PreReleasesRank | scripts/package-install.ts:186-200 | and the pre-releases, from alpha up to the release |
| LocalVersion.TimestampsSort | scripts/package-install.ts:181-184 | of two timestamps of four-digit years one sorts first if and only if its date is earlier |
| LocalVersion.TimestampParts | scripts/package-install.ts:181-184 | a timestamp is the ISO form without its separators: the padded fields in order, a T and a Z |
| LocalVersion.PadReadsBack | scripts/package-install.ts:181-184 | the padded digits of a number that fits have its value |
| LocalVersion.LocalVersionIsBetween | scripts/package-install.ts:186-200 | a version is derived if and only if the date and the hash are valid; it is marked local and ranks above its source and below the release that follows it, for release and pre-release sources |
| LocalVersion.LaterDateRanksHigher | scripts/package-install.ts:186-200 | of two local versions of one source the later dated ranks higher, whatever their hashes |
| LocalVersion.HashesTellBuildsApart | scripts/package-install.ts:186-200 | two builds of one source and date get the same version if and only if the first twelve digits of their hashes are the same |
| PackageInstall.SnapshotsDescribe | scripts/package-install.ts:352-386 | the snapshots taken of a package are the entries at its own paths, absent launchers included |
| PackageInstall.InspectedExactly | scripts/package-install.ts:352-386 | the inspection refuses exactly a launcher without a package, and a package path that is a plain file, has no readable metadata or another package's, or comes with a launcher that is a directory or not its own; otherwise it reports what stands there |
| PackageInstall.PutAllOwn | scripts/package-install.ts:395-410 | after restoring, each own path holds its snapshot and nothing below it |
| PackageInstall.RestoringReproduces | scripts/package-install.ts:395-410 | from any state a failed install leaves, restoring a linked package gives the prefix back if and only if the install kept to its own paths and the launchers' modes survive |
| PackageInstall.Prefix.RemoveEntry | scripts/package-install.ts:388-393 | an entry goes with everything below it, an absent one is no error, and a failure loses nothing elsewhere |
| PackageInstall.Prefix.PutBackAll | scripts/package-install.ts:397-409 | the entries are put back in order; a failure part-way changes nothing outside the own paths but directories leading to them |
| PackageInstall.Prefix.RestoreLinkedPackage | scripts/package-install.ts:395-410 | success means every snapshot is back; without faults it succeeds whenever only directories stand in the way |
| PackageInstall.RollBack | scripts/package-install.ts:494-503 | a reported restoration has verified; a regular package is reported as restored if and only if its tarball installs and verifies, a linked one whenever it can be put back whole |
| PackageInstall.ReplaceGlobalPackage | scripts/package-install.ts:464-510 | each ending in terms of the prefix before and of what npm did: refused exactly for the prefixes the inspection must refuse, installed exactly when everything before has worked and the new package verifies; the prefix is untouched before that; a regular previous package is reported as restored if and only if it reinstalls and verifies, and clean-up only when none existed |
| ImprovePlan.FillsExactly | src/core/improve-result.ts:345-350 | in an accepted roster each required name stands once, each optional one at most once, and nothing else |
| ImprovePlan.GatesFill | src/core/improve-result.ts:345-350 | the gates that fill the roster, with and without the optional one |
| ImprovePlan.ProcessesFill | src/core/improve-result.ts:211-259 | the processes that do, with and without the two optional ones |
| ImprovePlan.CheckRoster | src/core/improve-result.ts:211-259 | the loops accept exactly the rosters with known, unrepeated and complete names |
| ImprovePlan.SumGates | src/core/improve-result.ts:351-362 | the gate sums are right although they are added as doubles |
| ImprovePlan.CheckLimits | src/core/improve-result.ts:319-330 | the ceiling is the effective limit plus the replay allowance, or absent with it |
| ImprovePlan.CheckRefs | src/core/improve-result.ts:383-408 | the ref checks accept exactly distinct refs equal to the planned ones in order and within both limits; the total-ceiling check never decides |
| ImprovePlan.ValidateImprovePlan | src/core/improve-result.ts:261-413 | the validator accepts exactly the sound plans |
| ImprovePlan.OrdinaryPlansNeedNoAllowance | src/core/improve-result.ts:261-408 | a plan that adds up, without replays and within its limit, is sound with no replay allowance |
| ImprovePlan.ReplaysNeedAllowance | src/core/improve-result.ts:395-401 | replays beyond the allowance are never accepted |
| ImprovePlan.ReplaysAreCounted | src/core/improve-result.ts:395-397 | the replays are counted, each once |
| ImprovePlan.SoundPlansConserveRefs | src/core/improve-result.ts:300-408 | in an accepted plan each gate stands once, the removals of all gates and the planned refs add up to the refs in scope, no ref is planned twice, and the plan keeps under its total ceiling |

## Left out

- Nothing is proved about how long a contender has to wait for the lock while others acquire it.
- Pid reuse, inode reuse, clock age of a lock (`ageMs`) and the `afterQuarantineVerified` hook of `reclaimStaleLock`.
- FileLock: `readLockSnapshot` (src/core/file-lock.ts:58-76) is one step, because the open descriptor pins the inode and published files are never rewritten.
- TwoProcessMutualExclusion: assumes that the put-back link fails only because the path is taken; without that it is false, as FailedPutBackLetsTwoOwn shows.
- ConcurrentMap: a fractional `concurrency` is not modelled.
- Strings are sequences of Unicode scalar values rather than UTF-16 units; unpaired surrogates are not modelled.
- ClosestMatch: distances compare scalar values, so a character outside the basic plane counts once rather than twice.
- ValidateExtraParams: error messages and remedies; the graph is a finite heap of arrays and plain objects, and array holes are not modelled.
- ParseJsonc: JSON.parse is an arbitrary partial function; the lexer used to state the round trip knows tokens, not the JSON grammar.
- WriteFileAtomic: what the target held before must itself survive a power loss for the guarantee to include one; file modes are not modelled, nor are platforms without `fchmod` or directory sync, beyond a call that reports it as unsupported.
- FlattenConfigLeaves: `-0` and `undefined` values do not occur, and the entry order of objects inside arrays, which no comparison sees, is not modelled.
- DiffLeaves: `localeCompare` returns 0 for canonically equivalent spellings of one text. Rows with such paths keep the insertion order of the two leaf maps, which is left open here, so they may come out in another order when the diff is reversed.
- RegistryMerge: fetching, inspecting and enriching of stashes; the remaining fields of an asset are one opaque value.
- BundleIds: `slugForRegistryId`, a single expression, and the re-add check of `validateExplicitBundleName`; the path library and SHA-256 are parameters.
- ParseWorkflowParameterFlags: the reserved names are a parameter, with the command's own in a constant; error wording is left out.
- RekeyAssetRef: the index step is one call that fails or reports a number of rows; its own writes to the index, and resolving refs, bundles and paths, are not modelled.
- DeriveLocalVersion: version texts are taken as parsed, and years outside 0 to 9999, whose ISO form is longer, are excluded by the type of a year.
- ReplaceGlobalPackage: npm and the launched binary are outcomes; links in the way to the prefix's own directories are not followed; Windows shims and junctions differ only in what `owns` and `genuine` mean.
- ValidateImprovePlan: the shape checks of each field (types, unknown fields, allowed lanes and reasons, the consolidation, stages and triage sections, and what the proactive section says beside its refs) are taken as passed.
- BundleRefs: Unicode normalization is a parameter with four laws (`IsNfc`); for a valid name path normalization only merges slashes, which is how it is modelled.
- RenameBundleInConfig: the stores other than the configuration (lockfile, index, state tables, native scheduler rows); integer-like keys, which JavaScript objects reorder, keep their place here; a prototype set through `__proto__` lasts only until the configuration is written as JSON, and what lookups it adds until then is not modelled.
- `src/commands/feedback-cli.ts`, `src/commands/remember.ts` and `src/core/improve-types.ts` are not modelled: text edits, sentence splitting and counters are easier than what is here.
- Network, SQLite, YAML, the search index, CLI rendering and help.

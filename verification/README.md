# SAFA, modelled and proved in Dafny

SAFA admits requests from agents through shared state (an idempotency cache, per-agent capacity counters,
rate limiters, domain counters) and then carries out a file, process or HTTP action. This project models the
admission protocol under arbitrary interleaving, the file actions over a file system with symbolic links,
and the pure code both rely on, and proves what the design promises of them.

`dafny verify dfyconfig.toml` checks everything.

## How it is organised

| file | what it models |
|---|---|
| `Errors.dfy` | the error type, the body sent for an error and the body cached for it |
| `Slime.dfy` | the capacity authorizer: reservation loop under interference, dry run |
| `Idempotency.dfy` | the idempotency cache as one caller at a time sees it |
| `RateLimit.dfy` | the fixed-window limiter over arbitrary call times |
| `Admission.dfy` | the admission protocol: every handler's position, one atomic step at a time |
| `AdmissionHistory.dfy` | the protocol's specification: which event may follow which history |
| `AdmissionInvariant.dfy` | every run follows it, and the shared state is what the history says |
| `AdmissionTheorems.dfy`, `AdmissionTiming.dfy`, `AdmissionSize.dfy` | what follows for whole runs |
| `AdmissionLoad.dfy`, `AdmissionRoom.dfy` | rate limits low enough for the cache's size: the Full branch is never taken |
| `AdmissionRace.dfy` | for any cache size, the interleaving that makes the side conditions on removal necessary |
| `FileTree.dfy`, `Disk.dfy` | directories, files, links, path resolution, kernel calls and the states they pass through |
| `Workspace.dfy`, `FileActuator.dfy`, `Containment.dfy` | the two path checks, the write, and what they confine together |
| `FileRead.dfy`, `Utf8.dfy` | the bounded read and UTF-8 (section 4 of RFC 3629) |
| `Cleanup.dfy`, `CrashSafety.dfy` | boot cleanup; concurrent writers with a crash at any step |
| `Pipeline.dfy`, `Decimal.dfy` | structural validation, shell argument templates, number parsing |
| `Process.dfy` | one request from validation to its outcome, carried out on authorizer and disk, and as steps of the protocol |
| `Encoding.dfy` | pre-images of the request hash and of the signature, identity verification |
| `Config.dfy`, `Daemon.dfy` | loading, start-up, and the protocol's theorems for a loaded configuration |

In the admission protocol the purge, the size test and the entry lock are three separate steps, the purge
visits one key at a time against the instant it read before the first, a reservation is a load and an
exchange that may fail spuriously, the Full branch removes its key in a step of its own, and a request may
be dropped only while it waits for its action. The log a run leaves behind is read by no step. Each property
of a run is first proved of histories and then carried over by one invariant (`AdmissionInvariant.RunInvariant`).

Two expectations are false of the code. For each there is a run that shows it and the exact condition:

- Single ownership of a key can be broken by a Full-branch removal that runs late: for every cache size and
  time to live, the daemon's included, and with owners that answer at once (`AdmissionRace.FullBranchRemovalRace`,
  `Daemon.RaceOfLoaded`). Such a removal is the only way: within the time to live of the latest grant a lookup
  fails to find it if and only if one falls in between (`AdmissionTheorems.OwnershipLostExactlyByRemoval`).
- A call made a full window after a denial need not pass, because another request may have opened the new
  window (`RateLimit.DenialAgainAfterReset`); it is denied exactly when the window it falls into is open and full
  (`RateLimit.DeniedExactlyWhenWindowFull`), and passes when only denials lie between
  (`RateLimit.PassesAfterDenials`).

What depends on timing is stated for each grant: no removal of its key has followed it, and whoever lost the
key to an earlier one was granted it more than the deadline before. A removal thus costs the theorems one
deadline, and not the key. `AdmissionTheorems.OwnersKeepTheirEntry` needs no deadline at all.

From the configuration alone there is more to be had: every cache entry belongs to a request that passed a rate
check not long before, so if the limits of all agents together stay within the cache's size, no request is ever
answered `Full` and none of these conditions is left (`AdmissionRoom.NeverFullWithinLimits` and what follows it).
Twenty agents with the default limit of 60 calls a minute are within the daemon's 10 000 entries
(`Daemon.DefaultRatesFit`).

The documents and the code differ in these places, where the model follows the code: the capacity document's
sliding window (`docs/CAPACITY_MODEL.md:40`) is a fixed window with reset; the state machine document's rule
that a key never becomes absent again (`docs/p1/SAFA_IDEMPOTENCY_STATE_MACHINE.md:112-115`) does not hold, the
purge drops entries in flight too; a link inside the workspace is resolved before a write rather than refused
(`safa-core/tests/test_actuator_file.rs:62-75` expects a refusal); and the configurations with magnitude 0
(`config/agents/readonly.toml:19`, `config/agents/hello-world.toml:22`) are rejected by the loader.

## Model

| member | source | states |
|---|---|---|
| `Errors.CachedEqualsSent` | safa-daemon/src/server.rs:506-531 | the cached error body equals the sent one exactly for the four constructors the caching code spells out |
| `Errors.StatusCodes` | safa-core/src/errors.rs:31-48 | each error has its own status code, 503 being unavailability's |
| `Errors.SentDocuments` | safa-core/src/errors.rs:31-48 | the class and message each error is sent with; only a denial has none |
| `Slime.P0Authorizer.TryReserve` | safa-core/src/slime.rs:55-74 | under any interference the call has one point where its verdict is the sequential one; it adds its magnitude once or not at all; every lost exchange that is not spurious is paid for by a unit of a rival |
| `Slime.P0Authorizer.CheckOnly` | safa-core/src/slime.rs:76-85 | the dry run gives the sequential verdict and changes nothing |
| `Idempotency.IdempotencyCache.PurgeExpired` | safa-core/src/idempotency.rs:142-147 | visiting keys in any order keeps exactly the entries younger than the time to live |
| `Idempotency.IdempotencyCache.CheckOrInsert` | safa-core/src/idempotency.rs:74-120 | for a single caller: the answer for every state of the key, the map within its limit, and `Full` only for an absent key, so that removing it does nothing |
| `Idempotency.IdempotencyCache.Complete` | safa-core/src/idempotency.rs:123-128 | a completion fills a present entry, keeps its age, and creates nothing |
| `Idempotency.IdempotencyCache.Remove` | safa-core/src/idempotency.rs:137-139 | removal of one key leaves the others |
| `Idempotency.ReserveCommitReplay` | safa-core/src/idempotency.rs:74-128 | reserve, commit, and every repeat before expiry replays the committed body |
| `Idempotency.AnswerMeans` | safa-core/src/idempotency.rs:83-118 | when each answer is given, by the instants alone: an entry exactly as old as the time to live still answers if the purge has left it |
| `Idempotency.VisitMeans` | safa-core/src/idempotency.rs:142-147 | the purge leaves an entry if and only if it is younger than the time to live |
| `RateLimit.Limiter.Check` | safa-daemon/src/server.rs:179-197 | a call passes exactly when its window has ended or still has room |
| `RateLimit.WindowBudget` | safa-daemon/src/server.rs:184-196 | over any trace, calls admitted since an instant fit in one limit per window begun since, plus the current window's share |
| `RateLimit.IntervalBound` | safa-daemon/src/server.rs:179-197 | an interval of length L admits at most (L / W + 2) * max calls |
| `RateLimit.DeniedExactlyWhenWindowFull` | safa-daemon/src/server.rs:188-196 | a call is denied if and only if its window is open and has had its limit of calls |
| `RateLimit.PassesAfterDenials` | safa-daemon/src/server.rs:186-196 | denials never postpone the reset |
| `RateLimit.DenialAgainAfterReset` | safa-daemon/src/server.rs:188-196 | a concrete trace in which a call a full window after a denial is denied again |
| `AdmissionInvariant.StepKept` | safa-daemon/src/server.rs:313-534 | every step of every handler keeps the invariant: the history stays legal and cache, counters, limiters and positions are what it says |
| `AdmissionInvariant.RunInvariant` | safa-daemon/src/server.rs:313-534 | every run satisfies the invariant, under any interleaving of any number of requests |
| `AdmissionTheorems.SingleOwnership` | safa-core/src/idempotency.rs:74-120 | two `New` answers for a key lie at least the time to live apart unless a Full-branch removal of it falls between |
| `AdmissionTheorems.OwnershipLostExactlyByRemoval` | safa-core/src/idempotency.rs:83-118 | within the time to live of the latest grant a lookup is answered `New` or `Full` if and only if a Full-branch removal of the key falls between; otherwise it recalls what was last committed since, or that the key is in flight |
| `AdmissionTheorems.OwnersKeepTheirEntry` | safa-core/src/idempotency.rs:83-139 | an owner younger than the time to live still holds its key if and only if no Full-branch removal has followed its grant; then the entry is there, of the age of its own reservation, with what was last committed since |
| `AdmissionRace.FullBranchRemovalRace` | safa-daemon/src/server.rs:398-399 | for every cache size and time to live, a run with instantly prompt owners in which a key is granted twice at one instant around that removal, and the second owner, whose key no removal has touched since, finds the first's answer in its entry |
| `AdmissionTheorems.NeverOrphaned` | safa-daemon/src/server.rs:437-446 | a resolved agent always has an authorizer, so the unknown-agent removal never happens |
| `AdmissionTheorems.CommitsWhatItSends` | safa-daemon/src/server.rs:411-532 | a request commits once, and the document it commits is the one it sends (the error kinds this rests on are proved in `Process.ProcessAction`) |
| `AdmissionTheorems.HandlersServeArrivals` | safa-daemon/src/server.rs:313-409 | in every run a handler works for the agent its header resolves to, on the key and the body its request arrived with |
| `AdmissionTheorems.SendsWhatHappened` | safa-daemon/src/server.rs:411-532 | in every run a request commits and sends exactly what has happened to it: the body of its action, the success of an authorized dry run, `Denial` if it was denied, the error of its validation or its action, or the bad request document if its body is no JSON |
| `AdmissionTheorems.SentWasSettled` | safa-daemon/src/server.rs:411-532 | nothing is committed or sent that no event of the request has settled |
| `AdmissionTheorems.SequentialIsUsed` | safa-core/src/slime.rs:55-74 | replaying the decisions of a legal history through the sequential authorizer gives the concurrent counter |
| `AdmissionTheorems.Linearizable` | safa-core/src/slime.rs:39-85 | in every run all verdicts, dry runs included, are those of the sequential authorizer in the order of the decision points; the counter never exceeds the capacity |
| `AdmissionTheorems.DenialIsPermanent` | safa-core/src/slime.rs:59-73 | once denied for lack of capacity, a magnitude and all larger ones stay denied on that agent, in any domain |
| `AdmissionTheorems.FittingDemandIsMet` | safa-core/src/slime.rs:55-74 | if everything an agent asks for fits in its capacity, all of it is authorized under any schedule |
| `AdmissionTheorems.DecisionsAreHeldByOwners` | safa-core/src/pipeline.rs:283-333 | every single decision, the first of a run included, is made for a request that was answered `New` before |
| `AdmissionTheorems.DecidedOnce` | safa-core/src/pipeline.rs:283-333 | no request is ruled on twice |
| `AdmissionTheorems.RunCapacity` | safa-core/src/slime.rs:55-74 | conservation: in every state of every run the counter is the sum of the authorized reservations, within the capacity |
| `AdmissionTheorems.ActuationsArePaid` | safa-core/src/pipeline.rs:314-336 | actions that have ended plus reservations whose action has not ended never exceed the units reserved: nothing is refunded |
| `AdmissionTheorems.LifetimeBound` | safa-core/src/pipeline.rs:268-336 | an agent starts at most its capacity's number of actions in a whole run, those in progress included |
| `AdmissionTheorems.LostExchangesBounded` | safa-core/src/slime.rs:59-73 | a call loses at most as many exchanges as there were units left at its first load |
| `AdmissionTheorems.FailedExchangeCounts` | safa-core/src/slime.rs:59-73 | an exchange fails exactly when the counter has moved or for no reason, and each failure is counted as what it is |
| `AdmissionTheorems.NoHandlerIsStuck` | safa-daemon/src/server.rs:313-534 | from every reachable state every handler can take a step of its own: no handler waits for another |
| `AdmissionTheorems.EveryRequestIsCounted` | safa-daemon/src/server.rs:179-197 | every request of a known agent counts against its limit, one without a key too; one with a key goes on if and only if the window has ended or has room |
| `AdmissionTheorems.RateBound` | safa-daemon/src/server.rs:357-363 | the interval bound holds for the calls of every run |
| `AdmissionTheorems.VisitJudgesByStart` | safa-core/src/idempotency.rs:142-147 | however late the purge comes to an entry, it judges it by the instant the purge began |
| `AdmissionTheorems.CountersConserved` | safa-daemon/src/server.rs:481-491 | the domain counters add up to the number of successful requests |
| `AdmissionTiming.TimedRun` | safa-daemon/src/server.rs:91-120 | when every owner finishes within a deadline below the time to live: an owner holds its key, or lost it so recently that the key is not clean; whoever commits under a clean key is the one that holds it |
| `AdmissionTiming.CleanCommitIsOwn` | safa-core/src/idempotency.rs:123-128 | what was committed under a clean key since its grant is what the request holding it committed |
| `AdmissionTiming.CompletionFindsOwnEntry` | safa-core/src/idempotency.rs:123-128 | then a completion writes the entry its own request reserved, still in flight, if no Full-branch removal has followed the grant and those who lost the key earlier are past their deadline |
| `AdmissionTiming.RepeatsAreDetermined` | safa-core/src/idempotency.rs:86-102 | under the same conditions a repeat within the time to live is told exactly the body the owner sent, or that it is in flight if the owner has not finished |
| `AdmissionSize.SnapshotKeepsSize` | safa-core/src/idempotency.rs:78-79 | a size test passes only below the limit, and at most one per concurrent request is outstanding |
| `AdmissionSize.LookupKeepsSize` | safa-core/src/idempotency.rs:83-118 | an insertion uses up one outstanding size test |
| `AdmissionSize.CacheBound` | safa-core/src/idempotency.rs:78-109 | with T concurrent requests the cache never exceeds its limit by more than T - 1 |
| `AdmissionLoad.RunAccounted` | safa-daemon/src/server.rs:357-409 | in every run in which nobody takes longer than a delay from its rate check to its lookup, the keys granted since an instant, and those who may still be granted one, are covered by the rate checks passed since that instant less the delay |
| `AdmissionLoad.PassedIsSum` | safa-daemon/src/server.rs:179-197 | the calls that passed a limiter are the sum over the agents of what each limiter admitted |
| `AdmissionRoom.NeverFullWithinLimits` | safa-core/src/idempotency.rs:74-109 | if the limits of all agents in a time to live and twice the delay stay within the cache's size, no lookup is answered `Full` and no Full-branch removal happens |
| `AdmissionRoom.SingleOwnershipWithinLimits` | safa-core/src/idempotency.rs:74-120 | then two grants of a key always lie the time to live apart |
| `AdmissionRoom.CompletionWithinLimits` | safa-core/src/idempotency.rs:123-128 | then every completion of a prompt owner writes the entry its own request reserved |
| `AdmissionRoom.RepeatsWithinLimits` | safa-core/src/idempotency.rs:86-102 | then every repeat within the time to live of a grant is told what its owner has sent, or that it is in flight |
| `FileTree.ResolveSplit` | safa-core/src/newtypes.rs:70-99 | resolving a path is resolving its beginning and then the rest from there |
| `FileTree.ResolvePhysical` | safa-core/src/newtypes.rs:70-99 | a physical location that is not a link resolves to itself |
| `Workspace.NoParentPieces` | safa-core/src/newtypes.rs:44-50 | the test on pieces between both kinds of slashes covers the components the kernel sees |
| `Workspace.JoinUnique` | safa-core/src/newtypes.rs:66 | the components of a path are the one way to join slash-free pieces into it |
| `Workspace.AcceptableMeans` | safa-core/src/newtypes.rs:32-58 | the textual checks in terms of the text: not empty, not absolute, no colon, no `..` between slashes or backslashes, no two slashes in a row |
| `Workspace.PathOfExisting` | safa-core/src/newtypes.rs:64-114 | a path that exists, through links or not, is accepted exactly when its text is in order and the location it resolves to lies under the resolved root, and it stands for that location |
| `Workspace.PathOfNew` | safa-core/src/newtypes.rs:76-114 | a new name in an existing directory likewise, for the location of the directory with that name |
| `Workspace.PathAsWritten` | safa-core/src/newtypes.rs:92-114 | where neither exists the path stands for itself |
| `Workspace.EveryPath` | safa-core/src/newtypes.rs:64-97 | these three cases are all there are |
| `Workspace.AcceptedPath` | safa-core/src/newtypes.rs:27-120 | an accepted path has plain components and lies under the resolved agent root, in all three branches |
| `Workspace.AgentsAreDisjoint` | safa-core/src/newtypes.rs:60-114 | two agents whose roots are real directories never have a common accepted path |
| `FileActuator.SettledIffNoLiveLink` | safa-core/src/actuator/file.rs:158-180 | the second check passes exactly when every existing ancestor is its own physical location |
| `FileActuator.VerifyNoSymlinks` | safa-core/src/actuator/file.rs:158-180 | the loop decides that property |
| `FileActuator.MkdirSettled` | safa-core/src/actuator/file.rs:47-51 | what one `mkdir` on a checked path can find and does |
| `FileActuator.CreateDirAll` | safa-core/src/actuator/file.rs:47-51 | all missing parents become directories, or nothing changes; it succeeds exactly when only directories are in the way |
| `FileActuator.WriteNew` | safa-core/src/actuator/file.rs:72-79 | the temporary file holds a beginning of the content at every moment and the whole of it on success |
| `FileActuator.FileWrite` | safa-core/src/actuator/file.rs:23-99 | when a write succeeds, exactly what it leaves then and after each kind of failure, the ignored failure of the clean-up included, and what every intermediate state may differ in |
| `Containment.ChangesInFootprint` | safa-core/src/actuator/file.rs:46-94 | a write changes nothing but the target, its temporary file and missing parents |
| `Containment.FootprintInside` | safa-core/src/actuator/file.rs:46-94 | the whole footprint of an accepted, checked path lies under the resolved root if and only if the path is not the root itself |
| `Containment.WriteIsConfined` | safa-core/src/actuator/file.rs:27-94 | with the agent's directory in place every state of the write differs only strictly under it |
| `Containment.WriteAction` | safa-core/src/pipeline.rs:88-175 | the same for validation and write as the pipeline chains them |
| `Containment.AgentsNeverCollide` | safa-core/src/newtypes.rs:60-114 | writes of two agents with different valid ids never touch a common location |
| `Containment.LinkFreePathAccepted` | safa-core/src/newtypes.rs:27-120 | a path of plain components with no link on it is accepted as it is |
| `Containment.LinkInsideIsResolved` | safa-core/src/newtypes.rs:70-75 | a request for a link inside the agent's directory is one for the file it leads to, which the second check lets through |
| `Containment.AcceptanceAloneEscapes` | safa-core/src/newtypes.rs:92-96 | without the second check a path through a link would make a directory outside the agent's root |
| `Containment.MissingRootLeaks` | safa-core/src/newtypes.rs:76-107 | without the agent's directory the path `.` would be written as a file beside it |
| `FileRead.FileRead` | safa-core/src/actuator/file.rs:102-155 | the outcome of a read for every state of the tree |
| `Utf8.WellFormedIsEncoded` | safa-core/src/actuator/file.rs:142-145 | octets are text if and only if they are the encodings of Unicode scalar values one after the other, by the arithmetic of section 3 of RFC 3629 |
| `Utf8.CutIsWellFormed` | safa-core/src/actuator/file.rs:142-145 | a cut of well-formed text is well-formed exactly when it falls before a character |
| `FileRead.WriteThenRead` | safa-core/src/actuator/file.rs:23-155 | what was written is read back, whole or cut on a character boundary and marked, or else an encoding error |
| `Cleanup.Walkdir` | safa-core/src/actuator/file.rs:198-212 | the walk ends, although it follows links; it lists exactly the entries of the directories it enters that lead to no directory, and fails if and only if one of those directories cannot be listed |
| `Cleanup.OrphanMeans` | safa-core/src/actuator/file.rs:188 | the pattern: `.ama.` somewhere in the name and `.tmp` at its end |
| `Cleanup.CleanupOrphanTemps` | safa-core/src/actuator/file.rs:183-195 | exactly what the listed paths of the name pattern name is removed and counted, as far as they still lead there and the kernel allows it; below a root that is its own physical location no removable regular file of the pattern stays; nothing outside that root goes if no link below it leads out |
| `Cleanup.WalkStaysInside` | safa-core/src/actuator/file.rs:198-212 | the walk stays inside a physical root if and only if no link below it leads to a directory elsewhere |
| `Cleanup.CleanupLeadsOut` | safa-core/src/actuator/file.rs:183-212 | a file of the pattern in any directory a link below the root leads to is removed, wherever that directory is |
| `CrashSafety.TempNamesDiffer` | safa-core/src/actuator/file.rs:65-70 | different action ids give different temporary names, whatever the targets |
| `CrashSafety.ApplyKept` | safa-core/src/actuator/file.rs:23-99 | every kernel call of every writer keeps the invariant on what each location may hold |
| `CrashSafety.LandsAtTarget` | safa-core/src/actuator/file.rs:64-94 | with no link on the way to it, a writer's content lands at its target and nowhere else, whatever the other writers do |
| `CrashSafety.CrashAtomicity` | safa-core/src/actuator/file.rs:64-94 | wherever the writers are stopped, nothing is lost and every location other than a temporary file holds its old content, a new directory, or the whole content of one writer whose target resolved to that very location at its rename; a temporary file holds a beginning of its writer's content |
| `CrashSafety.WriteAsRun` | safa-core/src/actuator/file.rs:23-99 | refinement: every state `file_write` passes through is one in which some run of the writers may be stopped |
| `CrashSafety.Recover` | safa-daemon/src/main.rs:18-21 | after a crash anywhere, the cleanup at the next start leaves everything below a physical root whole, but for files the kernel refuses to remove; it removes no directory and nothing whose name lacks the pattern, old or newly landed, and nothing outside the root if no link leads out |
| `Decimal.ParseOfShow` | safa-core/src/pipeline.rs:200 | a number written in decimal is read back |
| `Decimal.ParseMeans` | safa-core/src/pipeline.rs:200 | a plus sign and leading zeros are read over; nothing else but digits is read |
| `Decimal.NoOverflow` | safa-core/src/pipeline.rs:200 | a written number is read exactly when it fits in 64 bits |
| `Decimal.AsciiAlphanumeric` | safa-core/src/newtypes.rs:182 | within ASCII the alphanumeric characters are the 62 letters and digits |
| `Pipeline.OpeningsArePlaces` | safa-core/src/pipeline.rs:112-123 | for a template with one placeholder per argument, the number of arguments demanded is the number of placeholders |
| `Pipeline.CanonicalizeArgs` | safa-core/src/pipeline.rs:111-134 | exactly which argument lists are accepted, unchanged, and which class of error each other one gives |
| `Pipeline.FillTemplate` | safa-core/src/pipeline.rs:197-208 | the loop fills every entry by its own index |
| `Pipeline.ShellArguments` | safa-core/src/pipeline.rs:104-208 | every argument stands exactly in its place, every other entry is the literal it was, and guarded places hold paths that passed their check |
| `Pipeline.ArgumentIsUsed` | safa-core/src/pipeline.rs:197-208 | for any template, an argument reaches the vector if and only if some entry is its placeholder |
| `Pipeline.EmbeddedPlaceholderIsLost` | safa-core/src/pipeline.rs:112-114 | an embedded placeholder is counted but never filled |
| `Pipeline.CheckFields` | safa-core/src/pipeline.rs:22-82 | which of payload, args and method each action must and must not carry, and which of the two errors each violation gives |
| `Pipeline.Canonicalize` | safa-core/src/pipeline.rs:86-157 | exactly which requests pass, on their own fields, and which class of error each other one gives; what passes stands for the request |
| `Pipeline.AcceptedOrRefused` | safa-core/src/pipeline.rs:21-157 | every request is either accepted or refused with some class of error |
| `Pipeline.OneClass` | safa-core/src/pipeline.rs:21-157 | no request is refused with two |
| `Process.Actuate` | safa-core/src/pipeline.rs:160-254 | when each file action succeeds, what it reports and what it leaves, after a failure too; its errors are validation errors or unavailability |
| `Process.OutcomeMeans` | safa-core/src/pipeline.rs:257-365 | when the result is a success and which, and when units are reserved: the magnitude right, nothing rejected, the action mapped, its policy enabled and wide enough, the units within the capacity |
| `Process.OutcomeErrors` | safa-core/src/pipeline.rs:257-365 | which error it is otherwise, the first that applies |
| `Process.ProcessAction` | safa-core/src/pipeline.rs:257-365 | validation, mapping, authorization and actuation chained: a request is rejected exactly when validation does not accept it; the action is carried out exactly when its units were reserved, is the one the client asked for, stays inside the agent's directory at every moment, and is never refunded; every error is one that is cached as sent |
| `Process.RouteEnds` | safa-daemon/src/server.rs:448-531 | from its checks on, the protocol's own steps of a handler bring it to exactly that result and reserve exactly those units; they continue whatever run has come there, so that all theorems on runs apply |
| `Process.RouteReplies` | safa-daemon/src/server.rs:411-532 | the whole way of a handler from parsing to its end: it commits, sends and caches the document of exactly that result, counts a success in its domain, and continues whatever run has come there |
| `Process.ServeRequest` | safa-daemon/src/server.rs:411-532 | both views of one request agree in result and reserved units, and the handler ends with the document of that result committed, sent and cached |
| `Encoding.LittleEndianRoundTrip` | safa-core/src/audit.rs:75 | the octets of a magnitude determine it |
| `Encoding.RequestPreimageInjective` | safa-core/src/audit.rs:69-77 | the hashed octets determine action, target (with any content) and magnitude |
| `Encoding.PreimageExample` | safa-core/src/audit.rs:69-77 | an example fixes the separator and the order of the octets |
| `Encoding.SeparatorInActionCollides` | safa-core/src/audit.rs:69-77 | with a separator in the action name they would not |
| `Encoding.AgentIdIsPlain` | safa-core/src/config.rs:199-209 | an accepted agent id is one plain path component without dots |
| `Encoding.SigningMessageInjective` | safa-core/src/identity.rs:58-60 | the signed message determines agent, timestamp and body hash |
| `Encoding.HonestSignature` | safa-core/src/identity.rs:64-125 | an honest signature is accepted exactly within the tolerance of its timestamp |
| `Encoding.IdentityVerdicts` | safa-core/src/identity.rs:64-125 | which of the verdicts is given, the first that applies, and the message whose MAC is compared |
| `Encoding.SignatureBinds` | safa-core/src/identity.rs:87-125 | one signature is never accepted for two different requests, nor at instants more than twice the tolerance apart, unless the MAC collides |
| `Config.NormalizePolicies` | safa-core/src/config.rs:230-255 | accepted exactly when every ceiling is positive and within the capacity; the domains are exactly those a key stands for, letter by letter, with a dot where the key has an underscore |
| `Config.FromRaw` | safa-core/src/config.rs:191-279 | exactly which agent files are accepted |
| `Config.FreshAuthority` | safa-core/src/slime.rs:39-58 | a fresh authorizer of an accepted agent authorizes exactly the magnitudes up to the ceiling of each enabled domain |
| `Config.LoadAgents` | safa-core/src/config.rs:284-321 | accepted exactly when there is a file, all are acceptable and no id repeats |
| `Config.LoadDirectory` | safa-core/src/config.rs:409-460 | exactly which agent directories are accepted, and when there is a default agent |
| `Config.SlimeAgents` | safa-core/src/config.rs:461-508 | the same for the agent synthesized from the `[slime]` section: its id, capacity, domains and 60 calls a minute |
| `Config.Load` | safa-core/src/config.rs:408-526 | exactly which configurations are accepted: with an agents directory the domains the agents' keys stand for and the mapped domains are the same; what is loaded is usable throughout and its default agent exists |
| `Config.ShippedPairLoads` | safa-core/src/config.rs:230-255 | the shipped key `fs_write_workspace` loads beside the domain `fs.write.workspace` |
| `Config.LoadedIsValid` | safa-daemon/src/server.rs:58-100 | a loaded configuration meets every assumption of the admission protocol |
| `Config.BootState` | safa-daemon/src/server.rs:58-100 | start-up produces the protocol's initial state |
| `Daemon.BoundsOfLoaded` | safa-daemon/src/server.rs:91-121 | with the daemon's constants: at most 10 007 cache entries; reservations, and actions started, within each agent's capacity |
| `Daemon.CompletionOfLoaded` | safa-daemon/src/server.rs:91-120 | with the 30 second deadline and the 300 second time to live a completion finds its own entry, under the conditions of `AdmissionTiming.CompletionFindsOwnEntry` |
| `Daemon.NeverFullWithinRates` | safa-daemon/src/server.rs:91-121 | with the daemon's constants and rate limits that fit, no request is answered `Full` |
| `Daemon.OwnershipWithinRates` | safa-daemon/src/server.rs:91-121 | then a key is granted at most once in 300 seconds |
| `Daemon.CompletionWithinRates` | safa-daemon/src/server.rs:91-121 | then every completion within 30 seconds finds its own entry |
| `Daemon.DefaultRatesFit` | safa-core/src/config.rs:85-86 | up to twenty agents with the default rate limit, or a stricter one, fit |
| `Daemon.RaceOfLoaded` | safa-daemon/src/server.rs:91-121 | a configuration accepted by `Config.Load`, with a rate limit that does not fit, has the race, all its owners prompt |

## Left out

- HTTP routing, headers, content types, body limits and JSON parsing; a request arrives with its agent header, key and body, and one that fails before the rate check, identity verification included, does not arrive.
- The shell and HTTP actuators: their action ends in any success, validation error or unavailability; that these are the only kinds is assumed of them alone (`Process.Actuate`).
- The proof store, audit log, boot hashes, manifest, status, health and version endpoints.
- SHA-256, HMAC, hex coding, UUID and TOML parsing; hashing and MAC are parameters, and configuration starts from parsed files with defaults filled in.
- Wrap-around of the limiter's count and of the domain counters at 2^64, and of file sizes.
- Memory ordering and the sharding of the cache: each load, exchange, entry lock and `len()` is one atomic step.
- Clock readings: one reading per atomic step; the limiter's and the cache's instants come from one monotone clock in nanoseconds.
- The status code of a replay, which is 200 whatever the first answer's was; bodies are compared, not codes.
- Windows path rules, permissions, names that are not UTF-8 or contain NUL, name length limits, and failures of `mkdir`; opening, writing, renaming, removing and listing may fail anywhere.
- Changes of the file system by others between validation and write: `Containment.WriteAction` assumes an unchanged tree; `CrashSafety` lets other writers interleave but claims atomicity, not containment. There the path check may come out either way, since others may move between its steps.
- Power loss: a crash stops the process, and the kernel calls made so far stay in effect in order.
- A trailing slash or dot in a path that does not exist yet is dropped when the path is taken as written; the kernel would refuse the final rename, which the rename fault covers.
- The classification of letters and digits outside ASCII, the URL allowlist and the method names are parameters; the canonical HTTP action carries its URL and body, its method is not kept.
- Error message texts of validation and actuation are not modelled, only their class.
- Containment.WriteAction: assumes an id no entry of the tree carries yet, as a random UUID gives, and the agent's directory in place (`Containment.MissingRootLeaks` shows why).
- Containment.AgentsNeverCollide: assumes each agent's root is a real directory of the workspace; two roots that are links to one directory share it.
- Slime.P0Authorizer.TryReserve: rivals are an arbitrary list of additions within the capacity; the protocol in `Admission.dfy` has real rivals.
- Idempotency.IdempotencyCache.CheckOrInsert: assumes no other caller between its three steps, the interleaved case is in `Admission.dfy`.
- Process.ServeRequest: nobody comes between the steps of the one request; interference in the reservation is in `Process.ProcessAction`, and any interleaving of the steps in `AdmissionInvariant.RunInvariant`.

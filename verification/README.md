# UpdatePartitionGroupHandler, modelled in Dafny

This project models the broker-side handler of JournalQ's *update partition
group* command (`UpdatePartitionGroupHandler`) and proves properties about it.
A command carries a new snapshot of one partition group and a rollback flag.
The handler looks up the old snapshot and works out the membership diff:
- the broker ids added, which are in the new replica set but not in the old one;
- the broker ids removed, which are in the old replica set but not in the new one.

It then takes one of two paths:
- **commit** applies the change;
- **rollback** undoes it.

Each path is a fixed, ordered sequence of calls on the store service
(create, remove, re-partition storage) and on the election service (group
created/removed, node added/removed). Any exception becomes a
`CN_UNKNOWN_ERROR` acknowledgement carrying the exception's message.

Layout:
- `domain.dfy` (module `Domain`): partition-group snapshots, brokers, the collaborator calls as an `Effect` datatype, and acknowledgements.
- `tree_sets.dfy` (`TreeSets`): `new TreeSet<>(c)` and in-place `removeAll` as methods on ascending sequences. `Ascending(s)` is the iteration order of a TreeSet holding `s`.
- `execution.dfy` (`Execution`): issuing calls when any call may throw. A fault oracle `faults` says which call throws. `Execute` stops at the first fault.
- `plans.dfy` (`Plans`): the calls commit and rollback make, as pure functions (`Step`, `Steps`, `CommitPlan`, `RollbackPlan`). Also lemmas on order, branches, partition lists and call counts.
- `handler.dfy` (`Handler`): the handler as a class. Its field `effects` is the log of calls the collaborators received. Each loop of commit and rollback is a method with loop invariants, proved to produce exactly the execution of its plan.
- `local_view.dfy` (`LocalView`): an abstraction of the local broker's state. The state is whether storage exists, with which partitions, and which replica set the election instance tracks. Under this abstraction, the project proves when a rollback undoes the preceding commit.
- `scenarios.dfy` (`Scenarios`): concrete changes worked through end to end.

Orderings and data choices in the handler worth noting:
- In commit, local removal removes the storage *before* firing the group-removed hook (lines 113-114).
- In rollback, the partition-count check comes *last* (lines 153-155), after both loops.
- Rollback's local restore creates storage with the *new* snapshot's partitions (line 145).
- Rollback's local restore hands the group-created hook the brokers of the *new* replicas (lines 139-146).

Rollback is therefore not the exact inverse of commit on a broker that is itself removed; see Findings.

## Model

| member | source | states |
|---|---|---|
| TreeSets.NewTreeSet | journalq-server/journalq-broker-core/src/main/java/com/jd/journalq/broker/handler/UpdatePartitionGroupHandler.java:70-71 | The result is strictly ascending and holds exactly the elements of the collection; it is the TreeSet listing `Ascending` of that set |
| TreeSets.RemoveAll | journalq-server/journalq-broker-core/src/main/java/com/jd/journalq/broker/handler/UpdatePartitionGroupHandler.java:72-73 | Removing a collection from an ascending listing keeps it ascending and leaves exactly the elements not in the collection, in TreeSet order |
| TreeSets.Ascending | journalq-server/journalq-broker-core/src/main/java/com/jd/journalq/broker/handler/UpdatePartitionGroupHandler.java:70-71 | The TreeSet listing of a set is strictly ascending, has exactly the set's elements and one entry per element |
| TreeSets.AscendingUnique | journalq-server/journalq-broker-core/src/main/java/com/jd/journalq/broker/handler/UpdatePartitionGroupHandler.java:70-71 | Two strictly ascending sequences with the same elements are equal, so the visiting order of a TreeSet is determined by its contents |
| TreeSets.AscendingOfElems | journalq-server/journalq-broker-core/src/main/java/com/jd/journalq/broker/handler/UpdatePartitionGroupHandler.java:70-71 | A strictly ascending sequence is the TreeSet listing of its own elements |
| Handler.ComputeDiff | journalq-server/journalq-broker-core/src/main/java/com/jd/journalq/broker/handler/UpdatePartitionGroupHandler.java:70-73 | nodeAdd holds exactly the ids in the new replicas and not in the old, nodeRemove the converse; both are ascending and disjoint (an id in both replica sets is in neither), and each is the TreeSet listing of its set difference |
| Handler.AckOf | journalq-server/journalq-broker-core/src/main/java/com/jd/journalq/broker/handler/UpdatePartitionGroupHandler.java:81-84 | Success ack exactly when the path completed; otherwise a failure ack with CN_UNKNOWN_ERROR and the exception's message |
| Handler.UpdatePartitionGroupHandler.constructor | journalq-server/journalq-broker-core/src/main/java/com/jd/journalq/broker/handler/UpdatePartitionGroupHandler.java:49-53 | A new handler has the given directory, local broker id and fault oracle, and no calls logged |
| Handler.UpdatePartitionGroupHandler.Call | journalq-server/journalq-broker-core/src/main/java/com/jd/journalq/broker/handler/UpdatePartitionGroupHandler.java:99-104 | One collaborator call: it throws with the oracle's message and is not logged, or it is appended to the log; either way it advances the execution of the pending calls by one step |
| Handler.UpdatePartitionGroupHandler.CallPair | journalq-server/journalq-broker-core/src/main/java/com/jd/journalq/broker/handler/UpdatePartitionGroupHandler.java:97-105 | The two calls of one loop iteration: the second is made only if the first completed, and together they advance the pending execution by two steps |
| Handler.UpdatePartitionGroupHandler.ResolveBrokers | journalq-server/journalq-broker-core/src/main/java/com/jd/journalq/broker/handler/UpdatePartitionGroupHandler.java:90-93 | The brokers list has one entry per replica, in replica order, each the directory's broker for that id or null when the directory does not know it |
| Handler.UpdatePartitionGroupHandler.CommitAdds | journalq-server/journalq-broker-core/src/main/java/com/jd/journalq/broker/handler/UpdatePartitionGroupHandler.java:96-106 | The log and outcome after commit's add loop are exactly the execution of `Steps(CommitAdd, nodeAdd)` from the old log |
| Handler.UpdatePartitionGroupHandler.CommitRemoves | journalq-server/journalq-broker-core/src/main/java/com/jd/journalq/broker/handler/UpdatePartitionGroupHandler.java:110-120 | The log and outcome after commit's remove loop are exactly the execution of `Steps(CommitRemove, nodeRemove)` |
| Handler.UpdatePartitionGroupHandler.Commit | journalq-server/journalq-broker-core/src/main/java/com/jd/journalq/broker/handler/UpdatePartitionGroupHandler.java:89-121 | The log and outcome of commit are exactly the execution of `CommitPlan`: add loop, partition-count check, remove loop, stopping at the first call that throws |
| Handler.UpdatePartitionGroupHandler.UndoAdds | journalq-server/journalq-broker-core/src/main/java/com/jd/journalq/broker/handler/UpdatePartitionGroupHandler.java:127-137 | The log and outcome after rollback's first loop are exactly the execution of `Steps(UndoAdd, nodeAdd)` |
| Handler.UpdatePartitionGroupHandler.Restores | journalq-server/journalq-broker-core/src/main/java/com/jd/journalq/broker/handler/UpdatePartitionGroupHandler.java:138-152 | Given the brokers list resolved from the new replicas, the log and outcome after rollback's second loop are exactly the execution of `Steps(Restore(groupNew), nodeRemove)` |
| Handler.UpdatePartitionGroupHandler.Rollback | journalq-server/journalq-broker-core/src/main/java/com/jd/journalq/broker/handler/UpdatePartitionGroupHandler.java:123-156 | The log and outcome of rollback are exactly the execution of `RollbackPlan`: undo loop, restore loop, then the partition-count check |
| Handler.UpdatePartitionGroupHandler.Handle | journalq-server/journalq-broker-core/src/main/java/com/jd/journalq/broker/handler/UpdatePartitionGroupHandler.java:61-86 | A null command gives no response and no call. A missing old snapshot gives a failure ack with a null message and no call. Otherwise the rollback flag selects `RollbackPlan` or `CommitPlan` over the TreeSet diffs; the log is that plan's execution and the response is its ack |
| Execution.Execute | journalq-server/journalq-broker-core/src/main/java/com/jd/journalq/broker/handler/UpdatePartitionGroupHandler.java:69-85 | A run keeps the old log and logs at most the whole plan after it; it completes exactly when every call of the plan was logged, so a throw leaves the rest of the plan unissued |
| Execution.ExecuteShape | journalq-server/journalq-broker-core/src/main/java/com/jd/journalq/broker/handler/UpdatePartitionGroupHandler.java:69-85 | An execution logs a prefix of the plan and never a call whose position faults. It completes exactly when the whole plan is logged; otherwise it ends with the message of the fault at the next position |
| Execution.ExecuteAppend | journalq-server/journalq-broker-core/src/main/java/com/jd/journalq/broker/handler/UpdatePartitionGroupHandler.java:69-85 | Running `p` then `q` is running `p`, then `q` only if `p` completed: a throw aborts everything after it |
| Execution.ExecuteWithoutFaults | journalq-server/journalq-broker-core/src/main/java/com/jd/journalq/broker/handler/UpdatePartitionGroupHandler.java:69-85 | With no fault in range, every call of the plan is made in order and the run completes |
| Execution.ExecuteStopsAtFirstFault | journalq-server/journalq-broker-core/src/main/java/com/jd/journalq/broker/handler/UpdatePartitionGroupHandler.java:69-85 | If position k is the first fault, exactly the first k calls are logged and the run ends with that fault's message |
| Plans.FirstCall | journalq-server/journalq-broker-core/src/main/java/com/jd/journalq/broker/handler/UpdatePartitionGroupHandler.java:99-149 | The first call of an iteration (lines 99, 103, 113, 117, 130, 134, 145, 149) touches storage exactly when the id is the local broker's, and creates it exactly in the adding loops (commit's add loop, rollback's restore loop); a node hook carries the directory's broker for that id or the id itself |
| Plans.SecondCall | journalq-server/journalq-broker-core/src/main/java/com/jd/journalq/broker/handler/UpdatePartitionGroupHandler.java:100-150 | The second call of an iteration (lines 100, 104, 114, 118, 131, 135, 146, 150) is a group hook exactly for the local id and a re-partition otherwise; the group-created hook fires exactly in the adding loops; a re-partition carries the loop's target list (new partitions in commit, old in rollback) |
| Plans.Step | journalq-server/journalq-broker-core/src/main/java/com/jd/journalq/broker/handler/UpdatePartitionGroupHandler.java:97-151 | One loop body (the if/else at lines 97, 111, 128 and 143) makes two calls: for the local id a storage call then a group hook, for another id a node hook then a re-partition |
| Plans.Steps | journalq-server/journalq-broker-core/src/main/java/com/jd/journalq/broker/handler/UpdatePartitionGroupHandler.java:96-152 | A for-each loop over the ids (lines 96, 110, 127, 142) makes exactly two calls per visited id |
| Plans.CommitPlan | journalq-server/journalq-broker-core/src/main/java/com/jd/journalq/broker/handler/UpdatePartitionGroupHandler.java:96-120 | commit's calls: two per added id, one more when the partition count changed, two per removed id |
| Plans.RollbackPlanFrom | journalq-server/journalq-broker-core/src/main/java/com/jd/journalq/broker/handler/UpdatePartitionGroupHandler.java:127-155 | rollback's calls with the restore loop reading a given snapshot: two per added id, two per removed id, and, when the partition count changed, a last re-partition to the old partitions |
| Plans.RollbackPlan | journalq-server/journalq-broker-core/src/main/java/com/jd/journalq/broker/handler/UpdatePartitionGroupHandler.java:138-155 | As written, the restore loop reads the new snapshot; rollback makes exactly as many calls as commit |
| Plans.StepsAt | journalq-server/journalq-broker-core/src/main/java/com/jd/journalq/broker/handler/UpdatePartitionGroupHandler.java:96-120 | A loop makes two calls per visited id; the block at 2j, 2j+1 is the iteration for the j-th id in visiting order |
| Plans.CommitPlanLayout | journalq-server/journalq-broker-core/src/main/java/com/jd/journalq/broker/handler/UpdatePartitionGroupHandler.java:96-120 | commit's calls are the add-loop blocks in order, then the single re-partition when the count changed, then the remove-loop blocks in order |
| Plans.CommitAddsFirst | journalq-server/journalq-broker-core/src/main/java/com/jd/journalq/broker/handler/UpdatePartitionGroupHandler.java:96-106 | Every add-set block precedes the partition-count check and the remove loop |
| Plans.CommitCheckMiddle | journalq-server/journalq-broker-core/src/main/java/com/jd/journalq/broker/handler/UpdatePartitionGroupHandler.java:107-109 | The partition-count re-partition, when present, sits right after the add blocks and uses the new partitions |
| Plans.CommitRemovesLast | journalq-server/journalq-broker-core/src/main/java/com/jd/journalq/broker/handler/UpdatePartitionGroupHandler.java:107-120 | The remove-loop blocks come after the add blocks and the partition-count check |
| Plans.RollbackPlanLayout | journalq-server/journalq-broker-core/src/main/java/com/jd/journalq/broker/handler/UpdatePartitionGroupHandler.java:127-155 | rollback's calls are the undo blocks, then the restore blocks, then the partition-count re-partition of the old partitions, last |
| Plans.RollbackUndosFirst | journalq-server/journalq-broker-core/src/main/java/com/jd/journalq/broker/handler/UpdatePartitionGroupHandler.java:127-137 | The undo blocks come first, and the partition-count re-partition is the last call |
| Plans.RollbackRestoresNext | journalq-server/journalq-broker-core/src/main/java/com/jd/journalq/broker/handler/UpdatePartitionGroupHandler.java:142-152 | The restore blocks follow the undo blocks |
| Plans.CommitAddBranch | journalq-server/journalq-broker-core/src/main/java/com/jd/journalq/broker/handler/UpdatePartitionGroupHandler.java:96-106 | Added local id: create storage with the new partitions, then the group-created hook (never the node-added hook). Added remote id: the node-added hook, then a re-partition to the new partitions (never a storage creation) |
| Plans.CommitRemoveBranch | journalq-server/journalq-broker-core/src/main/java/com/jd/journalq/broker/handler/UpdatePartitionGroupHandler.java:110-120 | Removed local id: remove storage, then the group-removed hook. Removed remote id: the node-removed hook, then a re-partition to the new partitions |
| Plans.RollbackUndoBranch | journalq-server/journalq-broker-core/src/main/java/com/jd/journalq/broker/handler/UpdatePartitionGroupHandler.java:127-137 | Added local id: remove storage, then the group-removed hook. Added remote id: the node-removed hook, then a re-partition of the old group to the old partitions |
| Plans.RollbackRestoreBranch | journalq-server/journalq-broker-core/src/main/java/com/jd/journalq/broker/handler/UpdatePartitionGroupHandler.java:142-152 | Removed local id: create storage with the new partitions, then the group-created hook with the brokers of the new replicas. Removed remote id: the node-added hook, then a re-partition to the old partitions |
| Plans.StepsCalls | journalq-server/journalq-broker-core/src/main/java/com/jd/journalq/broker/handler/UpdatePartitionGroupHandler.java:96-152 | Every call a loop makes fits its loop: re-partitions use the loop's target list; storage is created or removed only by the loops that do so, and only when the local id is visited |
| Plans.CommitStorageCalls | journalq-server/journalq-broker-core/src/main/java/com/jd/journalq/broker/handler/UpdatePartitionGroupHandler.java:96-120 | In commit every storage creation and every re-partition uses the new partitions. Storage is created exactly when the local id was added, and removed exactly when it was removed |
| Plans.RollbackStorageCalls | journalq-server/journalq-broker-core/src/main/java/com/jd/journalq/broker/handler/UpdatePartitionGroupHandler.java:127-155 | In rollback every re-partition uses the old partitions. Storage is created only when the local id was removed, and then with the new partitions; it is removed only when the local id was added |
| Plans.StepKindsOf | journalq-server/journalq-broker-core/src/main/java/com/jd/journalq/broker/handler/UpdatePartitionGroupHandler.java:96-152 | Each iteration makes two calls of different kinds, namely the two kinds of its local or remote branch |
| Plans.StepCount | journalq-server/journalq-broker-core/src/main/java/com/jd/journalq/broker/handler/UpdatePartitionGroupHandler.java:96-152 | One iteration makes one call of each kind of its branch and none of any other kind |
| Plans.StepsCount | journalq-server/journalq-broker-core/src/main/java/com/jd/journalq/broker/handler/UpdatePartitionGroupHandler.java:96-152 | A loop makes one call of a local-branch kind per visit of the local id, and one call of a remote-branch kind per other id |
| Plans.OccurrencesOfDistinct | journalq-server/journalq-broker-core/src/main/java/com/jd/journalq/broker/handler/UpdatePartitionGroupHandler.java:70-73 | In a TreeSet listing every id occurs at most once |
| Plans.RemoteIsSetSize | journalq-server/journalq-broker-core/src/main/java/com/jd/journalq/broker/handler/UpdatePartitionGroupHandler.java:70-73 | The number of remote ids in a TreeSet listing is the size of the set without the local id |
| Plans.LoopCount | journalq-server/journalq-broker-core/src/main/java/com/jd/journalq/broker/handler/UpdatePartitionGroupHandler.java:96-152 | A loop over a TreeSet listing makes each local-branch call once if the local id is listed, and each remote-branch call once per other id |
| Plans.CommitCount | journalq-server/journalq-broker-core/src/main/java/com/jd/journalq/broker/handler/UpdatePartitionGroupHandler.java:96-120 | Per kind, commit's call count is the sum of its add loop, its partition-count check and its remove loop |
| Plans.RollbackCount | journalq-server/journalq-broker-core/src/main/java/com/jd/journalq/broker/handler/UpdatePartitionGroupHandler.java:127-155 | Per kind, rollback's call count is the sum of its undo loop, its restore loop and its partition-count check |
| Plans.CommitRemoteCounts | journalq-server/journalq-broker-core/src/main/java/com/jd/journalq/broker/handler/UpdatePartitionGroupHandler.java:96-120 | commit makes exactly one re-partition per remote added id and per remote removed id, plus one when the partition count changed. It fires one node-added hook per remote added id and one node-removed hook per remote removed id |
| Plans.CommitLocalCounts | journalq-server/journalq-broker-core/src/main/java/com/jd/journalq/broker/handler/UpdatePartitionGroupHandler.java:96-120 | commit creates storage and fires the group-created hook exactly once when the local id was added, else never. It removes storage and fires the group-removed hook exactly once when the local id was removed, else never |
| Plans.RollbackRemoteCounts | journalq-server/journalq-broker-core/src/main/java/com/jd/journalq/broker/handler/UpdatePartitionGroupHandler.java:127-155 | rollback makes as many re-partitions as commit. It fires one node-removed hook per remote added id and one node-added hook per remote removed id |
| Plans.RollbackLocalCounts | journalq-server/journalq-broker-core/src/main/java/com/jd/journalq/broker/handler/UpdatePartitionGroupHandler.java:127-155 | rollback removes storage and fires the group-removed hook once exactly when the local id was added. It creates storage and fires the group-created hook once exactly when the local id was removed |
| LocalView.BrokerIds | journalq-server/journalq-broker-core/src/main/java/com/jd/journalq/broker/handler/UpdatePartitionGroupHandler.java:90-93 | When the directory knows every replica, the brokers list carries exactly the replica ids |
| LocalView.AbsentStays | journalq-server/journalq-broker-core/src/main/java/com/jd/journalq/broker/handler/UpdatePartitionGroupHandler.java:96-152 | Loops that never visit the local id leave a broker without the group untouched |
| LocalView.RemovalThroughLocal | journalq-server/journalq-broker-core/src/main/java/com/jd/journalq/broker/handler/UpdatePartitionGroupHandler.java:110-137 | A removing loop that visits the local id leaves neither storage nor an election instance |
| LocalView.RemoteStep | journalq-server/journalq-broker-core/src/main/java/com/jd/journalq/broker/handler/UpdatePartitionGroupHandler.java:101-152 | One remote iteration on a broker holding the group adds or drops that id from the tracked set and re-partitions to the loop's target |
| LocalView.RemoteSteps | journalq-server/journalq-broker-core/src/main/java/com/jd/journalq/broker/handler/UpdatePartitionGroupHandler.java:96-152 | Remote-only loops on a broker holding the group add or drop exactly the visited ids, and leave the storage at the loop's target list when they run at all |
| LocalView.RestoreThroughLocal | journalq-server/journalq-broker-core/src/main/java/com/jd/journalq/broker/handler/UpdatePartitionGroupHandler.java:142-152 | A restore loop that visits the local id leaves storage at the source's or the old partitions, and a tracked set between the source's replicas and those plus the other restored ids |
| LocalView.JoiningRoundTrip | journalq-server/journalq-broker-core/src/main/java/com/jd/journalq/broker/handler/UpdatePartitionGroupHandler.java:96-137 | On a joining broker, commit then rollback leaves it as it was: without the group |
| LocalView.OutsiderRoundTrip | journalq-server/journalq-broker-core/src/main/java/com/jd/journalq/broker/handler/UpdatePartitionGroupHandler.java:96-155 | On a broker in neither replica set, commit then rollback changes nothing |
| LocalView.StayingCommit | journalq-server/journalq-broker-core/src/main/java/com/jd/journalq/broker/handler/UpdatePartitionGroupHandler.java:96-120 | On a broker kept in the group, commit adds the added ids to and drops the removed ids from the tracked set. Storage moves to the new partitions unless nothing happens |
| LocalView.StayingRollback | journalq-server/journalq-broker-core/src/main/java/com/jd/journalq/broker/handler/UpdatePartitionGroupHandler.java:127-155 | On a broker kept in the group, rollback drops the added ids from and re-adds the removed ids to the tracked set. Storage moves to the old partitions unless nothing happens |
| LocalView.StayingRoundTrip | journalq-server/journalq-broker-core/src/main/java/com/jd/journalq/broker/handler/UpdatePartitionGroupHandler.java:89-156 | On a broker kept in the group, commit then rollback restores storage and tracked replicas |
| LocalView.CommitThenRollbackRestores | journalq-server/journalq-broker-core/src/main/java/com/jd/journalq/broker/handler/UpdatePartitionGroupHandler.java:89-156 | For a broker in step with the old snapshot and not among the removed ids, commit then rollback returns storage and tracked replicas to their prior state, whichever snapshot the restore loop reads |
| LocalView.RollbackRestoresIff | journalq-server/journalq-broker-core/src/main/java/com/jd/journalq/broker/handler/UpdatePartitionGroupHandler.java:138-152 | As written, commit then rollback returns a broker in step with the old snapshot to that state if and only if the broker is not among the removed ids |
| LocalView.CorrectedRollbackRestores | journalq-server/journalq-broker-core/src/main/java/com/jd/journalq/broker/handler/UpdatePartitionGroupHandler.java:138-152 | With the restore loop reading the old snapshot's replicas and partitions, commit then rollback always returns the broker to its prior state |
| Scenarios.ExampleDiff | journalq-server/journalq-broker-core/src/main/java/com/jd/journalq/broker/handler/UpdatePartitionGroupHandler.java:70-73 | For replicas {1,2,3} becoming {1,2,4}, the diff is [4] added and [3] removed |
| Scenarios.JoiningCommit | journalq-server/journalq-broker-core/src/main/java/com/jd/journalq/broker/handler/UpdatePartitionGroupHandler.java:89-121 | On joining broker 4, commit creates storage with [0,1] and fires the group-created hook, then broker 3's node-removed hook and a re-partition to [0,1]; no storage removal |
| Scenarios.JoiningRollback | journalq-server/journalq-broker-core/src/main/java/com/jd/journalq/broker/handler/UpdatePartitionGroupHandler.java:123-156 | On broker 4, rollback removes storage and fires the group-removed hook, then broker 3's node-added hook and a re-partition to the old [0,1] |
| Scenarios.JoiningCommitCreateThrows | journalq-server/journalq-broker-core/src/main/java/com/jd/journalq/broker/handler/UpdatePartitionGroupHandler.java:82-84 | If the storage creation throws, nothing is logged and the run ends with its message; broker 3's removal never happens |
| Scenarios.JoiningCommitHookThrows | journalq-server/journalq-broker-core/src/main/java/com/jd/journalq/broker/handler/UpdatePartitionGroupHandler.java:110-120 | If broker 3's node-removed hook throws, the two calls before it stand and broker 3's re-partition is not made |
| Scenarios.LeavingDiff | journalq-server/journalq-broker-core/src/main/java/com/jd/journalq/broker/handler/UpdatePartitionGroupHandler.java:70-73 | For replicas {1,2} becoming {2}, nothing is added and [1] is removed |
| Scenarios.LeavingBrokerNotRestored | journalq-server/journalq-broker-core/src/main/java/com/jd/journalq/broker/handler/UpdatePartitionGroupHandler.java:138-152 | On broker 1, which is removed, commit then rollback as written does not restore its view of {1,2} with partitions [0,1,2] |
| Scenarios.LeavingBrokerRestoredFromOld | journalq-server/journalq-broker-core/src/main/java/com/jd/journalq/broker/handler/UpdatePartitionGroupHandler.java:138-152 | With the restore reading the old snapshot, the same change on broker 1 is undone |

## Left out

- Logging and the JSON rendering in log messages are not modelled. They are side-channel output with no effect on the calls or the acknowledgement.
- The transport, the `Command` wrapper and `type()` are not modelled. The payload is taken directly as a `Request` (new snapshot, rollback flag), and an absent command is `None`.
- The name-service lookup of the old snapshot (line 68) is not modelled. `Handle` takes its result as an input: a missing group is `None`. That case leads to a NullPointerException inside the try block, which gives a failure ack with a null message. A failure of `getTopicConfig` itself happens outside the try block, escapes the handler, and is not modelled.
- The internals of StoreService, ElectionService and ClusterManager are not modelled. Their calls are recorded as `Effect` values. Which call throws, and with what message, is a parameter: the fault oracle `faults`. The directory (`getBrokerById`) is a map, where an unknown id gives a null broker; it is assumed never to throw.
- The effect of the calls on a broker exists only in `LocalView`, as an abstraction of the two services. It is not their code.
- LocalView.Apply treats a re-partition, a node-added hook and a node-removed hook as no-ops on a broker that has no storage or no election instance for the group. The services' code does not say what happens then; they may throw instead. Commit reaches that state on a joining broker whenever a remote added id sorts before the local id: with old replicas {1,2,3}, new {1,2,4,5} and local broker 5, the node-added hook and re-partition for broker 4 come before broker 5 creates the group. The round-trip lemmas rest on this assumption: LocalView.JoiningRoundTrip, LocalView.OutsiderRoundTrip, LocalView.CommitThenRollbackRestores, the "if" half of LocalView.RollbackRestoresIff, and LocalView.CorrectedRollbackRestores. The call sequences in `Plans` and `Handler` do not depend on it.
- `clusterManager.getBrokerId()` is a constant, `localBrokerId`. The handler reads it three times and assumes it does not change.
- Topic full names (`getFullName()`) are kept as the `TopicName` value. Partition numbers are `int`, and the `short` array conversions are not modelled.
- Java replica sets are sequences in their iteration order. That order shows only in the brokers list given to the election hooks.
- Concurrency and per-group serialization are not modelled. The handler holds no locks.
- The `term` field appears only in log messages; it is carried in the snapshot and never read.
- joyqueue-console/joyqueue-portal/src/utils/resize-event.js is not part of this model. It is browser UI plumbing with no part in the handler.

## Findings

| source | as written | input that shows it | evidently intended | confidence | as-written member | corrected member |
|---|---|---|---|---|---|---|
| journalq-server/journalq-broker-core/src/main/java/com/jd/journalq/broker/handler/UpdatePartitionGroupHandler.java:138-146 | Rollback's restore of the local broker reads the new snapshot. It creates storage with `groupNew`'s partitions and hands the group-created hook the brokers of `groupNew`'s replicas, which lack the local broker. The list is sized by `groupOld` (line 138). | Old replicas {1,2}, new replicas {2}, handled on broker 1. Commit removes broker 1's group. Rollback recreates it with an election instance tracking {2} only, not {1,2}. | The restore reads `groupOld` (its replicas and partitions), so that commit followed by rollback leaves every broker as it was. | medium; not executed | LocalView.RollbackRestoresIff, Scenarios.LeavingBrokerNotRestored | LocalView.CorrectedRollbackRestores, Scenarios.LeavingBrokerRestoredFromOld |

The handler itself (`Handler.UpdatePartitionGroupHandler.Rollback`) keeps the code's behaviour.
The corrected plan is `Plans.RollbackPlanFrom` with the old snapshot as its source.

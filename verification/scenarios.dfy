/**
 * Worked examples: one partition group moving from replicas {1, 2, 3} to
 * {1, 2, 4}, handled on broker 4 (the joining broker), with the partition
 * list [0, 1] unchanged.
 */
module Scenarios {
  import opened Domain
  import opened TreeSets
  import opened Execution
  import opened Plans
  import opened LocalView

  const Topic := TopicName("orders", "default")

  const Directory: map<int, Broker> := map[
    1 := Broker(1, "10.0.0.1", 50088),
    2 := Broker(2, "10.0.0.2", 50088),
    3 := Broker(3, "10.0.0.3", 50088),
    4 := Broker(4, "10.0.0.4", 50088)]

  const OldGroup := PartitionGroup(Topic, 0, [1, 2, 3], {}, [0, 1], Raft, 1, 7)
  const NewGroup := PartitionGroup(Topic, 0, [1, 2, 4], {}, [0, 1], Raft, 1, 8)

  /** The context of the example on broker 4. */
  const Joining := Context(NewGroup, OldGroup, 4, Directory)

  /** The calls commit makes on broker 4. */
  const JoiningCommitCalls := [
    CreatePartitionGroup(Topic, 0, [0, 1]),
    OnPartitionGroupCreate(Raft, Topic, 0, BrokerList(Directory, [1, 2, 4]), {}, 4, 1),
    OnNodeRemove(Topic, 0, 3, 4),
    RePartition(Topic, 0, [0, 1])]

  /** The calls rollback makes on broker 4. */
  const JoiningRollbackCalls := [
    RemovePartitionGroup(Topic, 0),
    OnPartitionGroupRemove(Topic, 0),
    OnNodeAdd(Topic, 0, Raft, BrokerList(Directory, [1, 2, 4]), {}, Some(Directory[3]), 4, 1),
    RePartition(Topic, 0, [0, 1])]

  /** The diff of the example: broker 4 joins, broker 3 leaves. */
  lemma ExampleDiff()
    ensures Ascending(Elems(NewGroup.replicas) - Elems(OldGroup.replicas)) == [4]
    ensures Ascending(Elems(OldGroup.replicas) - Elems(NewGroup.replicas)) == [3]
  {
    assert Elems([1, 2, 4]) - Elems([1, 2, 3]) == Elems([4]) by {
      assert forall x :: x in Elems([1, 2, 4]) <==> x == 1 || x == 2 || x == 4;
      assert forall x :: x in Elems([1, 2, 3]) <==> x == 1 || x == 2 || x == 3;
    }
    assert Elems([1, 2, 3]) - Elems([1, 2, 4]) == Elems([3]) by {
      assert forall x :: x in Elems([1, 2, 4]) <==> x == 1 || x == 2 || x == 4;
      assert forall x :: x in Elems([1, 2, 3]) <==> x == 1 || x == 2 || x == 3;
    }
    AscendingOfElems([4]);
    AscendingOfElems([3]);
  }

  /**
   * Commit on the joining broker: storage is created with [0, 1] and the
   * group-created hook fires; broker 3 leaves through the node-removed hook
   * and a re-partition to [0, 1]. Storage is never removed.
   */
  lemma JoiningCommit()
    ensures var nodeAdd := Ascending(Elems(NewGroup.replicas) - Elems(OldGroup.replicas));
      var nodeRemove := Ascending(Elems(OldGroup.replicas) - Elems(NewGroup.replicas));
      CommitPlan(Joining, nodeAdd, nodeRemove) == JoiningCommitCalls
  {
    ExampleDiff();
    assert Steps(Joining, CommitAdd, [4]) == Step(Joining, CommitAdd, 4);
    assert Steps(Joining, CommitRemove, [3]) == Step(Joining, CommitRemove, 3);
  }

  /**
   * Rollback of the same change on the joining broker: its storage is
   * removed and the group-removed hook fires; broker 3 comes back through
   * the node-added hook and a re-partition to the old list [0, 1].
   */
  lemma JoiningRollback()
    ensures var nodeAdd := Ascending(Elems(NewGroup.replicas) - Elems(OldGroup.replicas));
      var nodeRemove := Ascending(Elems(OldGroup.replicas) - Elems(NewGroup.replicas));
      RollbackPlan(Joining, nodeAdd, nodeRemove) == JoiningRollbackCalls
  {
    ExampleDiff();
    assert Steps(Joining, UndoAdd, [4]) == Step(Joining, UndoAdd, 4);
    assert Steps(Joining, Restore(NewGroup), [3]) == Step(Joining, Restore(NewGroup), 3);
  }

  /**
   * If creating the storage throws, the commit of the example stops there:
   * nothing is recorded, broker 3's removal is never processed, and the
   * outcome carries the exception's message.
   */
  lemma JoiningCommitCreateThrows(message: string)
    ensures Execute(map[0 := Some(message)], [], JoiningCommitCalls) == Trace([], Threw(Some(message)))
  {
    ExecuteStopsAtFirstFault(map[0 := Some(message)], [], JoiningCommitCalls, 0);
  }

  /**
   * If the node-removed hook for broker 3 throws, the two calls for the
   * joining broker stand and the re-partition for broker 3 is not made.
   */
  lemma JoiningCommitHookThrows(message: string)
    ensures Execute(map[2 := Some(message)], [], JoiningCommitCalls)
         == Trace(JoiningCommitCalls[..2], Threw(Some(message)))
  {
    ExecuteStopsAtFirstFault(map[2 := Some(message)], [], JoiningCommitCalls, 2);
  }

  // ---------------------------------------------------------------------
  // A broker that leaves and is rolled back

  const Pair := PartitionGroup(Topic, 1, [1, 2], {}, [0, 1, 2], Raft, 1, 3)
  const Single := PartitionGroup(Topic, 1, [2], {}, [0, 1, 2], Raft, 2, 4)

  /** Broker 1 handles the change from replicas {1, 2} to {2}: it is the one removed. */
  const Leaving := Context(Single, Pair, 1, Directory)

  lemma LeavingDiff()
    ensures IsDiff(Leaving, [], [1])
    ensures Knows(Directory, Elems(Single.replicas) + Elems(Pair.replicas))
  {
    assert forall x :: x in Elems([1, 2]) <==> x == 1 || x == 2;
    assert forall x :: x in Elems([2]) <==> x == 2;
    assert Elems([2]) - Elems([1, 2]) == {};
    assert Elems([1, 2]) - Elems([2]) == Elems([1]);
  }

  /**
   * Commit then rollback as written on the leaving broker: it held the group
   * with replicas {1, 2} and ends up with an election instance tracking
   * {2} only, because the restore reads the new snapshot.
   */
  lemma LeavingBrokerNotRestored()
    ensures var before := InStep(Pair, 1);
      && before == View(Some([0, 1, 2]), Some({1, 2}))
      && ApplyAll(ApplyAll(before, CommitPlan(Leaving, [], [1])), RollbackPlan(Leaving, [], [1])) != before
  {
    LeavingDiff();
    assert Elems([1, 2]) == {1, 2} by {
      assert forall x :: x in Elems([1, 2]) <==> x == 1 || x == 2;
    }
    RollbackRestoresIff(Leaving, [], [1]);
  }

  /** The same change with the restore reading the old snapshot returns the broker to where it was. */
  lemma LeavingBrokerRestoredFromOld()
    ensures var before := InStep(Pair, 1);
      ApplyAll(ApplyAll(before, CommitPlan(Leaving, [], [1])), RollbackPlanFrom(Leaving, [], [1], Pair)) == before
  {
    LeavingDiff();
    CorrectedRollbackRestores(Leaving, [], [1]);
  }
}

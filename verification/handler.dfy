/**
 * UpdatePartitionGroupHandler: the broker-side handler of the name server's
 * "update partition group" command. It diffs the replica sets of the new and
 * the old snapshot of one partition group and then, depending on the
 * request's rollback flag, applies the change (commit) or undoes it
 * (rollback) through the store service and the election service.
 *
 * The two services are modelled by the log `effects` of the calls they
 * received; `faults` decides which call throws (see module Execution).
 */
module Handler {
  import opened Domain
  import opened TreeSets
  import opened Execution
  import opened Plans

  /**
   * The membership diff: `new TreeSet<>(replicasNew)` minus the old replicas
   * and `new TreeSet<>(replicasOld)` minus the new replicas. Both come out in
   * ascending order, the order the loops of commit and rollback visit them.
   */
  method ComputeDiff(replicasNew: seq<int>, replicasOld: seq<int>) returns (nodeAdd: seq<int>, nodeRemove: seq<int>)
    ensures StrictlyAscending(nodeAdd) && StrictlyAscending(nodeRemove)
    ensures forall id :: id in nodeAdd <==> id in replicasNew && id !in replicasOld
    ensures forall id :: id in nodeRemove <==> id in replicasOld && id !in replicasNew
    ensures Elems(nodeAdd) !! Elems(nodeRemove)
    ensures nodeAdd == Ascending(Elems(replicasNew) - Elems(replicasOld))
    ensures nodeRemove == Ascending(Elems(replicasOld) - Elems(replicasNew))
  {
    var treeNew := NewTreeSet(replicasNew);
    var treeOld := NewTreeSet(replicasOld);
    nodeAdd := RemoveAll(treeNew, replicasOld);
    nodeRemove := RemoveAll(treeOld, replicasNew);
    assert forall id :: id in nodeAdd <==> id in Elems(nodeAdd);
    assert forall id :: id in nodeRemove <==> id in Elems(nodeRemove);
  }

  /** The acknowledgement for how commit or rollback ended: BooleanAck.build() or BooleanAck.build(CN_UNKNOWN_ERROR, message). */
  function AckOf(outcome: Outcome): (ack: Ack)
    ensures ack.SuccessAck? <==> outcome.Completed?
    ensures outcome.Threw? ==> ack.code == CnUnknownError && ack.message == outcome.message
  {
    match outcome
    case Completed => SuccessAck
    case Threw(message) => FailureAck(CnUnknownError, message)
  }

  class UpdatePartitionGroupHandler {
    /** clusterManager.getBrokerById, as a map from broker id to broker. */
    const directory: map<int, Broker>
    /** clusterManager.getBrokerId(): the id of the broker this handler runs on. */
    const localBrokerId: int
    /** Which collaborator call throws, by the position it would take in `effects`. */
    const faults: map<nat, Option<string>>
    /** The calls the store and election services received, oldest first. */
    var effects: seq<Effect>

    constructor (directory: map<int, Broker>, localBrokerId: int, faults: map<nat, Option<string>>)
      ensures this.directory == directory && this.localBrokerId == localBrokerId && this.faults == faults
      ensures effects == []
    {
      this.directory := directory;
      this.localBrokerId := localBrokerId;
      this.faults := faults;
      effects := [];
    }

    /**
     * One call on a collaborator. It throws when `faults` says so, and is
     * then not logged. `pending` is the ghost list of calls still to be made,
     * of which `e` is the first: the call advances the execution of that list
     * by one step.
     */
    method Call(e: Effect, ghost pending: seq<Effect>) returns (outcome: Outcome)
      requires pending != [] && pending[0] == e
      modifies this
      ensures |old(effects)| in faults ==> outcome == Threw(faults[|old(effects)|]) && effects == old(effects)
      ensures |old(effects)| !in faults ==> outcome == Completed && effects == old(effects) + [e]
      ensures outcome.Threw? ==> Trace(effects, outcome) == Execute(faults, old(effects), pending)
      ensures outcome.Completed? ==> Execute(faults, effects, pending[1..]) == Execute(faults, old(effects), pending)
    {
      ExecuteFirst(faults, effects, pending);
      if |effects| in faults {
        outcome := Threw(faults[|effects|]);
      } else {
        effects := effects + [e];
        outcome := Completed;
      }
    }

    /**
     * The two calls of one loop iteration, `first` then `second`: the second
     * is made only if the first completed.
     */
    method CallPair(first: Effect, second: Effect, ghost pending: seq<Effect>) returns (outcome: Outcome)
      requires |pending| >= 2 && pending[0] == first && pending[1] == second
      modifies this
      ensures outcome.Threw? ==> Trace(effects, outcome) == Execute(faults, old(effects), pending)
      ensures outcome.Completed? ==>
        effects == old(effects) + [first, second] && Execute(faults, effects, pending[2..]) == Execute(faults, old(effects), pending)
    {
      outcome := Call(first, pending);
      if outcome.Threw? { return; }
      assert pending[1..][1..] == pending[2..];
      outcome := Call(second, pending[1..]);
    }

    /** The `brokers` list: one directory lookup per replica, in iteration order. */
    method ResolveBrokers(replicas: seq<int>) returns (brokers: seq<Option<Broker>>)
      ensures |brokers| == |replicas|
      ensures forall i :: 0 <= i < |replicas| ==>
        brokers[i] == (if replicas[i] in directory then Some(directory[replicas[i]]) else None)
      ensures brokers == BrokerList(directory, replicas)
    {
      brokers := [];
      var i := 0;
      while i < |replicas|
        invariant 0 <= i <= |replicas|
        invariant brokers == BrokerList(directory, replicas[..i])
      {
        var broker := if replicas[i] in directory then Some(directory[replicas[i]]) else None;
        brokers := brokers + [broker];
        i := i + 1;
      }
      assert replicas[..i] == replicas;
    }

    /** The context of a commit or rollback on this broker. */
    function On(groupNew: PartitionGroup, groupOld: PartitionGroup): Context {
      Context(groupNew, groupOld, localBrokerId, directory)
    }

    /** Commit's loop over the added ids. */
    method CommitAdds(groupNew: PartitionGroup, groupOld: PartitionGroup, nodeAdd: seq<int>, brokers: seq<Option<Broker>>)
      returns (outcome: Outcome)
      requires brokers == BrokerList(directory, groupNew.replicas)
      modifies this
      ensures Trace(effects, outcome) == Execute(faults, old(effects), Steps(On(groupNew, groupOld), CommitAdd, nodeAdd))
    {
      ghost var c := On(groupNew, groupOld);
      ghost var rest := Steps(c, CommitAdd, nodeAdd);
      var topic := groupNew.topic;
      assert nodeAdd[0..] == nodeAdd;
      var i := 0;
      while i < |nodeAdd|
        invariant 0 <= i <= |nodeAdd|
        invariant rest == Steps(c, CommitAdd, nodeAdd[i..])
        invariant Execute(faults, effects, rest) == Execute(faults, old(effects), Steps(c, CommitAdd, nodeAdd))
      {
        var brokerId := nodeAdd[i];
        if localBrokerId == brokerId {
          var create := CreatePartitionGroup(topic, groupNew.group, groupNew.partitions);
          var created := OnPartitionGroupCreate(groupNew.electType, topic, groupNew.group, brokers,
                                                groupNew.learners, localBrokerId, groupNew.leader);
          assert Step(c, CommitAdd, brokerId) == [create, created];
          StepsAdvance(c, CommitAdd, nodeAdd, i, create, created);
          outcome := CallPair(create, created, rest);
          if outcome.Threw? { return; }
          rest := rest[2..];
        } else {
          var broker := if brokerId in directory then Some(directory[brokerId]) else None;
          var added := OnNodeAdd(topic, groupNew.group, groupNew.electType, brokers, groupNew.learners,
                                 broker, localBrokerId, groupNew.leader);
          var repartition := RePartition(topic, groupNew.group, groupNew.partitions);
          assert Step(c, CommitAdd, brokerId) == [added, repartition];
          StepsAdvance(c, CommitAdd, nodeAdd, i, added, repartition);
          outcome := CallPair(added, repartition, rest);
          if outcome.Threw? { return; }
          rest := rest[2..];
        }
        i := i + 1;
      }
      assert nodeAdd[i..] == [];
      outcome := Completed;
    }

    /** Commit's loop over the removed ids. */
    method CommitRemoves(groupNew: PartitionGroup, groupOld: PartitionGroup, nodeRemove: seq<int>)
      returns (outcome: Outcome)
      modifies this
      ensures Trace(effects, outcome) == Execute(faults, old(effects), Steps(On(groupNew, groupOld), CommitRemove, nodeRemove))
    {
      ghost var c := On(groupNew, groupOld);
      ghost var rest := Steps(c, CommitRemove, nodeRemove);
      var topic := groupNew.topic;
      assert nodeRemove[0..] == nodeRemove;
      var j := 0;
      while j < |nodeRemove|
        invariant 0 <= j <= |nodeRemove|
        invariant rest == Steps(c, CommitRemove, nodeRemove[j..])
        invariant Execute(faults, effects, rest) == Execute(faults, old(effects), Steps(c, CommitRemove, nodeRemove))
      {
        var brokerId := nodeRemove[j];
        if localBrokerId == brokerId {
          var remove := RemovePartitionGroup(topic, groupNew.group);
          var removed := OnPartitionGroupRemove(topic, groupNew.group);
          assert Step(c, CommitRemove, brokerId) == [remove, removed];
          StepsAdvance(c, CommitRemove, nodeRemove, j, remove, removed);
          outcome := CallPair(remove, removed, rest);
          if outcome.Threw? { return; }
          rest := rest[2..];
        } else {
          var removedNode := OnNodeRemove(topic, groupNew.group, brokerId, localBrokerId);
          var repartition := RePartition(topic, groupNew.group, groupNew.partitions);
          assert Step(c, CommitRemove, brokerId) == [removedNode, repartition];
          StepsAdvance(c, CommitRemove, nodeRemove, j, removedNode, repartition);
          outcome := CallPair(removedNode, repartition, rest);
          if outcome.Threw? { return; }
          rest := rest[2..];
        }
        j := j + 1;
      }
      assert nodeRemove[j..] == [];
      outcome := Completed;
    }

    /** Applies the change from `groupOld` to `groupNew`: the added ids, the partition-count check, the removed ids. */
    method Commit(groupNew: PartitionGroup, groupOld: PartitionGroup, nodeAdd: seq<int>, nodeRemove: seq<int>)
      returns (outcome: Outcome)
      modifies this
      ensures Trace(effects, outcome) == Execute(faults, old(effects), CommitPlan(On(groupNew, groupOld), nodeAdd, nodeRemove))
    {
      ghost var c := On(groupNew, groupOld);
      ghost var adds, removes := Steps(c, CommitAdd, nodeAdd), Steps(c, CommitRemove, nodeRemove);
      ghost var check := if SizeChanged(c) then [RePartition(groupNew.topic, groupNew.group, groupNew.partitions)] else [];
      ExecuteAppend(faults, old(effects), adds + check, removes);
      ExecuteAppend(faults, old(effects), adds, check);
      var brokers := ResolveBrokers(groupNew.replicas);
      outcome := CommitAdds(groupNew, groupOld, nodeAdd, brokers);
      if outcome.Threw? { return; }
      ghost var mid := effects;
      if |groupOld.partitions| != |groupNew.partitions| {
        outcome := Call(RePartition(groupNew.topic, groupNew.group, groupNew.partitions), check);
        if outcome.Threw? { return; }
      }
      assert Execute(faults, mid, check) == Trace(effects, Completed);
      outcome := CommitRemoves(groupNew, groupOld, nodeRemove);
    }

    /** Rollback's loop taking the added ids out again. */
    method UndoAdds(groupNew: PartitionGroup, groupOld: PartitionGroup, nodeAdd: seq<int>)
      returns (outcome: Outcome)
      modifies this
      ensures Trace(effects, outcome) == Execute(faults, old(effects), Steps(On(groupNew, groupOld), UndoAdd, nodeAdd))
    {
      ghost var c := On(groupNew, groupOld);
      ghost var rest := Steps(c, UndoAdd, nodeAdd);
      var topic := groupNew.topic;
      assert nodeAdd[0..] == nodeAdd;
      var i := 0;
      while i < |nodeAdd|
        invariant 0 <= i <= |nodeAdd|
        invariant rest == Steps(c, UndoAdd, nodeAdd[i..])
        invariant Execute(faults, effects, rest) == Execute(faults, old(effects), Steps(c, UndoAdd, nodeAdd))
      {
        var brokerId := nodeAdd[i];
        if localBrokerId == brokerId {
          var remove := RemovePartitionGroup(topic, groupNew.group);
          var removed := OnPartitionGroupRemove(topic, groupNew.group);
          assert Step(c, UndoAdd, brokerId) == [remove, removed];
          StepsAdvance(c, UndoAdd, nodeAdd, i, remove, removed);
          outcome := CallPair(remove, removed, rest);
          if outcome.Threw? { return; }
          rest := rest[2..];
        } else {
          var removedNode := OnNodeRemove(topic, groupNew.group, brokerId, localBrokerId);
          var repartition := RePartition(groupOld.topic, groupOld.group, groupOld.partitions);
          assert Step(c, UndoAdd, brokerId) == [removedNode, repartition];
          StepsAdvance(c, UndoAdd, nodeAdd, i, removedNode, repartition);
          outcome := CallPair(removedNode, repartition, rest);
          if outcome.Threw? { return; }
          rest := rest[2..];
        }
        i := i + 1;
      }
      assert nodeAdd[i..] == [];
      outcome := Completed;
    }

    /** Rollback's loop putting the removed ids back; `brokers` is resolved from the new replicas. */
    method Restores(groupNew: PartitionGroup, groupOld: PartitionGroup, nodeRemove: seq<int>, brokers: seq<Option<Broker>>)
      returns (outcome: Outcome)
      requires brokers == BrokerList(directory, groupNew.replicas)
      modifies this
      ensures Trace(effects, outcome)
           == Execute(faults, old(effects), Steps(On(groupNew, groupOld), Restore(groupNew), nodeRemove))
    {
      ghost var c := On(groupNew, groupOld);
      ghost var rest := Steps(c, Restore(groupNew), nodeRemove);
      var topic := groupNew.topic;
      assert nodeRemove[0..] == nodeRemove;
      var j := 0;
      while j < |nodeRemove|
        invariant 0 <= j <= |nodeRemove|
        invariant rest == Steps(c, Restore(groupNew), nodeRemove[j..])
        invariant Execute(faults, effects, rest) == Execute(faults, old(effects), Steps(c, Restore(groupNew), nodeRemove))
      {
        var brokerId := nodeRemove[j];
        if localBrokerId == brokerId {
          var create := CreatePartitionGroup(topic, groupNew.group, groupNew.partitions);
          var created := OnPartitionGroupCreate(groupNew.electType, topic, groupNew.group, brokers,
                                                groupNew.learners, localBrokerId, groupNew.leader);
          assert Step(c, Restore(groupNew), brokerId) == [create, created];
          StepsAdvance(c, Restore(groupNew), nodeRemove, j, create, created);
          outcome := CallPair(create, created, rest);
          if outcome.Threw? { return; }
          rest := rest[2..];
        } else {
          var broker := if brokerId in directory then Some(directory[brokerId]) else None;
          var added := OnNodeAdd(topic, groupNew.group, groupNew.electType, brokers, groupNew.learners,
                                 broker, localBrokerId, groupNew.leader);
          var repartition := RePartition(groupOld.topic, groupOld.group, groupOld.partitions);
          assert Step(c, Restore(groupNew), brokerId) == [added, repartition];
          StepsAdvance(c, Restore(groupNew), nodeRemove, j, added, repartition);
          outcome := CallPair(added, repartition, rest);
          if outcome.Threw? { return; }
          rest := rest[2..];
        }
        j := j + 1;
      }
      assert nodeRemove[j..] == [];
      outcome := Completed;
    }

    /**
     * Undoes the change from `groupOld` to `groupNew`: the added ids are
     * taken out again, the removed ids put back, then the partition-count
     * check. The restore loop takes its broker list and its storage
     * partitions from `groupNew`, as the handler is written.
     */
    method Rollback(groupNew: PartitionGroup, groupOld: PartitionGroup, nodeAdd: seq<int>, nodeRemove: seq<int>)
      returns (outcome: Outcome)
      modifies this
      ensures Trace(effects, outcome) == Execute(faults, old(effects), RollbackPlan(On(groupNew, groupOld), nodeAdd, nodeRemove))
    {
      ghost var c := On(groupNew, groupOld);
      ghost var undos, restores := Steps(c, UndoAdd, nodeAdd), Steps(c, Restore(groupNew), nodeRemove);
      ghost var check := if SizeChanged(c) then [RePartition(groupNew.topic, groupOld.group, groupOld.partitions)] else [];
      ExecuteAppend(faults, old(effects), undos + restores, check);
      ExecuteAppend(faults, old(effects), undos, restores);
      outcome := UndoAdds(groupNew, groupOld, nodeAdd);
      if outcome.Threw? { return; }
      var brokers := ResolveBrokers(groupNew.replicas);
      outcome := Restores(groupNew, groupOld, nodeRemove, brokers);
      if outcome.Threw? { return; }
      ghost var mid := effects;
      if |groupOld.partitions| != |groupNew.partitions| {
        outcome := Call(RePartition(groupNew.topic, groupOld.group, groupOld.partitions), check);
        if outcome.Threw? { return; }
      }
      assert Execute(faults, mid, check) == Trace(effects, Completed);
    }

    /**
     * Handles one command. `command` is None for a null command; `groupOld`
     * is what the name service holds for the group (None when it has no
     * such group, which makes the diff throw a NullPointerException, whose
     * message is null).
     */
    method Handle(command: Option<Request>, groupOld: Option<PartitionGroup>) returns (response: Option<Ack>)
      modifies this
      ensures command.None? ==> response.None? && effects == old(effects)
      ensures command.Some? && groupOld.None? ==>
        response == Some(FailureAck(CnUnknownError, None)) && effects == old(effects)
      ensures command.Some? && groupOld.Some? ==>
        var request, go := command.value, groupOld.value;
        var gn := request.partitionGroup;
        var c := On(gn, go);
        var nodeAdd := Ascending(Elems(gn.replicas) - Elems(go.replicas));
        var nodeRemove := Ascending(Elems(go.replicas) - Elems(gn.replicas));
        var t := Execute(faults, old(effects),
                         if request.rollback then RollbackPlan(c, nodeAdd, nodeRemove) else CommitPlan(c, nodeAdd, nodeRemove));
        effects == t.log && response == Some(AckOf(t.outcome))
    {
      if command.None? {
        return None;
      }
      var request := command.value;
      var groupNew := request.partitionGroup;
      if groupOld.None? {
        return Some(FailureAck(CnUnknownError, None));
      }
      var nodeAdd, nodeRemove := ComputeDiff(groupNew.replicas, groupOld.value.replicas);
      var outcome;
      if !request.rollback {
        outcome := Commit(groupNew, groupOld.value, nodeAdd, nodeRemove);
      } else {
        outcome := Rollback(groupNew, groupOld.value, nodeAdd, nodeRemove);
      }
      response := Some(AckOf(outcome));
    }
  }
}

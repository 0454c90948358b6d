/**
 * The calls `commit` and `rollback` of UpdatePartitionGroupHandler make, as
 * sequences of effects, and what those sequences promise: which branch each
 * broker id takes, the order of the phases, how many calls of each kind are
 * made and which partition list each call carries.
 */
module Plans {
  import opened Domain
  import opened TreeSets

  /**
   * Everything one commit or rollback depends on: the new and the old
   * snapshot, the local broker id and the cluster directory (broker id to
   * broker).
   */
  datatype Context = Context(
    groupNew: PartitionGroup,
    groupOld: PartitionGroup,
    local: int,
    directory: map<int, Broker>)

  /** clusterManager.getBrokerById: None when the directory does not know the id. */
  function Lookup(directory: map<int, Broker>, id: int): Option<Broker> {
    if id in directory then Some(directory[id]) else None
  }

  /** The `brokers` list: one lookup per replica id, in iteration order. */
  function BrokerList(directory: map<int, Broker>, replicas: seq<int>): seq<Option<Broker>> {
    seq(|replicas|, i requires 0 <= i < |replicas| => Lookup(directory, replicas[i]))
  }

  /**
   * The four loops: commit's loop over the added ids and over the removed
   * ids, rollback's loop undoing the added ids, and rollback's loop
   * restoring the removed ids. `source` is the snapshot a restore takes its
   * replica list and its storage partitions from.
   */
  datatype Phase = CommitAdd | CommitRemove | UndoAdd | Restore(source: PartitionGroup)

  /**
   * The two calls one loop iteration makes for broker id `id`. For the local
   * id, storage is created or removed before the election service's group
   * hook; for another id, the node hook comes before the re-partition.
   */
  function Step(c: Context, phase: Phase, id: int): (r: seq<Effect>)
    ensures |r| == 2
    ensures id == c.local ==>
      (r[0].CreatePartitionGroup? || r[0].RemovePartitionGroup?)
      && (r[1].OnPartitionGroupCreate? || r[1].OnPartitionGroupRemove?)
    ensures id != c.local ==> (r[0].OnNodeAdd? || r[0].OnNodeRemove?) && r[1].RePartition?
  {
    [FirstCall(c, phase, id), SecondCall(c, phase, id)]
  }

  /**
   * The first call of an iteration: for the local id, storage is created
   * or removed; for another id, the election service hears of the node.
   */
  function FirstCall(c: Context, phase: Phase, id: int): (r: Effect)
    ensures id == c.local <==> r.CreatePartitionGroup? || r.RemovePartitionGroup?
    ensures r.CreatePartitionGroup? <==> id == c.local && (phase.CommitAdd? || phase.Restore?)
    ensures r.OnNodeAdd? ==> r.broker == Lookup(c.directory, id)
    ensures r.OnNodeRemove? ==> r.brokerId == id
  {
    var gn := c.groupNew;
    match phase
    case CommitAdd =>
      if id == c.local then CreatePartitionGroup(gn.topic, gn.group, gn.partitions)
      else OnNodeAdd(gn.topic, gn.group, gn.electType, BrokerList(c.directory, gn.replicas),
                     gn.learners, Lookup(c.directory, id), c.local, gn.leader)
    case CommitRemove =>
      if id == c.local then RemovePartitionGroup(gn.topic, gn.group)
      else OnNodeRemove(gn.topic, gn.group, id, c.local)
    case UndoAdd =>
      if id == c.local then RemovePartitionGroup(gn.topic, gn.group)
      else OnNodeRemove(gn.topic, gn.group, id, c.local)
    case Restore(src) =>
      if id == c.local then CreatePartitionGroup(gn.topic, gn.group, src.partitions)
      else OnNodeAdd(gn.topic, gn.group, gn.electType, BrokerList(c.directory, src.replicas),
                     gn.learners, Lookup(c.directory, id), c.local, gn.leader)
  }

  /**
   * The second call of an iteration: for the local id, the election
   * service's group hook; for another id, a re-partition of the storage.
   */
  function SecondCall(c: Context, phase: Phase, id: int): (r: Effect)
    ensures id == c.local <==> !r.RePartition?
    ensures r.OnPartitionGroupCreate? <==> id == c.local && (phase.CommitAdd? || phase.Restore?)
    ensures r.RePartition? ==> r.partitions == RemoteTarget(c, phase)
  {
    var gn, go := c.groupNew, c.groupOld;
    match phase
    case CommitAdd =>
      if id == c.local then
        OnPartitionGroupCreate(gn.electType, gn.topic, gn.group, BrokerList(c.directory, gn.replicas),
                               gn.learners, c.local, gn.leader)
      else RePartition(gn.topic, gn.group, gn.partitions)
    case CommitRemove =>
      if id == c.local then OnPartitionGroupRemove(gn.topic, gn.group)
      else RePartition(gn.topic, gn.group, gn.partitions)
    case UndoAdd =>
      if id == c.local then OnPartitionGroupRemove(gn.topic, gn.group)
      else RePartition(go.topic, go.group, go.partitions)
    case Restore(src) =>
      if id == c.local then
        OnPartitionGroupCreate(gn.electType, gn.topic, gn.group, BrokerList(c.directory, src.replicas),
                               gn.learners, c.local, gn.leader)
      else RePartition(go.topic, go.group, go.partitions)
  }

  /** One loop over `ids`: the calls of each iteration, in visiting order. */
  function Steps(c: Context, phase: Phase, ids: seq<int>): (r: seq<Effect>)
    ensures |r| == 2 * |ids|
    decreases |ids|
  {
    if ids == [] then [] else Step(c, phase, ids[0]) + Steps(c, phase, ids[1..])
  }

  /** The partition-count check of both paths. */
  predicate SizeChanged(c: Context) {
    |c.groupOld.partitions| != |c.groupNew.partitions|
  }

  /** The calls `commit` makes, given the added and the removed ids in visiting order. */
  function CommitPlan(c: Context, nodeAdd: seq<int>, nodeRemove: seq<int>): (r: seq<Effect>)
    ensures |r| == 2 * |nodeAdd| + 2 * |nodeRemove| + (if SizeChanged(c) then 1 else 0)
  {
    var gn := c.groupNew;
    Steps(c, CommitAdd, nodeAdd)
    + (if SizeChanged(c) then [RePartition(gn.topic, gn.group, gn.partitions)] else [])
    + Steps(c, CommitRemove, nodeRemove)
  }

  /** Rollback's calls when its restore loop draws on the snapshot `source`. */
  function RollbackPlanFrom(c: Context, nodeAdd: seq<int>, nodeRemove: seq<int>, source: PartitionGroup): (r: seq<Effect>)
    ensures |r| == 2 * |nodeAdd| + 2 * |nodeRemove| + (if SizeChanged(c) then 1 else 0)
    ensures SizeChanged(c) ==> r[|r| - 1].RePartition? && r[|r| - 1].partitions == c.groupOld.partitions
  {
    Steps(c, UndoAdd, nodeAdd)
    + Steps(c, Restore(source), nodeRemove)
    + (if SizeChanged(c) then [RePartition(c.groupNew.topic, c.groupOld.group, c.groupOld.partitions)] else [])
  }

  /** The calls `rollback` makes: its restore loop uses the new snapshot's replicas and partitions. */
  function RollbackPlan(c: Context, nodeAdd: seq<int>, nodeRemove: seq<int>): (r: seq<Effect>)
    ensures |r| == |CommitPlan(c, nodeAdd, nodeRemove)|
  {
    RollbackPlanFrom(c, nodeAdd, nodeRemove, c.groupNew)
  }

  // ---------------------------------------------------------------------
  // Structure of a loop

  /** The loop from iteration `i` on: iteration `i`, then the rest. */
  lemma StepsFirst(c: Context, phase: Phase, ids: seq<int>, i: int)
    requires 0 <= i < |ids|
    ensures Steps(c, phase, ids[i..]) == Step(c, phase, ids[i]) + Steps(c, phase, ids[i + 1..])
  {
    assert ids[i..][0] == ids[i] && ids[i..][1..] == ids[i + 1..];
  }

  /** The loop from iteration `j` on starts with that iteration's two calls `x` and `y`. */
  lemma StepsAdvance(c: Context, phase: Phase, ids: seq<int>, j: int, x: Effect, y: Effect)
    requires 0 <= j < |ids| && Step(c, phase, ids[j]) == [x, y]
    ensures var rest := Steps(c, phase, ids[j..]);
      |rest| >= 2 && rest[0] == x && rest[1] == y && rest[2..] == Steps(c, phase, ids[j + 1..])
  {
    StepsFirst(c, phase, ids, j);
  }

  /** Iteration `j` of a loop makes exactly the calls of `ids[j]`, at positions 2j and 2j+1. */
  lemma {:induction false} StepsAt(c: Context, phase: Phase, ids: seq<int>, j: int)
    requires 0 <= j < |ids|
    ensures |Steps(c, phase, ids)| == 2 * |ids|
    ensures Steps(c, phase, ids)[2 * j..2 * j + 2] == Step(c, phase, ids[j])
    decreases |ids|
  {
    if j > 0 {
      StepsAt(c, phase, ids[1..], j - 1);
    }
  }

  /** The partition list a remote iteration of `phase` re-partitions to. */
  function RemoteTarget(c: Context, phase: Phase): seq<int> {
    match phase
    case CommitAdd => c.groupNew.partitions
    case CommitRemove => c.groupNew.partitions
    case UndoAdd => c.groupOld.partitions
    case Restore(_) => c.groupOld.partitions
  }

  /**
   * What any call a loop of `phase` over `ids` makes is bound to be: a
   * re-partition goes to the phase's target; storage is created (by the
   * adding loops, with the new or the source partitions) or removed (by the
   * removing loops) only when the local id is visited.
   */
  predicate LoopCall(c: Context, phase: Phase, ids: seq<int>, e: Effect) {
    && (e.RePartition? ==> e.partitions == RemoteTarget(c, phase))
    && (e.CreatePartitionGroup? ==>
          && c.local in ids
          && (phase.CommitAdd? || phase.Restore?)
          && e.partitions == (if phase.Restore? then phase.source.partitions else c.groupNew.partitions))
    && (e.RemovePartitionGroup? ==> c.local in ids && (phase.CommitRemove? || phase.UndoAdd?))
  }

  lemma StepCalls(c: Context, phase: Phase, ids: seq<int>, i: int, e: Effect)
    requires 0 <= i < |ids| && e in Step(c, phase, ids[i])
    ensures LoopCall(c, phase, ids, e)
  {
    var s := Step(c, phase, ids[i]);
    assert e == s[0] || e == s[1];
    if ids[i] == c.local {
      assert c.local in ids;
    }
  }

  lemma {:induction false} StepsCalls(c: Context, phase: Phase, ids: seq<int>, e: Effect)
    requires e in Steps(c, phase, ids)
    ensures LoopCall(c, phase, ids, e)
    decreases |ids|
  {
    if e in Step(c, phase, ids[0]) {
      StepCalls(c, phase, ids, 0, e);
    } else {
      StepsCalls(c, phase, ids[1..], e);
      assert forall x :: x in ids[1..] ==> x in ids;
    }
  }

  lemma SliceLeft(a: seq<Effect>, b: seq<Effect>, i: int, k: int)
    requires 0 <= i <= k <= |a|
    ensures (a + b)[i..k] == a[i..k]
  {
  }

  lemma SliceRight(a: seq<Effect>, b: seq<Effect>, i: int, k: int)
    requires 0 <= i <= k <= |b|
    ensures (a + b)[|a| + i..|a| + k] == b[i..k]
  {
  }

  // ---------------------------------------------------------------------
  // Order of the calls

  /**
   * commit: first one two-call block per added id, in visiting order; then
   * the partition-count re-partition when the count changed; then one block
   * per removed id. With no membership change and an unchanged count it
   * makes no call at all.
   */
  lemma CommitPlanLayout(c: Context, nodeAdd: seq<int>, nodeRemove: seq<int>)
    ensures var p, d := CommitPlan(c, nodeAdd, nodeRemove), (if SizeChanged(c) then 1 else 0);
      && |p| == 2 * |nodeAdd| + d + 2 * |nodeRemove|
      && (forall j :: 0 <= j < |nodeAdd| ==> p[2 * j..2 * j + 2] == Step(c, CommitAdd, nodeAdd[j]))
      && (d == 1 ==> p[2 * |nodeAdd|] == RePartition(c.groupNew.topic, c.groupNew.group, c.groupNew.partitions))
      && (forall j :: 0 <= j < |nodeRemove| ==>
            p[2 * |nodeAdd| + d + 2 * j..2 * |nodeAdd| + d + 2 * j + 2] == Step(c, CommitRemove, nodeRemove[j]))
  {
    CommitAddsFirst(c, nodeAdd, nodeRemove);
    CommitRemovesLast(c, nodeAdd, nodeRemove);
  }

  lemma CommitAddsFirst(c: Context, nodeAdd: seq<int>, nodeRemove: seq<int>)
    ensures var p, d := CommitPlan(c, nodeAdd, nodeRemove), (if SizeChanged(c) then 1 else 0);
      && |p| == 2 * |nodeAdd| + d + 2 * |nodeRemove|
      && (forall j :: 0 <= j < |nodeAdd| ==> p[2 * j..2 * j + 2] == Step(c, CommitAdd, nodeAdd[j]))
  {
    var gn := c.groupNew;
    var adds, removes := Steps(c, CommitAdd, nodeAdd), Steps(c, CommitRemove, nodeRemove);
    var check := if SizeChanged(c) then [RePartition(gn.topic, gn.group, gn.partitions)] else [];
    var p := adds + check + removes;
    assert p == adds + (check + removes);
    forall j | 0 <= j < |nodeAdd| ensures p[2 * j..2 * j + 2] == Step(c, CommitAdd, nodeAdd[j]) {
      LeftBlock(c, CommitAdd, nodeAdd, check + removes, j);
    }
  }

  lemma CommitRemovesLast(c: Context, nodeAdd: seq<int>, nodeRemove: seq<int>)
    ensures var p, d := CommitPlan(c, nodeAdd, nodeRemove), (if SizeChanged(c) then 1 else 0);
      && |p| == 2 * |nodeAdd| + d + 2 * |nodeRemove|
      && (d == 1 ==> p[2 * |nodeAdd|] == RePartition(c.groupNew.topic, c.groupNew.group, c.groupNew.partitions))
      && (forall j :: 0 <= j < |nodeRemove| ==>
            p[2 * |nodeAdd| + d + 2 * j..2 * |nodeAdd| + d + 2 * j + 2] == Step(c, CommitRemove, nodeRemove[j]))
  {
    CommitCheckMiddle(c, nodeAdd, nodeRemove);
    var gn := c.groupNew;
    var adds, removes := Steps(c, CommitAdd, nodeAdd), Steps(c, CommitRemove, nodeRemove);
    var check := if SizeChanged(c) then [RePartition(gn.topic, gn.group, gn.partitions)] else [];
    var d := if SizeChanged(c) then 1 else 0;
    forall j | 0 <= j < |nodeRemove|
      ensures (adds + check + removes)[2 * |nodeAdd| + d + 2 * j..2 * |nodeAdd| + d + 2 * j + 2]
           == Step(c, CommitRemove, nodeRemove[j])
    {
      RightBlock(c, CommitRemove, nodeRemove, adds + check, 2 * |nodeAdd| + d, j);
    }
  }

  lemma CommitCheckMiddle(c: Context, nodeAdd: seq<int>, nodeRemove: seq<int>)
    ensures var p, d := CommitPlan(c, nodeAdd, nodeRemove), (if SizeChanged(c) then 1 else 0);
      && |Steps(c, CommitAdd, nodeAdd)| == 2 * |nodeAdd|
      && |p| == 2 * |nodeAdd| + d + 2 * |nodeRemove|
      && (d == 1 ==> p[2 * |nodeAdd|] == RePartition(c.groupNew.topic, c.groupNew.group, c.groupNew.partitions))
  {
    var gn := c.groupNew;
    var adds, removes := Steps(c, CommitAdd, nodeAdd), Steps(c, CommitRemove, nodeRemove);
    var check := if SizeChanged(c) then [RePartition(gn.topic, gn.group, gn.partitions)] else [];
    if SizeChanged(c) {
      assert (adds + check + removes)[|adds|] == (adds + check)[|adds|];
    }
  }

  /**
   * rollback: first one block per added id (undoing it), then one block per
   * removed id (restoring it), and last the partition-count re-partition
   * when the count changed.
   */
  lemma RollbackPlanLayout(c: Context, nodeAdd: seq<int>, nodeRemove: seq<int>)
    ensures var p, d := RollbackPlan(c, nodeAdd, nodeRemove), (if SizeChanged(c) then 1 else 0);
      && |p| == 2 * |nodeAdd| + 2 * |nodeRemove| + d
      && (forall j :: 0 <= j < |nodeAdd| ==> p[2 * j..2 * j + 2] == Step(c, UndoAdd, nodeAdd[j]))
      && (forall j :: 0 <= j < |nodeRemove| ==>
            p[2 * |nodeAdd| + 2 * j..2 * |nodeAdd| + 2 * j + 2] == Step(c, Restore(c.groupNew), nodeRemove[j]))
      && (d == 1 ==> p[|p| - 1] == RePartition(c.groupNew.topic, c.groupOld.group, c.groupOld.partitions))
  {
    RollbackUndosFirst(c, nodeAdd, nodeRemove);
    RollbackRestoresNext(c, nodeAdd, nodeRemove);
  }

  lemma RollbackUndosFirst(c: Context, nodeAdd: seq<int>, nodeRemove: seq<int>)
    ensures var p, d := RollbackPlan(c, nodeAdd, nodeRemove), (if SizeChanged(c) then 1 else 0);
      && |p| == 2 * |nodeAdd| + 2 * |nodeRemove| + d
      && (forall j :: 0 <= j < |nodeAdd| ==> p[2 * j..2 * j + 2] == Step(c, UndoAdd, nodeAdd[j]))
      && (d == 1 ==> p[|p| - 1] == RePartition(c.groupNew.topic, c.groupOld.group, c.groupOld.partitions))
  {
    var undos, restores := Steps(c, UndoAdd, nodeAdd), Steps(c, Restore(c.groupNew), nodeRemove);
    var check := if SizeChanged(c) then [RePartition(c.groupNew.topic, c.groupOld.group, c.groupOld.partitions)] else [];
    assert undos + restores + check == undos + (restores + check);
    forall j | 0 <= j < |nodeAdd| {
      LeftBlock(c, UndoAdd, nodeAdd, restores + check, j);
    }
  }

  lemma RollbackRestoresNext(c: Context, nodeAdd: seq<int>, nodeRemove: seq<int>)
    ensures var p := RollbackPlan(c, nodeAdd, nodeRemove);
      forall j :: 0 <= j < |nodeRemove| ==>
        2 * |nodeAdd| + 2 * j + 2 <= |p| &&
        p[2 * |nodeAdd| + 2 * j..2 * |nodeAdd| + 2 * j + 2] == Step(c, Restore(c.groupNew), nodeRemove[j])
  {
    var undos, restores := Steps(c, UndoAdd, nodeAdd), Steps(c, Restore(c.groupNew), nodeRemove);
    var check := if SizeChanged(c) then [RePartition(c.groupNew.topic, c.groupOld.group, c.groupOld.partitions)] else [];
    forall j | 0 <= j < |nodeRemove|
      ensures 2 * |nodeAdd| + 2 * j + 2 <= |undos + restores + check|
      ensures (undos + restores + check)[2 * |nodeAdd| + 2 * j..2 * |nodeAdd| + 2 * j + 2]
           == Step(c, Restore(c.groupNew), nodeRemove[j])
    {
      RightBlock(c, Restore(c.groupNew), nodeRemove, undos, 2 * |nodeAdd|, j);
      SliceLeft(undos + restores, check, 2 * |nodeAdd| + 2 * j, 2 * |nodeAdd| + 2 * j + 2);
    }
  }

  /** Block `j` of a loop that opens a call sequence. */
  lemma LeftBlock(c: Context, phase: Phase, ids: seq<int>, after: seq<Effect>, j: int)
    requires 0 <= j < |ids|
    ensures 2 * j + 2 <= |Steps(c, phase, ids) + after|
    ensures (Steps(c, phase, ids) + after)[2 * j..2 * j + 2] == Step(c, phase, ids[j])
  {
    StepsAt(c, phase, ids, j);
    SliceLeft(Steps(c, phase, ids), after, 2 * j, 2 * j + 2);
  }

  /** Block `j` of a loop that comes after the calls `before`, which number `o`. */
  lemma RightBlock(c: Context, phase: Phase, ids: seq<int>, before: seq<Effect>, o: int, j: int)
    requires 0 <= j < |ids| && o == |before|
    ensures o + 2 * j + 2 <= |before + Steps(c, phase, ids)|
    ensures (before + Steps(c, phase, ids))[o + 2 * j..o + 2 * j + 2] == Step(c, phase, ids[j])
  {
    StepsAt(c, phase, ids, j);
    SliceRight(before, Steps(c, phase, ids), 2 * j, 2 * j + 2);
  }

  // ---------------------------------------------------------------------
  // Branches and partition lists

  /**
   * commit, per added id: the local broker gets its storage created with the
   * new partitions and then the group-created hook (never the node-added
   * hook); another broker gets the node-added hook and then a re-partition to
   * the new partitions (never a storage creation).
   */
  lemma CommitAddBranch(c: Context, nodeAdd: seq<int>, nodeRemove: seq<int>, j: int)
    requires 0 <= j < |nodeAdd|
    ensures var gn, p := c.groupNew, CommitPlan(c, nodeAdd, nodeRemove);
      && 2 * j + 1 < |p|
      && (nodeAdd[j] == c.local ==>
            && p[2 * j] == CreatePartitionGroup(gn.topic, gn.group, gn.partitions)
            && p[2 * j + 1] == OnPartitionGroupCreate(gn.electType, gn.topic, gn.group,
                 BrokerList(c.directory, gn.replicas), gn.learners, c.local, gn.leader))
      && (nodeAdd[j] != c.local ==>
            && p[2 * j] == OnNodeAdd(gn.topic, gn.group, gn.electType, BrokerList(c.directory, gn.replicas),
                 gn.learners, Lookup(c.directory, nodeAdd[j]), c.local, gn.leader)
            && p[2 * j + 1] == RePartition(gn.topic, gn.group, gn.partitions))
  {
    var p := CommitPlan(c, nodeAdd, nodeRemove);
    CommitPlanLayout(c, nodeAdd, nodeRemove);
    assert p[2 * j] == p[2 * j..2 * j + 2][0] && p[2 * j + 1] == p[2 * j..2 * j + 2][1];
  }

  /**
   * commit, per removed id: the local broker gets its storage removed and
   * then the group-removed hook; another broker gets the node-removed hook and
   * then a re-partition to the new partitions.
   */
  lemma CommitRemoveBranch(c: Context, nodeAdd: seq<int>, nodeRemove: seq<int>, j: int)
    requires 0 <= j < |nodeRemove|
    ensures var gn, p := c.groupNew, CommitPlan(c, nodeAdd, nodeRemove);
      var o := 2 * |nodeAdd| + (if SizeChanged(c) then 1 else 0) + 2 * j;
      && o + 1 < |p|
      && (nodeRemove[j] == c.local ==>
            && p[o] == RemovePartitionGroup(gn.topic, gn.group)
            && p[o + 1] == OnPartitionGroupRemove(gn.topic, gn.group))
      && (nodeRemove[j] != c.local ==>
            && p[o] == OnNodeRemove(gn.topic, gn.group, nodeRemove[j], c.local)
            && p[o + 1] == RePartition(gn.topic, gn.group, gn.partitions))
  {
    var p := CommitPlan(c, nodeAdd, nodeRemove);
    var o := 2 * |nodeAdd| + (if SizeChanged(c) then 1 else 0) + 2 * j;
    CommitPlanLayout(c, nodeAdd, nodeRemove);
    assert p[o] == p[o..o + 2][0] && p[o + 1] == p[o..o + 2][1];
  }

  /**
   * rollback, per added id: the local broker gets its storage removed and
   * then the group-removed hook; another broker gets the node-removed hook
   * and then a re-partition of the old group to the old partitions.
   */
  lemma RollbackUndoBranch(c: Context, nodeAdd: seq<int>, nodeRemove: seq<int>, j: int)
    requires 0 <= j < |nodeAdd|
    ensures var gn, go, p := c.groupNew, c.groupOld, RollbackPlan(c, nodeAdd, nodeRemove);
      && 2 * j + 1 < |p|
      && (nodeAdd[j] == c.local ==>
            && p[2 * j] == RemovePartitionGroup(gn.topic, gn.group)
            && p[2 * j + 1] == OnPartitionGroupRemove(gn.topic, gn.group))
      && (nodeAdd[j] != c.local ==>
            && p[2 * j] == OnNodeRemove(gn.topic, gn.group, nodeAdd[j], c.local)
            && p[2 * j + 1] == RePartition(go.topic, go.group, go.partitions))
  {
    var p := RollbackPlan(c, nodeAdd, nodeRemove);
    RollbackUndosFirst(c, nodeAdd, nodeRemove);
    assert p[2 * j] == p[2 * j..2 * j + 2][0] && p[2 * j + 1] == p[2 * j..2 * j + 2][1];
  }

  /**
   * rollback, per removed id: the local broker gets its storage created with
   * the NEW partitions and then the group-created hook handed the brokers of
   * the new replicas; another broker gets the node-added hook and then a
   * re-partition of the old group to the old partitions.
   */
  lemma RollbackRestoreBranch(c: Context, nodeAdd: seq<int>, nodeRemove: seq<int>, j: int)
    requires 0 <= j < |nodeRemove|
    ensures var gn, go, p := c.groupNew, c.groupOld, RollbackPlan(c, nodeAdd, nodeRemove);
      var o := 2 * |nodeAdd| + 2 * j;
      && o + 1 < |p|
      && (nodeRemove[j] == c.local ==>
            && p[o] == CreatePartitionGroup(gn.topic, gn.group, gn.partitions)
            && p[o + 1] == OnPartitionGroupCreate(gn.electType, gn.topic, gn.group,
                 BrokerList(c.directory, gn.replicas), gn.learners, c.local, gn.leader))
      && (nodeRemove[j] != c.local ==>
            && p[o] == OnNodeAdd(gn.topic, gn.group, gn.electType, BrokerList(c.directory, gn.replicas),
                 gn.learners, Lookup(c.directory, nodeRemove[j]), c.local, gn.leader)
            && p[o + 1] == RePartition(go.topic, go.group, go.partitions))
  {
    var p := RollbackPlan(c, nodeAdd, nodeRemove);
    var o := 2 * |nodeAdd| + 2 * j;
    RollbackRestoresNext(c, nodeAdd, nodeRemove);
    assert p[o] == p[o..o + 2][0] && p[o + 1] == p[o..o + 2][1];
  }

  /**
   * commit: every storage creation and every re-partition carries the new
   * partition list; storage is created exactly when the local id was added
   * and removed exactly when the local id was removed.
   */
  lemma CommitStorageCalls(c: Context, nodeAdd: seq<int>, nodeRemove: seq<int>)
    ensures var gn, p := c.groupNew, CommitPlan(c, nodeAdd, nodeRemove);
      && (forall e :: e in p && e.CreatePartitionGroup? ==> e.partitions == gn.partitions)
      && (forall e :: e in p && e.RePartition? ==> e.partitions == gn.partitions)
      && ((exists e :: e in p && e.CreatePartitionGroup?) <==> c.local in nodeAdd)
      && ((exists e :: e in p && e.RemovePartitionGroup?) <==> c.local in nodeRemove)
  {
    var gn, p := c.groupNew, CommitPlan(c, nodeAdd, nodeRemove);
    var adds, removes := Steps(c, CommitAdd, nodeAdd), Steps(c, CommitRemove, nodeRemove);
    forall e | e in p
      ensures e.CreatePartitionGroup? ==> e.partitions == gn.partitions && c.local in nodeAdd
      ensures e.RePartition? ==> e.partitions == gn.partitions
      ensures e.RemovePartitionGroup? ==> c.local in nodeRemove
    {
      if e in adds {
        StepsCalls(c, CommitAdd, nodeAdd, e);
      } else if e in removes {
        StepsCalls(c, CommitRemove, nodeRemove, e);
      }
    }
    if c.local in nodeAdd {
      var j :| 0 <= j < |nodeAdd| && nodeAdd[j] == c.local;
      CommitAddBranch(c, nodeAdd, nodeRemove, j);
      assert p[2 * j] in p;
    }
    if c.local in nodeRemove {
      var j :| 0 <= j < |nodeRemove| && nodeRemove[j] == c.local;
      CommitRemoveBranch(c, nodeAdd, nodeRemove, j);
      var o := 2 * |nodeAdd| + (if SizeChanged(c) then 1 else 0) + 2 * j;
      assert p[o] in p;
    }
  }

  /**
   * rollback: every re-partition carries the old partition list; storage is
   * removed only when undoing the local broker's addition, and created only
   * when restoring the local broker, with the new snapshot's partition list.
   */
  lemma RollbackStorageCalls(c: Context, nodeAdd: seq<int>, nodeRemove: seq<int>)
    ensures var p := RollbackPlan(c, nodeAdd, nodeRemove);
      && (forall e :: e in p && e.RePartition? ==> e.partitions == c.groupOld.partitions)
      && (forall e :: e in p && e.CreatePartitionGroup? ==>
            e.partitions == c.groupNew.partitions && c.local in nodeRemove)
      && (forall e :: e in p && e.RemovePartitionGroup? ==> c.local in nodeAdd)
  {
    var p := RollbackPlan(c, nodeAdd, nodeRemove);
    var undos, restores := Steps(c, UndoAdd, nodeAdd), Steps(c, Restore(c.groupNew), nodeRemove);
    forall e | e in p
      ensures e.RePartition? ==> e.partitions == c.groupOld.partitions
      ensures e.CreatePartitionGroup? ==> e.partitions == c.groupNew.partitions && c.local in nodeRemove
      ensures e.RemovePartitionGroup? ==> c.local in nodeAdd
    {
      if e in undos {
        StepsCalls(c, UndoAdd, nodeAdd, e);
      } else if e in restores {
        StepsCalls(c, Restore(c.groupNew), nodeRemove, e);
      }
    }
  }

  // ---------------------------------------------------------------------
  // How many calls of each kind

  /** The kinds of the two calls of one iteration, for the local broker or for another one. */
  function StepKinds(phase: Phase, isLocal: bool): set<Kind> {
    match phase
    case CommitAdd => if isLocal then {CreateKind, GroupCreateKind} else {NodeAddKind, RePartitionKind}
    case Restore(_) => if isLocal then {CreateKind, GroupCreateKind} else {NodeAddKind, RePartitionKind}
    case CommitRemove => if isLocal then {RemoveKind, GroupRemoveKind} else {NodeRemoveKind, RePartitionKind}
    case UndoAdd => if isLocal then {RemoveKind, GroupRemoveKind} else {NodeRemoveKind, RePartitionKind}
  }

  /** How often `x` occurs in `ids`. */
  function Occurrences(ids: seq<int>, x: int): nat
    decreases |ids|
  {
    if ids == [] then 0 else (if ids[0] == x then 1 else 0) + Occurrences(ids[1..], x)
  }

  lemma {:induction false} OccurrencesBound(ids: seq<int>, x: int)
    ensures Occurrences(ids, x) <= |ids|
    decreases |ids|
  {
    if ids != [] { OccurrencesBound(ids[1..], x); }
  }

  lemma StepKindsOf(c: Context, phase: Phase, id: int)
    ensures var s := Step(c, phase, id);
      |s| == 2 && KindOf(s[0]) != KindOf(s[1]) && StepKinds(phase, id == c.local) == {KindOf(s[0]), KindOf(s[1])}
  {
  }

  /** One iteration makes one call of each kind of its branch. */
  lemma StepCount(c: Context, phase: Phase, id: int, k: Kind)
    ensures Count(Step(c, phase, id), k) == if k in StepKinds(phase, id == c.local) then 1 else 0
  {
    var s := Step(c, phase, id);
    StepKindsOf(c, phase, id);
    assert Count(s, k) == (if KindOf(s[0]) == k then 1 else 0) + Count(s[1..], k);
    assert Count(s[1..], k) == (if KindOf(s[1]) == k then 1 else 0) + Count(s[1..][1..], k);
    assert s[1..][1..] == [];
  }

  /**
   * A loop makes one call of kind `k` per local iteration when `k` is a kind
   * of the local branch, and one per remote iteration when it is a kind of
   * the remote branch.
   */
  lemma {:induction false} StepsCount(c: Context, phase: Phase, ids: seq<int>, k: Kind)
    ensures Occurrences(ids, c.local) <= |ids|
    ensures Count(Steps(c, phase, ids), k)
         == (if k in StepKinds(phase, true) then Occurrences(ids, c.local) else 0)
          + (if k in StepKinds(phase, false) then |ids| - Occurrences(ids, c.local) else 0)
    decreases |ids|
  {
    OccurrencesBound(ids, c.local);
    if ids != [] {
      StepsCount(c, phase, ids[1..], k);
      CountAppend(Step(c, phase, ids[0]), Steps(c, phase, ids[1..]), k);
      StepCount(c, phase, ids[0], k);
    }
  }

  lemma {:induction false} OccurrencesOfDistinct(ids: seq<int>, x: int)
    requires StrictlyAscending(ids)
    ensures Occurrences(ids, x) == (if x in Elems(ids) then 1 else 0)
    decreases |ids|
  {
    if ids != [] {
      HeadIsLeast(ids);
      OccurrencesOfDistinct(ids[1..], x);
      assert x in Elems(ids) <==> x == ids[0] || x in Elems(ids[1..]);
    }
  }

  /** In a TreeSet listing, the ids other than `x` are as many as the set without `x`. */
  lemma RemoteIsSetSize(ids: seq<int>, x: int)
    requires StrictlyAscending(ids)
    ensures Remote(ids, x) == |Elems(ids) - {x}|
  {
    ListingSize(ids);
    if x in ids {
      CardWithout(Elems(ids), x);
    } else {
      assert Elems(ids) - {x} == Elems(ids);
    }
  }

  /**
   * How many ids of a TreeSet listing are not the local id. Each id is
   * listed once, so this is the size of the set without the local id
   * (RemoteIsSetSize).
   */
  function Remote(ids: seq<int>, local: int): int {
    |ids| - (if local in ids then 1 else 0)
  }

  /** A loop over a TreeSet listing: the local branch's calls once if the local id is listed, the remote branch's once per other id. */
  lemma LoopCount(c: Context, phase: Phase, ids: seq<int>, k: Kind)
    requires StrictlyAscending(ids)
    ensures Count(Steps(c, phase, ids), k)
         == (if k in StepKinds(phase, true) && c.local in ids then 1 else 0)
          + (if k in StepKinds(phase, false) then Remote(ids, c.local) else 0)
  {
    StepsCount(c, phase, ids, k);
    OccurrencesOfDistinct(ids, c.local);
  }

  /** Calls of kind `k` in a whole commit, per loop. */
  lemma CommitCount(c: Context, nodeAdd: seq<int>, nodeRemove: seq<int>, k: Kind)
    requires StrictlyAscending(nodeAdd) && StrictlyAscending(nodeRemove)
    ensures Count(CommitPlan(c, nodeAdd, nodeRemove), k)
         == (if k in StepKinds(CommitAdd, true) && c.local in nodeAdd then 1 else 0)
          + (if k in StepKinds(CommitAdd, false) then Remote(nodeAdd, c.local) else 0)
          + (if k == RePartitionKind && SizeChanged(c) then 1 else 0)
          + (if k in StepKinds(CommitRemove, true) && c.local in nodeRemove then 1 else 0)
          + (if k in StepKinds(CommitRemove, false) then Remote(nodeRemove, c.local) else 0)
  {
    var gn := c.groupNew;
    var adds, removes := Steps(c, CommitAdd, nodeAdd), Steps(c, CommitRemove, nodeRemove);
    var check := if SizeChanged(c) then [RePartition(gn.topic, gn.group, gn.partitions)] else [];
    CountAppend(adds, check, k);
    CountAppend(adds + check, removes, k);
    LoopCount(c, CommitAdd, nodeAdd, k);
    LoopCount(c, CommitRemove, nodeRemove, k);
    if SizeChanged(c) {
      assert check[1..] == [];
    }
  }

  /** Calls of kind `k` in a whole rollback, per loop. */
  lemma RollbackCount(c: Context, nodeAdd: seq<int>, nodeRemove: seq<int>, k: Kind)
    requires StrictlyAscending(nodeAdd) && StrictlyAscending(nodeRemove)
    ensures Count(RollbackPlan(c, nodeAdd, nodeRemove), k)
         == (if k in StepKinds(UndoAdd, true) && c.local in nodeAdd then 1 else 0)
          + (if k in StepKinds(UndoAdd, false) then Remote(nodeAdd, c.local) else 0)
          + (if k in StepKinds(Restore(c.groupNew), true) && c.local in nodeRemove then 1 else 0)
          + (if k in StepKinds(Restore(c.groupNew), false) then Remote(nodeRemove, c.local) else 0)
          + (if k == RePartitionKind && SizeChanged(c) then 1 else 0)
  {
    var undos, restores := Steps(c, UndoAdd, nodeAdd), Steps(c, Restore(c.groupNew), nodeRemove);
    var check := if SizeChanged(c)
      then [RePartition(c.groupNew.topic, c.groupOld.group, c.groupOld.partitions)] else [];
    CountAppend(undos, restores, k);
    CountAppend(undos + restores, check, k);
    LoopCount(c, UndoAdd, nodeAdd, k);
    LoopCount(c, Restore(c.groupNew), nodeRemove, k);
    if SizeChanged(c) {
      assert check[1..] == [];
    }
  }

  /**
   * commit with TreeSet-ordered diffs makes one re-partition per remote
   * added id and per remote removed id, plus one when the partition count
   * changed; one node-added hook per remote added id and one node-removed
   * hook per remote removed id.
   */
  lemma CommitRemoteCounts(c: Context, nodeAdd: seq<int>, nodeRemove: seq<int>)
    requires StrictlyAscending(nodeAdd) && StrictlyAscending(nodeRemove)
    ensures var p, local := CommitPlan(c, nodeAdd, nodeRemove), c.local;
      && Count(p, RePartitionKind)
         == Remote(nodeAdd, local) + Remote(nodeRemove, local) + (if SizeChanged(c) then 1 else 0)
      && Count(p, NodeAddKind) == Remote(nodeAdd, local)
      && Count(p, NodeRemoveKind) == Remote(nodeRemove, local)
  {
    CommitCount(c, nodeAdd, nodeRemove, RePartitionKind);
    CommitCount(c, nodeAdd, nodeRemove, NodeAddKind);
    CommitCount(c, nodeAdd, nodeRemove, NodeRemoveKind);
  }

  /**
   * commit with TreeSet-ordered diffs makes a storage creation and a
   * group-created hook exactly when the local id was added, and a storage
   * removal and a group-removed hook exactly when it was removed; once each.
   */
  lemma CommitLocalCounts(c: Context, nodeAdd: seq<int>, nodeRemove: seq<int>)
    requires StrictlyAscending(nodeAdd) && StrictlyAscending(nodeRemove)
    ensures var p, local := CommitPlan(c, nodeAdd, nodeRemove), c.local;
      && Count(p, CreateKind) == Count(p, GroupCreateKind) == (if local in nodeAdd then 1 else 0)
      && Count(p, RemoveKind) == Count(p, GroupRemoveKind) == (if local in nodeRemove then 1 else 0)
  {
    CommitCount(c, nodeAdd, nodeRemove, CreateKind);
    CommitCount(c, nodeAdd, nodeRemove, GroupCreateKind);
    CommitCount(c, nodeAdd, nodeRemove, RemoveKind);
    CommitCount(c, nodeAdd, nodeRemove, GroupRemoveKind);
  }

  /**
   * rollback with TreeSet-ordered diffs makes as many re-partitions as
   * commit: one per remote added id, one per remote removed id, and one when
   * the partition count changed; a node-removed hook per remote added id and
   * a node-added hook per remote removed id.
   */
  lemma RollbackRemoteCounts(c: Context, nodeAdd: seq<int>, nodeRemove: seq<int>)
    requires StrictlyAscending(nodeAdd) && StrictlyAscending(nodeRemove)
    ensures var p, local := RollbackPlan(c, nodeAdd, nodeRemove), c.local;
      && Count(p, RePartitionKind)
         == Remote(nodeAdd, local) + Remote(nodeRemove, local) + (if SizeChanged(c) then 1 else 0)
      && Count(p, NodeRemoveKind) == Remote(nodeAdd, local)
      && Count(p, NodeAddKind) == Remote(nodeRemove, local)
  {
    RollbackCount(c, nodeAdd, nodeRemove, RePartitionKind);
    RollbackCount(c, nodeAdd, nodeRemove, NodeAddKind);
    RollbackCount(c, nodeAdd, nodeRemove, NodeRemoveKind);
  }

  /**
   * rollback with TreeSet-ordered diffs makes a storage removal and a
   * group-removed hook exactly when the local id was added, and a storage
   * creation and a group-created hook exactly when it was removed; once each.
   */
  lemma RollbackLocalCounts(c: Context, nodeAdd: seq<int>, nodeRemove: seq<int>)
    requires StrictlyAscending(nodeAdd) && StrictlyAscending(nodeRemove)
    ensures var p, local := RollbackPlan(c, nodeAdd, nodeRemove), c.local;
      && Count(p, RemoveKind) == Count(p, GroupRemoveKind) == (if local in nodeAdd then 1 else 0)
      && Count(p, CreateKind) == Count(p, GroupCreateKind) == (if local in nodeRemove then 1 else 0)
  {
    RollbackCount(c, nodeAdd, nodeRemove, CreateKind);
    RollbackCount(c, nodeAdd, nodeRemove, GroupCreateKind);
    RollbackCount(c, nodeAdd, nodeRemove, RemoveKind);
    RollbackCount(c, nodeAdd, nodeRemove, GroupRemoveKind);
  }
}

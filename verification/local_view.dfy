/**
 * The local broker's view of the partition group being changed: whether its
 * storage exists and with which partition list, and which replica set its
 * election instance tracks. Interpreting the calls of commit and rollback
 * on this view answers whether a rollback undoes the commit before it.
 *
 * The interpretation of each call is an abstraction of the store and
 * election services (whose code is not part of this model): creating
 * storage sets its partition list, removing it drops it, a re-partition
 * replaces the list of existing storage; the group-created hook starts
 * tracking the ids of the brokers it is handed, the group-removed hook stops
 * tracking, and the node hooks add or drop one id of a tracked set. On a
 * broker without storage (or without an election instance) a re-partition
 * (or a node hook) is taken to change nothing; the round-trip lemmas below
 * rest on that choice.
 */
module LocalView {
  import opened Domain
  import opened TreeSets
  import opened Plans

  datatype View = View(storage: Option<seq<int>>, members: Option<set<int>>)

  /** Neither storage nor an election instance for the group. */
  const Absent := View(None, None)

  /** The ids of the brokers a broker list resolved. */
  function IdsOf(brokers: seq<Option<Broker>>): set<int> {
    set b | b in brokers && b.Some? :: b.value.id
  }

  function Apply(v: View, e: Effect): View {
    match e
    case CreatePartitionGroup(_, _, parts) => v.(storage := Some(parts))
    case RemovePartitionGroup(_, _) => v.(storage := None)
    case RePartition(_, _, parts) => if v.storage.Some? then v.(storage := Some(parts)) else v
    case OnPartitionGroupCreate(_, _, _, brokers, _, _, _) => v.(members := Some(IdsOf(brokers)))
    case OnPartitionGroupRemove(_, _) => v.(members := None)
    case OnNodeAdd(_, _, _, _, _, broker, _, _) =>
      if v.members.Some? && broker.Some? then v.(members := Some(v.members.value + {broker.value.id})) else v
    case OnNodeRemove(_, _, id, _) =>
      if v.members.Some? then v.(members := Some(v.members.value - {id})) else v
  }

  function ApplyAll(v: View, p: seq<Effect>): View
    decreases |p|
  {
    if p == [] then v else ApplyAll(Apply(v, p[0]), p[1..])
  }

  /** The view of a broker that is in step with snapshot `g`. */
  function InStep(g: PartitionGroup, local: int): View {
    if local in g.replicas then View(Some(g.partitions), Some(Elems(g.replicas))) else Absent
  }

  /** The directory resolves every id of `ids` to a broker carrying that id. */
  predicate Knows(directory: map<int, Broker>, ids: set<int>) {
    forall id :: id in ids ==> id in directory && directory[id].id == id
  }

  /** `nodeAdd` and `nodeRemove` hold the ids of the membership diff (in any order). */
  predicate IsDiff(c: Context, nodeAdd: seq<int>, nodeRemove: seq<int>) {
    && Elems(nodeAdd) == Elems(c.groupNew.replicas) - Elems(c.groupOld.replicas)
    && Elems(nodeRemove) == Elems(c.groupOld.replicas) - Elems(c.groupNew.replicas)
  }

  // ---------------------------------------------------------------------
  // Helpers

  lemma {:induction false} ApplyAllAppend(v: View, p: seq<Effect>, q: seq<Effect>)
    ensures ApplyAll(v, p + q) == ApplyAll(ApplyAll(v, p), q)
    decreases |p|
  {
    if p == [] {
      assert p + q == q;
    } else {
      assert (p + q)[0] == p[0] && (p + q)[1..] == p[1..] + q;
      ApplyAllAppend(Apply(v, p[0]), p[1..], q);
    }
  }

  lemma ApplyPair(v: View, a: Effect, b: Effect)
    ensures ApplyAll(v, [a, b]) == Apply(Apply(v, a), b)
  {
    assert [a, b][0] == a && [a, b][1..] == [b];
    ApplyOne(Apply(v, a), b);
  }

  lemma ApplyOne(v: View, a: Effect)
    ensures ApplyAll(v, [a]) == Apply(v, a)
  {
    assert [a][1..] == [];
  }

  /** One loop iteration: the view after its two calls. */
  lemma ApplySteps(v: View, c: Context, phase: Phase, ids: seq<int>)
    requires ids != []
    ensures ApplyAll(v, Steps(c, phase, ids))
         == ApplyAll(Apply(Apply(v, Step(c, phase, ids[0])[0]), Step(c, phase, ids[0])[1]), Steps(c, phase, ids[1..]))
  {
    var s := Step(c, phase, ids[0]);
    assert s == [s[0], s[1]];
    ApplyAllAppend(v, s, Steps(c, phase, ids[1..]));
    ApplyPair(v, s[0], s[1]);
  }

  lemma BrokerIds(directory: map<int, Broker>, replicas: seq<int>)
    requires Knows(directory, Elems(replicas))
    ensures IdsOf(BrokerList(directory, replicas)) == Elems(replicas)
  {
    var bl := BrokerList(directory, replicas);
    forall x | x in IdsOf(bl) ensures x in Elems(replicas) {
      var b :| b in bl && b.Some? && b.value.id == x;
      var i :| 0 <= i < |bl| && bl[i] == b;
      assert replicas[i] in Elems(replicas);
    }
    forall x | x in Elems(replicas) ensures x in IdsOf(bl) {
      var i :| 0 <= i < |replicas| && replicas[i] == x;
      assert bl[i] == Some(directory[x]) && bl[i] in bl;
    }
  }

  /** A loop whose ids are all remote leaves a broker without the group untouched. */
  lemma {:induction false} AbsentStays(c: Context, phase: Phase, ids: seq<int>)
    requires c.local !in ids
    ensures ApplyAll(Absent, Steps(c, phase, ids)) == Absent
    decreases |ids|
  {
    if ids != [] {
      ApplySteps(Absent, c, phase, ids);
      AbsentStays(c, phase, ids[1..]);
    }
  }

  /** A removing loop (commit's removals, rollback's undoing of additions) that visits the local id leaves nothing. */
  lemma {:induction false} RemovalThroughLocal(v: View, c: Context, phase: Phase, ids: seq<int>)
    requires phase == CommitRemove || phase == UndoAdd
    requires c.local in ids
    ensures ApplyAll(v, Steps(c, phase, ids)) == Absent
    decreases |ids|
  {
    ApplySteps(v, c, phase, ids);
    var w := Apply(Apply(v, Step(c, phase, ids[0])[0]), Step(c, phase, ids[0])[1]);
    if ids[0] == c.local {
      assert w == Absent;
      if c.local in ids[1..] {
        RemovalThroughLocal(w, c, phase, ids[1..]);
      } else {
        AbsentStays(c, phase, ids[1..]);
      }
    } else {
      RemovalThroughLocal(w, c, phase, ids[1..]);
    }
  }

  /** The tracked replica set after remote iterations of `phase` over `ids`. */
  function Track(phase: Phase, members: set<int>, ids: set<int>): set<int> {
    match phase
    case CommitAdd => members + ids
    case Restore(_) => members + ids
    case CommitRemove => members - ids
    case UndoAdd => members - ids
  }

  lemma TrackCompose(phase: Phase, members: set<int>, x: int, rest: set<int>)
    ensures Track(phase, Track(phase, members, {x}), rest) == Track(phase, members, {x} + rest)
  {
  }

  /** One remote iteration on a broker holding the group. */
  lemma RemoteStep(v: View, c: Context, phase: Phase, x: int)
    requires v.storage.Some? && v.members.Some?
    requires x != c.local
    requires x in c.directory && c.directory[x].id == x
    ensures Apply(Apply(v, Step(c, phase, x)[0]), Step(c, phase, x)[1])
         == View(Some(RemoteTarget(c, phase)), Some(Track(phase, v.members.value, {x})))
  {
    assert Lookup(c.directory, x) == Some(c.directory[x]);
  }

  /**
   * On a broker holding the group, a loop over remote ids only adds or drops
   * those ids from the tracked set and, when it runs at least once, leaves
   * the storage at the phase's re-partition target.
   */
  lemma {:induction false} RemoteSteps(v: View, c: Context, phase: Phase, ids: seq<int>)
    requires v.storage.Some? && v.members.Some?
    requires c.local !in ids
    requires Knows(c.directory, Elems(ids))
    ensures ApplyAll(v, Steps(c, phase, ids))
         == View(if ids == [] then v.storage else Some(RemoteTarget(c, phase)),
                 Some(Track(phase, v.members.value, Elems(ids))))
    decreases |ids|
  {
    if ids == [] {
      assert Elems(ids) == {};
      assert Track(phase, v.members.value, {}) == v.members.value;
    } else {
      var x := ids[0];
      ApplySteps(v, c, phase, ids);
      var w := Apply(Apply(v, Step(c, phase, x)[0]), Step(c, phase, x)[1]);
      assert x in Elems(ids);
      RemoteStep(v, c, phase, x);
      assert Elems(ids) == {x} + Elems(ids[1..]);
      RemoteSteps(w, c, phase, ids[1..]);
      TrackCompose(phase, v.members.value, x, Elems(ids[1..]));
    }
  }

  /**
   * What a restore loop leaves once it has visited the local id: storage
   * at either the source's or the old partition list, and a tracked set
   * holding the source's replicas plus at most the other restored ids.
   */
  predicate Restored(c: Context, src: PartitionGroup, all: seq<int>, w: View) {
    && (w.storage == Some(src.partitions) || w.storage == Some(c.groupOld.partitions))
    && w.members.Some?
    && Elems(src.replicas) <= w.members.value <= Elems(src.replicas) + (Elems(all) - {c.local})
  }

  /** One restore iteration keeps a restored view restored. */
  lemma RestoreStepKeeps(w: View, c: Context, src: PartitionGroup, all: seq<int>, x: int)
    requires Restored(c, src, all, w)
    requires x in Elems(all)
    requires Knows(c.directory, Elems(src.replicas) + Elems(all))
    ensures Restored(c, src, all, Apply(Apply(w, Step(c, Restore(src), x)[0]), Step(c, Restore(src), x)[1]))
  {
    if x == c.local {
      BrokerIds(c.directory, src.replicas);
    } else {
      assert Lookup(c.directory, x) == Some(c.directory[x]);
    }
  }

  lemma {:induction false} RestoreKeeps(w: View, c: Context, src: PartitionGroup, all: seq<int>, ids: seq<int>)
    requires Restored(c, src, all, w)
    requires Elems(ids) <= Elems(all)
    requires Knows(c.directory, Elems(src.replicas) + Elems(all))
    ensures Restored(c, src, all, ApplyAll(w, Steps(c, Restore(src), ids)))
    decreases |ids|
  {
    if ids != [] {
      var x := ids[0];
      assert x in Elems(ids);
      ApplySteps(w, c, Restore(src), ids);
      RestoreStepKeeps(w, c, src, all, x);
      var w' := Apply(Apply(w, Step(c, Restore(src), x)[0]), Step(c, Restore(src), x)[1]);
      assert Elems(ids[1..]) <= Elems(ids);
      RestoreKeeps(w', c, src, all, ids[1..]);
    }
  }

  lemma {:induction false} RestoreThroughLocal(v: View, c: Context, src: PartitionGroup, all: seq<int>, ids: seq<int>)
    requires c.local in ids
    requires Elems(ids) <= Elems(all)
    requires Knows(c.directory, Elems(src.replicas) + Elems(all))
    ensures Restored(c, src, all, ApplyAll(v, Steps(c, Restore(src), ids)))
    decreases |ids|
  {
    var x := ids[0];
    ApplySteps(v, c, Restore(src), ids);
    var w := Apply(Apply(v, Step(c, Restore(src), x)[0]), Step(c, Restore(src), x)[1]);
    if x == c.local {
      BrokerIds(c.directory, src.replicas);
      assert Restored(c, src, all, w);
      RestoreKeeps(w, c, src, all, ids[1..]);
    } else {
      RestoreThroughLocal(w, c, src, all, ids[1..]);
    }
  }

  lemma ApplyCheck(v: View, e: Effect, b: bool)
    requires e.RePartition?
    ensures ApplyAll(v, if b then [e] else []) == if b && v.storage.Some? then v.(storage := Some(e.partitions)) else v
  {
    if b { ApplyOne(v, e); }
  }

  /** The view after commit, phase by phase. */
  lemma CommitPhases(v: View, c: Context, nodeAdd: seq<int>, nodeRemove: seq<int>)
    ensures var gn := c.groupNew;
      var c1 := if SizeChanged(c) then [RePartition(gn.topic, gn.group, gn.partitions)] else [];
      ApplyAll(v, CommitPlan(c, nodeAdd, nodeRemove))
      == ApplyAll(ApplyAll(ApplyAll(v, Steps(c, CommitAdd, nodeAdd)), c1), Steps(c, CommitRemove, nodeRemove))
  {
    var gn := c.groupNew;
    var c1 := if SizeChanged(c) then [RePartition(gn.topic, gn.group, gn.partitions)] else [];
    var adds, removes := Steps(c, CommitAdd, nodeAdd), Steps(c, CommitRemove, nodeRemove);
    ApplyAllAppend(v, adds + c1, removes);
    ApplyAllAppend(v, adds, c1);
  }

  /** The view after rollback, phase by phase. */
  lemma RollbackPhases(v: View, c: Context, nodeAdd: seq<int>, nodeRemove: seq<int>, src: PartitionGroup)
    ensures var gn, go := c.groupNew, c.groupOld;
      var c2 := if SizeChanged(c) then [RePartition(gn.topic, go.group, go.partitions)] else [];
      ApplyAll(v, RollbackPlanFrom(c, nodeAdd, nodeRemove, src))
      == ApplyAll(ApplyAll(ApplyAll(v, Steps(c, UndoAdd, nodeAdd)), Steps(c, Restore(src), nodeRemove)), c2)
  {
    var gn, go := c.groupNew, c.groupOld;
    var c2 := if SizeChanged(c) then [RePartition(gn.topic, go.group, go.partitions)] else [];
    var undos, restores := Steps(c, UndoAdd, nodeAdd), Steps(c, Restore(src), nodeRemove);
    ApplyAllAppend(v, undos + restores, c2);
    ApplyAllAppend(v, undos, restores);
  }

  /** The view after commit then rollback, phase by phase. */
  lemma Phases(v: View, c: Context, nodeAdd: seq<int>, nodeRemove: seq<int>, src: PartitionGroup)
    ensures var gn, go := c.groupNew, c.groupOld;
      var c1 := if SizeChanged(c) then [RePartition(gn.topic, gn.group, gn.partitions)] else [];
      var c2 := if SizeChanged(c) then [RePartition(gn.topic, go.group, go.partitions)] else [];
      var v1 := ApplyAll(v, Steps(c, CommitAdd, nodeAdd));
      var v2 := ApplyAll(v1, c1);
      var v3 := ApplyAll(v2, Steps(c, CommitRemove, nodeRemove));
      var v4 := ApplyAll(v3, Steps(c, UndoAdd, nodeAdd));
      var v5 := ApplyAll(v4, Steps(c, Restore(src), nodeRemove));
      && ApplyAll(v, CommitPlan(c, nodeAdd, nodeRemove)) == v3
      && ApplyAll(v3, RollbackPlanFrom(c, nodeAdd, nodeRemove, src)) == ApplyAll(v5, c2)
  {
    CommitPhases(v, c, nodeAdd, nodeRemove);
    RollbackPhases(ApplyAll(v, CommitPlan(c, nodeAdd, nodeRemove)), c, nodeAdd, nodeRemove, src);
  }

  // ---------------------------------------------------------------------
  // Does rollback undo commit?

  /** The restoration claim: commit then rollback leaves a broker in step with the old snapshot where it was. */
  ghost predicate RoundTrip(c: Context, nodeAdd: seq<int>, nodeRemove: seq<int>, src: PartitionGroup) {
    var before := InStep(c.groupOld, c.local);
    ApplyAll(ApplyAll(before, CommitPlan(c, nodeAdd, nodeRemove)), RollbackPlanFrom(c, nodeAdd, nodeRemove, src)) == before
  }

  /** A joining broker: undoing its addition drops everything, and it had nothing before. */
  lemma JoiningRoundTrip(c: Context, nodeAdd: seq<int>, nodeRemove: seq<int>, src: PartitionGroup)
    requires IsDiff(c, nodeAdd, nodeRemove)
    requires c.local in nodeAdd
    ensures RoundTrip(c, nodeAdd, nodeRemove, src)
  {
    var gn, go := c.groupNew, c.groupOld;
    var before := InStep(go, c.local);
    var v3 := ApplyAll(before, CommitPlan(c, nodeAdd, nodeRemove));
    var v5 := ApplyAll(ApplyAll(v3, Steps(c, UndoAdd, nodeAdd)), Steps(c, Restore(src), nodeRemove));
    Phases(before, c, nodeAdd, nodeRemove, src);
    assert c.local in Elems(nodeAdd);
    assert before == Absent;
    assert c.local !in Elems(nodeRemove);
    RemovalThroughLocal(v3, c, UndoAdd, nodeAdd);
    AbsentStays(c, Restore(src), nodeRemove);
    ApplyCheck(v5, RePartition(gn.topic, go.group, go.partitions), SizeChanged(c));
  }

  /** A broker in neither replica set: no iteration touches it. */
  lemma OutsiderRoundTrip(c: Context, nodeAdd: seq<int>, nodeRemove: seq<int>, src: PartitionGroup)
    requires IsDiff(c, nodeAdd, nodeRemove)
    requires c.local !in c.groupOld.replicas && c.local !in c.groupNew.replicas
    ensures RoundTrip(c, nodeAdd, nodeRemove, src)
  {
    var gn, go := c.groupNew, c.groupOld;
    var before := InStep(go, c.local);
    var c1 := if SizeChanged(c) then [RePartition(gn.topic, gn.group, gn.partitions)] else [];
    var v1 := ApplyAll(before, Steps(c, CommitAdd, nodeAdd));
    var v2 := ApplyAll(v1, c1);
    var v3 := ApplyAll(v2, Steps(c, CommitRemove, nodeRemove));
    var v4 := ApplyAll(v3, Steps(c, UndoAdd, nodeAdd));
    var v5 := ApplyAll(v4, Steps(c, Restore(src), nodeRemove));
    Phases(before, c, nodeAdd, nodeRemove, src);
    assert c.local !in Elems(go.replicas) && c.local !in Elems(gn.replicas);
    assert c.local !in Elems(nodeAdd) && c.local !in Elems(nodeRemove);
    AbsentStays(c, CommitAdd, nodeAdd);
    ApplyCheck(v1, RePartition(gn.topic, gn.group, gn.partitions), SizeChanged(c));
    AbsentStays(c, CommitRemove, nodeRemove);
    AbsentStays(c, UndoAdd, nodeAdd);
    AbsentStays(c, Restore(src), nodeRemove);
    ApplyCheck(v5, RePartition(gn.topic, go.group, go.partitions), SizeChanged(c));
  }

  /** Commit on a broker holding the group that is neither added nor removed: remote iterations only. */
  lemma StayingCommit(v: View, c: Context, nodeAdd: seq<int>, nodeRemove: seq<int>)
    requires v.storage.Some? && v.members.Some?
    requires c.local !in nodeAdd && c.local !in nodeRemove
    requires Knows(c.directory, Elems(nodeAdd)) && Knows(c.directory, Elems(nodeRemove))
    ensures ApplyAll(v, CommitPlan(c, nodeAdd, nodeRemove))
         == View(if nodeAdd == [] && nodeRemove == [] && !SizeChanged(c) then v.storage else Some(c.groupNew.partitions),
                 Some(v.members.value + Elems(nodeAdd) - Elems(nodeRemove)))
  {
    var gn := c.groupNew;
    var c1 := if SizeChanged(c) then [RePartition(gn.topic, gn.group, gn.partitions)] else [];
    var v1 := ApplyAll(v, Steps(c, CommitAdd, nodeAdd));
    var v2 := ApplyAll(v1, c1);
    CommitPhases(v, c, nodeAdd, nodeRemove);
    RemoteSteps(v, c, CommitAdd, nodeAdd);
    ApplyCheck(v1, RePartition(gn.topic, gn.group, gn.partitions), SizeChanged(c));
    RemoteSteps(v2, c, CommitRemove, nodeRemove);
  }

  /** Rollback on a broker holding the group that is neither added nor removed: remote iterations only. */
  lemma StayingRollback(v: View, c: Context, nodeAdd: seq<int>, nodeRemove: seq<int>, src: PartitionGroup)
    requires v.storage.Some? && v.members.Some?
    requires c.local !in nodeAdd && c.local !in nodeRemove
    requires Knows(c.directory, Elems(nodeAdd)) && Knows(c.directory, Elems(nodeRemove))
    ensures ApplyAll(v, RollbackPlanFrom(c, nodeAdd, nodeRemove, src))
         == View(if nodeAdd == [] && nodeRemove == [] && !SizeChanged(c) then v.storage else Some(c.groupOld.partitions),
                 Some(v.members.value - Elems(nodeAdd) + Elems(nodeRemove)))
  {
    var gn, go := c.groupNew, c.groupOld;
    var v4 := ApplyAll(v, Steps(c, UndoAdd, nodeAdd));
    var v5 := ApplyAll(v4, Steps(c, Restore(src), nodeRemove));
    RollbackPhases(v, c, nodeAdd, nodeRemove, src);
    RemoteSteps(v, c, UndoAdd, nodeAdd);
    RemoteSteps(v4, c, Restore(src), nodeRemove);
    ApplyCheck(v5, RePartition(gn.topic, go.group, go.partitions), SizeChanged(c));
  }

  /** A broker in both replica sets: it only sees remote iterations, which cancel out. */
  lemma StayingRoundTrip(c: Context, nodeAdd: seq<int>, nodeRemove: seq<int>, src: PartitionGroup)
    requires IsDiff(c, nodeAdd, nodeRemove)
    requires Knows(c.directory, Elems(c.groupNew.replicas) + Elems(c.groupOld.replicas))
    requires c.local in c.groupOld.replicas && c.local in c.groupNew.replicas
    ensures RoundTrip(c, nodeAdd, nodeRemove, src)
  {
    var go := c.groupOld;
    var before := InStep(go, c.local);
    assert c.local in Elems(go.replicas) && c.local in Elems(c.groupNew.replicas);
    assert c.local !in Elems(nodeAdd) && c.local !in Elems(nodeRemove);
    var old_, a, r := Elems(go.replicas), Elems(nodeAdd), Elems(nodeRemove);
    StayingCommit(before, c, nodeAdd, nodeRemove);
    var v3 := ApplyAll(before, CommitPlan(c, nodeAdd, nodeRemove));
    StayingRollback(v3, c, nodeAdd, nodeRemove, src);
    assert old_ + a - r - a + r == old_;
  }

  /**
   * On a broker in step with the old snapshot, commit followed by a rollback
   * restoring from any snapshot `src` returns the view to where it was, as
   * long as the local broker is not among the removed ids.
   */
  lemma CommitThenRollbackRestores(c: Context, nodeAdd: seq<int>, nodeRemove: seq<int>, src: PartitionGroup)
    requires IsDiff(c, nodeAdd, nodeRemove)
    requires Knows(c.directory, Elems(c.groupNew.replicas) + Elems(c.groupOld.replicas))
    requires c.local !in nodeRemove
    ensures var before := InStep(c.groupOld, c.local);
      ApplyAll(ApplyAll(before, CommitPlan(c, nodeAdd, nodeRemove)), RollbackPlanFrom(c, nodeAdd, nodeRemove, src))
      == before
  {
    var gn, go, local := c.groupNew, c.groupOld, c.local;
    assert local in Elems(nodeAdd) <==> local in nodeAdd;
    assert local in Elems(nodeRemove) <==> local in nodeRemove;
    assert local in Elems(go.replicas) <==> local in go.replicas;
    assert local in Elems(gn.replicas) <==> local in gn.replicas;
    if local in nodeAdd {
      JoiningRoundTrip(c, nodeAdd, nodeRemove, src);
    } else if local !in go.replicas {
      OutsiderRoundTrip(c, nodeAdd, nodeRemove, src);
    } else {
      StayingRoundTrip(c, nodeAdd, nodeRemove, src);
    }
  }

  /**
   * As written, rollback restores a local removal from the NEW snapshot: the
   * rebuilt election instance tracks the new replicas, which lack the local
   * broker. So commit followed by rollback returns a broker in step with the
   * old snapshot to that state exactly when the local broker is not among
   * the removed ids.
   */
  lemma RollbackRestoresIff(c: Context, nodeAdd: seq<int>, nodeRemove: seq<int>)
    requires IsDiff(c, nodeAdd, nodeRemove)
    requires Knows(c.directory, Elems(c.groupNew.replicas) + Elems(c.groupOld.replicas))
    ensures var before := InStep(c.groupOld, c.local);
      ApplyAll(ApplyAll(before, CommitPlan(c, nodeAdd, nodeRemove)), RollbackPlan(c, nodeAdd, nodeRemove)) == before
      <==> c.local !in nodeRemove
  {
    var gn, go, local := c.groupNew, c.groupOld, c.local;
    if local in nodeRemove {
      var before := InStep(go, local);
      var c2 := if SizeChanged(c) then [RePartition(gn.topic, go.group, go.partitions)] else [];
      var v3 := ApplyAll(before, CommitPlan(c, nodeAdd, nodeRemove));
      var v4 := ApplyAll(v3, Steps(c, UndoAdd, nodeAdd));
      var v5 := ApplyAll(v4, Steps(c, Restore(gn), nodeRemove));
      Phases(before, c, nodeAdd, nodeRemove, gn);
      assert local in Elems(nodeRemove);
      assert local in go.replicas && local !in gn.replicas;
      assert local !in Elems(gn.replicas);
      RestoreThroughLocal(v4, c, gn, nodeRemove, nodeRemove);
      ApplyCheck(v5, RePartition(gn.topic, go.group, go.partitions), SizeChanged(c));
      assert local !in ApplyAll(v5, c2).members.value;
      assert local in before.members.value;
    } else {
      CommitThenRollbackRestores(c, nodeAdd, nodeRemove, gn);
    }
  }

  /**
   * With the restore loop drawing on the OLD snapshot (its replica list for
   * the group-created hook, its partitions for the storage), commit followed
   * by rollback returns a broker in step with the old snapshot to that state
   * in every case.
   */
  lemma CorrectedRollbackRestores(c: Context, nodeAdd: seq<int>, nodeRemove: seq<int>)
    requires IsDiff(c, nodeAdd, nodeRemove)
    requires Knows(c.directory, Elems(c.groupNew.replicas) + Elems(c.groupOld.replicas))
    ensures var before := InStep(c.groupOld, c.local);
      ApplyAll(ApplyAll(before, CommitPlan(c, nodeAdd, nodeRemove)), RollbackPlanFrom(c, nodeAdd, nodeRemove, c.groupOld))
      == before
  {
    var gn, go, local := c.groupNew, c.groupOld, c.local;
    if local in nodeRemove {
      var before := InStep(go, local);
      var c2 := if SizeChanged(c) then [RePartition(gn.topic, go.group, go.partitions)] else [];
      var v3 := ApplyAll(before, CommitPlan(c, nodeAdd, nodeRemove));
      var v4 := ApplyAll(v3, Steps(c, UndoAdd, nodeAdd));
      var v5 := ApplyAll(v4, Steps(c, Restore(go), nodeRemove));
      Phases(before, c, nodeAdd, nodeRemove, go);
      assert local in Elems(nodeRemove);
      assert local !in Elems(nodeAdd);
      assert local in go.replicas;
      // commit: the removal loop visits the local id and drops everything
      var c1 := if SizeChanged(c) then [RePartition(gn.topic, gn.group, gn.partitions)] else [];
      ApplyAllAppend(before, Steps(c, CommitAdd, nodeAdd) + c1, Steps(c, CommitRemove, nodeRemove));
      RemovalThroughLocal(ApplyAll(before, Steps(c, CommitAdd, nodeAdd) + c1), c, CommitRemove, nodeRemove);
      assert v3 == Absent;
      AbsentStays(c, UndoAdd, nodeAdd);
      RestoreThroughLocal(v4, c, go, nodeRemove, nodeRemove);
      assert Elems(nodeRemove) <= Elems(go.replicas);
      assert v5.storage == Some(go.partitions);
      assert v5.members.value == Elems(go.replicas);
      assert v5 == View(Some(go.partitions), Some(Elems(go.replicas)));
      ApplyCheck(v5, RePartition(gn.topic, go.group, go.partitions), SizeChanged(c));
    } else {
      CommitThenRollbackRestores(c, nodeAdd, nodeRemove, go);
    }
  }
}

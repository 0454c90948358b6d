/**
 * Value types of the partition-group update handler: the partition-group
 * snapshot, brokers, the collaborator calls the handler issues (as an effect
 * log), and the acknowledgement it answers with.
 */
module Domain {

  datatype Option<+T> = None | Some(value: T)

  /** A topic name: its code and its namespace. */
  datatype TopicName = TopicName(code: string, namespace: string)

  /** The consensus variant a partition group uses. */
  datatype ElectType = Raft | Fix

  /** A broker as the cluster directory knows it. */
  datatype Broker = Broker(id: int, ip: string, port: int)

  /**
   * One partition group (a replicated shard of a topic).
   * `replicas` lists the replica broker ids in the order the Java set
   * iterates them; that order only shows in the broker list handed to the
   * election hooks. `partitions` are the partition numbers the group owns.
   */
  datatype PartitionGroup = PartitionGroup(
    topic: TopicName,
    group: int,
    replicas: seq<int>,
    learners: set<int>,
    partitions: seq<int>,
    electType: ElectType,
    leader: int,
    term: int)

  /**
   * One call the handler makes on the store service or the election service.
   * A broker list entry `None` stands for a broker id the cluster directory
   * does not know (the Java lookup yields null).
   */
  datatype Effect =
    // storeService.createPartitionGroup(topic, group, partitions)
    | CreatePartitionGroup(topic: TopicName, group: int, partitions: seq<int>)
    // storeService.removePartitionGroup(topic, group)
    | RemovePartitionGroup(topic: TopicName, group: int)
    // storeService.rePartition(topic, group, partitions)
    | RePartition(topic: TopicName, group: int, partitions: seq<int>)
    // electionService.onPartitionGroupCreate(...)
    | OnPartitionGroupCreate(electType: ElectType, topic: TopicName, group: int,
                             brokers: seq<Option<Broker>>, learners: set<int>,
                             localBrokerId: int, leader: int)
    // electionService.onPartitionGroupRemove(topic, group)
    | OnPartitionGroupRemove(topic: TopicName, group: int)
    // electionService.onNodeAdd(...)
    | OnNodeAdd(topic: TopicName, group: int, electType: ElectType,
                brokers: seq<Option<Broker>>, learners: set<int>,
                broker: Option<Broker>, localBrokerId: int, leader: int)
    // electionService.onNodeRemove(topic, group, brokerId, localBrokerId)
    | OnNodeRemove(topic: TopicName, group: int, brokerId: int, localBrokerId: int)

  /** Which collaborator operation an effect is. */
  datatype Kind =
    | CreateKind | RemoveKind | RePartitionKind
    | GroupCreateKind | GroupRemoveKind | NodeAddKind | NodeRemoveKind

  function KindOf(e: Effect): Kind {
    match e
    case CreatePartitionGroup(_, _, _) => CreateKind
    case RemovePartitionGroup(_, _) => RemoveKind
    case RePartition(_, _, _) => RePartitionKind
    case OnPartitionGroupCreate(_, _, _, _, _, _, _) => GroupCreateKind
    case OnPartitionGroupRemove(_, _) => GroupRemoveKind
    case OnNodeAdd(_, _, _, _, _, _, _, _) => NodeAddKind
    case OnNodeRemove(_, _, _, _) => NodeRemoveKind
  }

  /** Number of calls of kind `k` in `p`. */
  function Count(p: seq<Effect>, k: Kind): nat
    decreases |p|
  {
    if p == [] then 0
    else (if KindOf(p[0]) == k then 1 else 0) + Count(p[1..], k)
  }

  lemma {:induction false} CountAppend(p: seq<Effect>, q: seq<Effect>, k: Kind)
    ensures Count(p + q, k) == Count(p, k) + Count(q, k)
    decreases |p|
  {
    if p == [] {
      assert p + q == q;
    } else {
      assert (p + q)[1..] == p[1..] + q;
      CountAppend(p[1..], q, k);
    }
  }

  /** The error code the handler puts in a failure acknowledgement. */
  datatype Code = CnUnknownError

  /** BooleanAck: success, or failure with a code and the exception's message (null is None). */
  datatype Ack = SuccessAck | FailureAck(code: Code, message: Option<string>)

  /** The payload of an update-partition-group command. */
  datatype Request = Request(partitionGroup: PartitionGroup, rollback: bool)
}

/** The `Topic` aggregate: one record per described partition, with the
    partition's log directories and offsets attached, and the queries the
    UI asks of it (replica counts, sizes, whether records may be deleted). */
module TopicModel {
  import opened Common
  import opened JavaStrings

  /** A replica of a partition: the broker's id and whether it is in sync. */
  datatype Node = Node(id: int, inSync: bool)

  /** A partition as the admin client describes it. */
  datatype PartitionInfo = PartitionInfo(id: int, nodes: seq<Node>)

  /** A topic as the admin client describes it; `internal` is the broker's flag. */
  datatype TopicDescription = TopicDescription(name: string, internal: bool, partitions: seq<PartitionInfo>)

  /** One log-directory entry: the partition it stores and its size in bytes. */
  datatype LogDir = LogDir(partition: int, size: int)

  /** The first and last offset of one partition. */
  datatype Offsets = Offsets(partition: int, firstOffset: int, lastOffset: int)

  /** Consumer groups and ACL entries are carried along, never inspected. */
  datatype ConsumerGroup = ConsumerGroup(id: string)
  datatype AccessControlList = AccessControlList(entry: string)

  /** A topic configuration entry. */
  datatype Config = Config(name: string, value: string)

  /** A partition of the aggregate. */
  datatype Partition = Partition(id: int, nodes: seq<Node>, logDirs: seq<LogDir>, firstOffset: int, lastOffset: int)

  datatype Topic = Topic(
    name: string,
    internal: bool,
    configInternal: bool,
    configStream: bool,
    acls: seq<AccessControlList>,
    partitions: seq<Partition>,
    consumerGroups: seq<ConsumerGroup>)

  /** The exceptions the topic code raises. The first three are all
      `NoSuchElementException` in the source, told apart by their message;
      `OffsetsMissing` is the `NullPointerException` of a topic whose
      offsets list is absent. */
  datatype Error =
    | TopicNotFound(topic: string)
    | PartitionOffsetsNotFound(partition: int, topic: string)
    | PartitionNotFound(partition: int, topic: string)
    | OffsetsMissing(topic: string)

  /** `TopicConfig.CLEANUP_POLICY_CONFIG` and `TopicConfig.CLEANUP_POLICY_COMPACT`. */
  const CleanupPolicyConfig: string := "cleanup.policy"
  const CleanupPolicyCompact: string := "compact"

  // ---------------------------------------------------------------------
  // Construction
  // ---------------------------------------------------------------------

  /** The test "stores partition `p`". */
  function OnPartition(p: int): LogDir -> bool {
    (d: LogDir) => d.partition == p
  }

  /** The log directories of partition `p`, in input order. */
  function LogDirsOf(logDirs: seq<LogDir>, p: int): seq<LogDir> {
    Filter(logDirs, OnPartition(p))
  }

  /** A partition's log directories are exactly the entries on it, each
      with its full multiplicity. */
  lemma LogDirsOfMembers(logDirs: seq<LogDir>, p: int)
    ensures var r := LogDirsOf(logDirs, p);
      && (forall i :: 0 <= i < |r| ==> r[i].partition == p && r[i] in logDirs)
      && (forall i :: 0 <= i < |logDirs| && logDirs[i].partition == p ==> logDirs[i] in r)
      && (forall d: LogDir :: d.partition == p ==> multiset(r)[d] == multiset(logDirs)[d])
  {
    var r := LogDirsOf(logDirs, p);
    FilterMembers(logDirs, OnPartition(p));
    forall d: LogDir | d.partition == p
      ensures multiset(r)[d] == multiset(logDirs)[d]
    {
      FilterMultiset(logDirs, OnPartition(p), d);
    }
  }

  /** Selecting a partition's log directories never reorders them. */
  lemma LogDirsOfConcat(a: seq<LogDir>, b: seq<LogDir>, p: int)
    ensures LogDirsOf(a + b, p) == LogDirsOf(a, p) + LogDirsOf(b, p)
  {
    FilterConcat(a, b, OnPartition(p));
  }

  /** `i` is the first index of an offsets entry for partition `p`. */
  predicate IsFirstFor(offsets: seq<Offsets>, p: int, i: int) {
    0 <= i < |offsets| && offsets[i].partition == p
    && forall j :: 0 <= j < i ==> offsets[j].partition != p
  }

  /** `filter(...).findFirst()` over the offsets list. */
  function FirstOffsets(offsets: seq<Offsets>, p: int): (r: Option<Offsets>)
    ensures r.None? <==> forall i :: 0 <= i < |offsets| ==> offsets[i].partition != p
    ensures r.Some? ==> exists i :: IsFirstFor(offsets, p, i) && offsets[i] == r.value
  {
    if offsets == [] then None
    else if offsets[0].partition == p then
      assert IsFirstFor(offsets, p, 0);
      Some(offsets[0])
    else
      var r := FirstOffsets(offsets[1..], p);
      if r.Some? then
        var i :| IsFirstFor(offsets[1..], p, i) && offsets[1..][i] == r.value;
        assert IsFirstFor(offsets, p, i + 1);
        r
      else
        r
  }

  /** One iteration of the constructor's loop: the partition record, or the
      exception the offsets lookup raises. */
  function PartitionFor(name: string, info: PartitionInfo, logDirs: seq<LogDir>, offsets: Option<seq<Offsets>>): (r: Result<Partition, Error>)
    ensures offsets.None? ==> r == Failure(OffsetsMissing(name))
    ensures offsets.Some? ==>
      (r.Failure? <==> forall i :: 0 <= i < |offsets.value| ==> offsets.value[i].partition != info.id)
    ensures r.Failure? && offsets.Some? ==> r.error == PartitionOffsetsNotFound(info.id, name)
    ensures r.Success? ==>
      && r.value.id == info.id
      && r.value.nodes == info.nodes
      && r.value.logDirs == LogDirsOf(logDirs, info.id)
      && exists i :: IsFirstFor(offsets.value, info.id, i)
           && r.value.firstOffset == offsets.value[i].firstOffset
           && r.value.lastOffset == offsets.value[i].lastOffset
  {
    match offsets
    case None => Failure(OffsetsMissing(name))
    case Some(os) =>
      match FirstOffsets(os, info.id)
      case None => Failure(PartitionOffsetsNotFound(info.id, name))
      case Some(o) => Success(Partition(info.id, info.nodes, LogDirsOf(logDirs, info.id), o.firstOffset, o.lastOffset))
  }

  /** One iteration of the constructor's loop, as a function of the
      described partition. */
  function PartitionOf(name: string, logDirs: seq<LogDir>, offsets: Option<seq<Offsets>>): PartitionInfo -> Result<Partition, Error> {
    (info: PartitionInfo) => PartitionFor(name, info, logDirs, offsets)
  }

  /** The constructor's loop: one partition per described partition, in
      order, stopping at the first exception. */
  function AssemblePartitions(name: string, infos: seq<PartitionInfo>, logDirs: seq<LogDir>, offsets: Option<seq<Offsets>>): Result<seq<Partition>, Error> {
    MapUntilFailure(infos, PartitionOf(name, logDirs, offsets))
  }

  /** The loop succeeds with one record per described partition, each as
      `PartitionFor` builds it, or fails with the exception of the first
      partition that cannot be resolved. */
  lemma AssemblePartitionsSpec(name: string, infos: seq<PartitionInfo>, logDirs: seq<LogDir>, offsets: Option<seq<Offsets>>)
    ensures var r := AssemblePartitions(name, infos, logDirs, offsets);
      && (r.Success? ==> |r.value| == |infos|)
      && (r.Success? ==> forall i :: 0 <= i < |infos| ==> PartitionFor(name, infos[i], logDirs, offsets) == Success(r.value[i]))
      && (r.Failure? ==> exists i ::
            && 0 <= i < |infos|
            && PartitionFor(name, infos[i], logDirs, offsets) == Failure(r.error)
            && forall j :: 0 <= j < i ==> PartitionFor(name, infos[j], logDirs, offsets).Success?)
  {
    MapUntilFailureSpec(infos, PartitionOf(name, logDirs, offsets));
  }

  /** The topic the constructor builds, or the exception it throws. */
  function BuildTopic(
    description: TopicDescription,
    consumerGroup: seq<ConsumerGroup>,
    logDirs: seq<LogDir>,
    offsets: Option<seq<Offsets>>,
    acls: seq<AccessControlList>,
    configInternal: bool,
    configStream: bool): (r: Result<Topic, Error>)
    ensures r.Success? ==>
      && r.value.name == description.name
      && r.value.internal == description.internal
      && r.value.configInternal == configInternal
      && r.value.configStream == configStream
      && r.value.acls == acls
      && r.value.consumerGroups == consumerGroup
      && |r.value.partitions| == |description.partitions|
    ensures r.Success? ==> forall i :: 0 <= i < |description.partitions| ==>
      PartitionFor(description.name, description.partitions[i], logDirs, offsets) == Success(r.value.partitions[i])
    ensures r.Failure? ==> exists i ::
      && 0 <= i < |description.partitions|
      && PartitionFor(description.name, description.partitions[i], logDirs, offsets) == Failure(r.error)
      && forall j :: 0 <= j < i ==> PartitionFor(description.name, description.partitions[j], logDirs, offsets).Success?
  {
    AssemblePartitionsSpec(description.name, description.partitions, logDirs, offsets);
    match AssemblePartitions(description.name, description.partitions, logDirs, offsets)
    case Failure(e) => Failure(e)
    case Success(ps) =>
      Success(Topic(description.name, description.internal, configInternal, configStream, acls, ps, consumerGroup))
  }

  /** The constructor `Topic(description, consumerGroup, logDirs, offsets,
      acls, configInternal, configStream)`: copies the ACLs, then builds the
      partitions one by one, throwing at the first partition without offsets. */
  method NewTopic(
    description: TopicDescription,
    consumerGroup: seq<ConsumerGroup>,
    logDirs: seq<LogDir>,
    offsets: Option<seq<Offsets>>,
    acls: seq<AccessControlList>,
    configInternal: bool,
    configStream: bool) returns (r: Result<Topic, Error>)
    ensures r == BuildTopic(description, consumerGroup, logDirs, offsets, acls, configInternal, configStream)
  {
    var topicAcls: seq<AccessControlList> := [];
    topicAcls := topicAcls + acls;
    assert topicAcls == acls;
    var partitions: seq<Partition> := [];
    var infos := description.partitions;
    var i := 0;
    while i < |infos|
      invariant 0 <= i <= |infos|
      invariant AssemblePartitions(description.name, infos[..i], logDirs, offsets) == Success(partitions)
    {
      var partition := PartitionFor(description.name, infos[i], logDirs, offsets);
      MapUntilFailureStep(infos, PartitionOf(description.name, logDirs, offsets), i);
      if partition.Failure? {
        MapFailureSticks(infos, PartitionOf(description.name, logDirs, offsets), i + 1);
        return Failure(partition.error);
      }
      partitions := partitions + [partition.value];
      i := i + 1;
    }
    assert infos[..i] == infos;
    assert AssemblePartitions(description.name, infos, logDirs, offsets) == Success(partitions);
    r := Success(Topic(description.name, description.internal, configInternal, configStream, topicAcls, partitions, consumerGroup));
  }

  // ---------------------------------------------------------------------
  // Classification
  // ---------------------------------------------------------------------

  /** `isInternal()`: the broker's flag or the configured name patterns. */
  function IsInternal(t: Topic): (r: bool)
    ensures t.internal ==> r
    ensures t.configInternal ==> r
    ensures r ==> t.internal || t.configInternal
  {
    t.internal || t.configInternal
  }

  /** `isStream()`: the configured name patterns only; the broker has no
      notion of a stream. */
  function IsStream(t: Topic): (r: bool)
    ensures r <==> t.configStream
  {
    t.configStream
  }

  // ---------------------------------------------------------------------
  // Replicas
  // ---------------------------------------------------------------------

  /** The ids of the partitions' nodes, partition by partition; with
      `inSyncOnly`, only the in-sync ones. */
  function NodeIds(partitions: seq<Partition>, inSyncOnly: bool): seq<int> {
    if partitions == [] then []
    else
      NodeIds(partitions[..|partitions| - 1], inSyncOnly)
      + NodeIdsOf(partitions[|partitions| - 1].nodes, inSyncOnly)
  }

  function NodeIdsOf(nodes: seq<Node>, inSyncOnly: bool): seq<int> {
    if nodes == [] then []
    else
      var n := nodes[|nodes| - 1];
      NodeIdsOf(nodes[..|nodes| - 1], inSyncOnly) + (if !inSyncOnly || n.inSync then [n.id] else [])
  }

  /** The ids of the replicas of any partition (in-sync ones only, with
      `inSyncOnly`). */
  ghost function ReplicaIds(partitions: seq<Partition>, inSyncOnly: bool): set<int> {
    set i, n | 0 <= i < |partitions| && n in partitions[i].nodes && (!inSyncOnly || n.inSync) :: n.id
  }

  lemma {:induction false} NodeIdsOfMembers(nodes: seq<Node>, inSyncOnly: bool)
    ensures forall x :: x in NodeIdsOf(nodes, inSyncOnly) <==>
      exists n :: n in nodes && (!inSyncOnly || n.inSync) && n.id == x
  {
    if nodes != [] {
      NodeIdsOfMembers(nodes[..|nodes| - 1], inSyncOnly);
      assert nodes == nodes[..|nodes| - 1] + [nodes[|nodes| - 1]];
    }
  }

  /** The id list and the id set have the same members. */
  lemma {:induction false} NodeIdsMembers(partitions: seq<Partition>, inSyncOnly: bool)
    ensures forall x :: x in NodeIds(partitions, inSyncOnly) <==> x in ReplicaIds(partitions, inSyncOnly)
  {
    if partitions != [] {
      var init, last := partitions[..|partitions| - 1], partitions[|partitions| - 1];
      NodeIdsMembers(init, inSyncOnly);
      NodeIdsOfMembers(last.nodes, inSyncOnly);
      forall x
        ensures x in NodeIds(partitions, inSyncOnly) <==> x in ReplicaIds(partitions, inSyncOnly)
      {
        if x in ReplicaIds(partitions, inSyncOnly) {
          var i, n :| 0 <= i < |partitions| && n in partitions[i].nodes && (!inSyncOnly || n.inSync) && n.id == x;
          if i < |init| {
            assert x in ReplicaIds(init, inSyncOnly) by { assert init[i] == partitions[i]; }
          }
        }
        if x in ReplicaIds(init, inSyncOnly) {
          var i, n :| 0 <= i < |init| && n in init[i].nodes && (!inSyncOnly || n.inSync) && n.id == x;
          assert partitions[i] == init[i];
        }
        if x in NodeIdsOf(last.nodes, inSyncOnly) {
          var n :| n in last.nodes && (!inSyncOnly || n.inSync) && n.id == x;
          assert partitions[|partitions| - 1] == last;
        }
      }
    }
  }

  /** No value occurs twice. */
  predicate NoDuplicates(s: seq<int>) {
    forall i, j :: 0 <= i < j < |s| ==> s[i] != s[j]
  }

  /** `stream().distinct()`: first occurrences, in order. */
  function Distinct(s: seq<int>): (r: seq<int>)
    ensures NoDuplicates(r)
    ensures forall x :: x in r <==> x in s
  {
    if s == [] then []
    else
      var d := Distinct(s[..|s| - 1]);
      assert s == s[..|s| - 1] + [s[|s| - 1]];
      if s[|s| - 1] in d then d else d + [s[|s| - 1]]
  }

  /** A list without duplicates is as long as the set of its members. */
  lemma {:induction false} NoDuplicatesCard(s: seq<int>)
    requires NoDuplicates(s)
    ensures |set x | x in s| == |s|
  {
    if s != [] {
      var init := s[..|s| - 1];
      NoDuplicatesCard(init);
      assert (set x | x in s) == (set x | x in init) + {s[|s| - 1]};
      assert s[|s| - 1] !in init;
    }
  }

  lemma SubsetCard(a: set<int>, b: set<int>)
    requires a <= b
    ensures |a| <= |b|
  {
    assert b == a + (b - a);
  }

  /** `getReplicaCount()`: the number of distinct node ids over all partitions. */
  function ReplicaCount(t: Topic): (r: nat)
    ensures r == |ReplicaIds(t.partitions, false)|
  {
    var d := Distinct(NodeIds(t.partitions, false));
    NoDuplicatesCard(d);
    NodeIdsMembers(t.partitions, false);
    assert (set x | x in d) == ReplicaIds(t.partitions, false);
    |d|
  }

  /** `getInSyncReplicaCount()`: the number of distinct ids of in-sync
      nodes; never more than the replica count. */
  function InSyncReplicaCount(t: Topic): (r: nat)
    ensures r == |ReplicaIds(t.partitions, true)|
    ensures r <= ReplicaCount(t)
  {
    var d := Distinct(NodeIds(t.partitions, true));
    NoDuplicatesCard(d);
    NodeIdsMembers(t.partitions, true);
    assert (set x | x in d) == ReplicaIds(t.partitions, true);
    SubsetCard(ReplicaIds(t.partitions, true), ReplicaIds(t.partitions, false));
    |d|
  }

  /** Two partitions replicated on brokers {1, 2, 3} and {2, 3, 4}, with
      only 2 and 3 in sync on both: four replicas, two of them in sync. */
  lemma ReplicaCountExample(t: Topic)
    requires t.partitions == [
      Partition(0, [Node(1, false), Node(2, true), Node(3, true)], [], 0, 0),
      Partition(1, [Node(2, true), Node(3, true), Node(4, false)], [], 0, 0)]
    ensures ReplicaCount(t) == 4 && InSyncReplicaCount(t) == 2
  {
    var ps := t.partitions;
    var n1, n2, n3 := ps[0].nodes[0], ps[0].nodes[1], ps[0].nodes[2];
    var n4 := ps[1].nodes[2];
    assert 1 == n1.id && 2 == n2.id && 3 == n3.id && 4 == n4.id;
    assert ReplicaIds(ps, false) == {1, 2, 3, 4};
    assert ReplicaIds(ps, true) == {2, 3};
  }

  // ---------------------------------------------------------------------
  // Log directories and sizes
  // ---------------------------------------------------------------------

  /** `getLogDir()`: every partition's log directories, partition by partition. */
  function LogDirs(partitions: seq<Partition>): (r: seq<LogDir>)
    ensures forall d :: d in r <==> exists i :: 0 <= i < |partitions| && d in partitions[i].logDirs
    ensures |partitions| == 1 ==> r == partitions[0].logDirs
  {
    if partitions == [] then []
    else
      var init := partitions[..|partitions| - 1];
      var r := LogDirs(init) + partitions[|partitions| - 1].logDirs;
      assert forall i :: 0 <= i < |init| ==> init[i] == partitions[i];
      r
  }

  /** `getLogDir()` joins the partitions' lists in partition order, keeping
      every entry, duplicates included. */
  lemma {:induction false} LogDirsConcat(a: seq<Partition>, b: seq<Partition>)
    ensures LogDirs(a + b) == LogDirs(a) + LogDirs(b)
  {
    if b != [] {
      assert (a + b)[..|a + b| - 1] == a + b[..|b| - 1];
      LogDirsConcat(a, b[..|b| - 1]);
    } else {
      assert a + b == a;
    }
  }

  /** The sum of the sizes of some log directories. */
  function SumSizes(logDirs: seq<LogDir>): int {
    if logDirs == [] then 0 else SumSizes(logDirs[..|logDirs| - 1]) + logDirs[|logDirs| - 1].size
  }

  lemma {:induction false} SumSizesConcat(a: seq<LogDir>, b: seq<LogDir>)
    ensures SumSizes(a + b) == SumSizes(a) + SumSizes(b)
  {
    if b != [] {
      assert (a + b)[..|a + b| - 1] == a + b[..|b| - 1];
      SumSizesConcat(a, b[..|b| - 1]);
    } else {
      assert a + b == a;
    }
  }

  /** `Partition.getLogDirSize()`: the sum of the partition's log-directory sizes. */
  function PartitionLogDirSize(p: Partition): int {
    SumSizes(p.logDirs)
  }

  /** The `Integer::sum` of the partitions' log-directory counts. */
  function LogDirCount(partitions: seq<Partition>): int {
    if partitions == [] then 0
    else LogDirCount(partitions[..|partitions| - 1]) + |partitions[|partitions| - 1].logDirs|
  }

  /** The `Long::sum` of the partitions' log-directory sizes. */
  function PartitionsLogDirSize(partitions: seq<Partition>): int {
    if partitions == [] then 0
    else PartitionsLogDirSize(partitions[..|partitions| - 1]) + PartitionLogDirSize(partitions[|partitions| - 1])
  }

  lemma {:induction false} LogDirCountZero(partitions: seq<Partition>)
    ensures LogDirCount(partitions) >= 0
    ensures LogDirCount(partitions) == 0 <==> forall i :: 0 <= i < |partitions| ==> partitions[i].logDirs == []
  {
    if partitions != [] {
      var init := partitions[..|partitions| - 1];
      LogDirCountZero(init);
      assert forall i :: 0 <= i < |init| ==> init[i] == partitions[i];
    }
  }

  lemma {:induction false} PartitionsLogDirSizeIsSum(partitions: seq<Partition>)
    ensures PartitionsLogDirSize(partitions) == SumSizes(LogDirs(partitions))
  {
    if partitions != [] {
      var init := partitions[..|partitions| - 1];
      PartitionsLogDirSizeIsSum(init);
      SumSizesConcat(LogDirs(init), partitions[|partitions| - 1].logDirs);
    }
  }

  /** `getLogDirSize()`: unknown when no partition has a log directory,
      otherwise the total size of all of them. */
  function LogDirSize(t: Topic): (r: Option<int>)
    ensures r.None? <==> forall i :: 0 <= i < |t.partitions| ==> t.partitions[i].logDirs == []
    ensures r.Some? ==> r.value == SumSizes(LogDirs(t.partitions))
  {
    LogDirCountZero(t.partitions);
    PartitionsLogDirSizeIsSum(t.partitions);
    if LogDirCount(t.partitions) == 0 then None
    else Some(PartitionsLogDirSize(t.partitions))
  }

  /** The number of offsets of one partition. */
  function PartitionSize(p: Partition): int {
    p.lastOffset - p.firstOffset
  }

  /** Every partition's last offset is at least its first. */
  predicate OffsetsOrdered(partitions: seq<Partition>) {
    forall i :: 0 <= i < |partitions| ==> partitions[i].firstOffset <= partitions[i].lastOffset
  }

  /** `getSize()`: the `Long::sum` of last minus first offset over the partitions. */
  function Size(partitions: seq<Partition>): (r: int)
    ensures OffsetsOrdered(partitions) ==> r >= 0
  {
    if partitions == [] then 0
    else
      var init := partitions[..|partitions| - 1];
      assert OffsetsOrdered(partitions) ==> OffsetsOrdered(init);
      Size(init) + PartitionSize(partitions[|partitions| - 1])
  }

  /** The total size is the sum of the parts' sizes. */
  lemma {:induction false} SizeConcat(a: seq<Partition>, b: seq<Partition>)
    ensures Size(a + b) == Size(a) + Size(b)
  {
    if b != [] {
      assert (a + b)[..|a + b| - 1] == a + b[..|b| - 1];
      SizeConcat(a, b[..|b| - 1]);
    } else {
      assert a + b == a;
    }
  }

  /** With ordered offsets, no partition is larger than the whole topic. */
  lemma {:induction false} PartitionSizeAtMostSize(partitions: seq<Partition>, i: int)
    requires 0 <= i < |partitions| && OffsetsOrdered(partitions)
    ensures PartitionSize(partitions[i]) <= Size(partitions)
  {
    var init := partitions[..|partitions| - 1];
    assert OffsetsOrdered(init);
    if i < |init| {
      PartitionSizeAtMostSize(init, i);
      assert init[i] == partitions[i];
    }
  }

  /** `i` is the first partition with id `p`. */
  predicate IsFirstWithId(partitions: seq<Partition>, p: int, i: int) {
    0 <= i < |partitions| && partitions[i].id == p
    && forall j :: 0 <= j < i ==> partitions[j].id != p
  }

  /** `getSize(partition)`: the size of the first partition with that id,
      or `NoSuchElementException` when there is none. */
  method GetSize(t: Topic, partition: int) returns (r: Result<int, Error>)
    ensures r.Failure? <==> forall i :: 0 <= i < |t.partitions| ==> t.partitions[i].id != partition
    ensures r.Failure? ==> r.error == PartitionNotFound(partition, t.name)
    ensures r.Success? ==> exists i ::
      && IsFirstWithId(t.partitions, partition, i)
      && r.value == t.partitions[i].lastOffset - t.partitions[i].firstOffset
    ensures r.Success? && OffsetsOrdered(t.partitions) ==> 0 <= r.value <= Size(t.partitions)
  {
    for i := 0 to |t.partitions|
      invariant forall j :: 0 <= j < i ==> t.partitions[j].id != partition
    {
      var current := t.partitions[i];
      if partition == current.id {
        assert IsFirstWithId(t.partitions, partition, i);
        if OffsetsOrdered(t.partitions) {
          PartitionSizeAtMostSize(t.partitions, i);
        }
        return Success(current.lastOffset - current.firstOffset);
      }
    }
    r := Failure(PartitionNotFound(partition, t.name));
  }

  // ---------------------------------------------------------------------
  // Record deletion
  // ---------------------------------------------------------------------

  /** Some `cleanup.policy` entry mentions `compact`. */
  function AnyCompactPolicy(configs: seq<Config>): (r: bool)
    ensures r <==> exists i ::
      && 0 <= i < |configs|
      && configs[i].name == CleanupPolicyConfig && Occurs(configs[i].value, CleanupPolicyCompact)
  {
    if configs == [] then false
    else if configs[0].name == CleanupPolicyConfig && Contains(configs[0].value, CleanupPolicyCompact) then true
    else
      var r := AnyCompactPolicy(configs[1..]);
      assert forall i :: 1 <= i < |configs| ==> configs[i] == configs[1..][i - 1];
      r
  }

  /** `canDeleteRecords(...)`, with the topic's configuration given: never
      for an internal topic, otherwise when its cleanup policy includes
      compaction. */
  function CanDeleteRecords(t: Topic, configs: seq<Config>): (r: bool)
    ensures r <==> !t.internal && !t.configInternal && exists i ::
      && 0 <= i < |configs|
      && configs[i].name == CleanupPolicyConfig && Occurs(configs[i].value, CleanupPolicyCompact)
  {
    if IsInternal(t) then false else AnyCompactPolicy(configs)
  }
}

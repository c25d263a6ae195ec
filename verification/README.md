# Topic visibility and the Topic aggregate of KafkaHQ, in Dafny

This project models two classes of KafkaHQ, a web UI for Kafka clusters.

**`TopicRepository`** decides which topics a request may see. A topic name is
classified as *internal* or *stream* when one of the configured patterns
matches the whole name. A listing *view* (`ALL`, `HIDE_INTERNAL`,
`HIDE_INTERNAL_STREAM`, `HIDE_STREAM`) hides some of those classes. The allowed
patterns of a request come from the `topics-filter-regexp` attribute: first the
authenticated principal's, then the default groups'. `all` lists the names that
pass the search, the view and the allowed patterns, sorted case-insensitively.
`findByName` reports a name outside the allowed patterns exactly like a topic
the cluster does not have.

**`Topic`** is the aggregate built for one described topic. It holds one
partition record per described partition. Each record gets that partition's log
directories and the first offsets entry for it. The aggregate answers the UI's
questions: the number of distinct replicas and of in-sync replicas, the
log-directory size ("unknown" when there are no log directories), the total size
and the size of one partition, and whether records may be deleted.

Modules, one per file:

- `Common` (`common.dfy`): `Option`, `Result` (a value or the exception thrown
  instead), an order-keeping `Filter`, and `MapUntilFailure`. `MapUntilFailure` is the
  loop shape that builds one result per element and stops at the first
  exception. The constructor's loop over the described partitions
  (`Topic.java`) and the loop of `findByName(clusterId, topics)`
  (`TopicRepository.java`) have that shape.
- `JavaStrings` (`java_strings.dfy`): `String.toLowerCase`, the order of
  `String.compareTo` and `String.contains`.
- `Sorting` (`sorting.dfy`): `List.sort` with
  `Comparator.comparing(String::toLowerCase)`. It is proved to be a permutation,
  ascending by lower-cased name, and stable.
- `TopicModel` (`topic.dfy`): `Topic.java`.
- `TopicRepository` (`topic_repository.dfy`): `TopicRepository.java`.

Several things are inputs to the model:

- the repository's configuration;
- the behaviour it takes from code outside these two files: `String.matches`,
  `isSearchMatch` and `isTopicMatchRegex` of the base repository, and
  `UserGroupUtils.getUserAttributes`. These are function-valued fields of
  `Settings`;
- everything the cluster answers: the fields of `Upstream`;
- the security context of the request: `Security`.

Error behaviour of the code, as modelled:

- A described partition with no offsets entry raises `NoSuchElementException`
  (`PartitionOffsetsNotFound`).
- When the offsets map has no entry for the topic at all, the constructor gets
  a `null` offsets list. It raises `NullPointerException` at its first partition
  (`OffsetsMissing`). A topic with no partitions is built without error.
- The listing's search test is `isSearchMatch`, which lives in the base
  repository. It is kept abstract.

## Model

| member | source | states |
|---|---|---|
| `TopicRepository.AnyMatch` | src/main/java/org/kafkahq/repositories/TopicRepository.java:151-161 | `anyMatch(name::matches)` is true iff some pattern in the list matches the name |
| `TopicRepository.IsInternalName` | src/main/java/org/kafkahq/repositories/TopicRepository.java:151-155 | a name is internal iff at least one configured internal pattern matches the whole name |
| `TopicRepository.IsStreamName` | src/main/java/org/kafkahq/repositories/TopicRepository.java:157-161 | a name is a stream iff at least one configured stream pattern matches the whole name |
| `TopicRepository.IsListViewMatch` | src/main/java/org/kafkahq/repositories/TopicRepository.java:101-112 | a view keeps a name unless the view hides internal topics and the name is internal, or it hides streams and the name is a stream. So `All` keeps everything, `HideStream` keeps non-streams, `HideInternal` keeps non-internal names and `HideInternalStream` keeps names that are neither |
| `TopicRepository.TopicFilterRegexFromAttributes` | src/main/java/org/kafkahq/repositories/TopicRepository.java:198-205 | the `topics-filter-regexp` list when that key is present with a list value; the empty list otherwise |
| `TopicRepository.GetTopicFilterRegex` | src/main/java/org/kafkahq/repositories/TopicRepository.java:180-196 | always present. First come the principal's patterns, only with a security service and an authentication. Then come the default groups' patterns. Each keeps its order. Without an authentication only the default groups' patterns remain |
| `TopicRepository.SelectTopicsStep` | src/main/java/org/kafkahq/repositories/TopicRepository.java:89-94 | each listed name is appended to the selection exactly when it passes all three tests |
| `TopicRepository.SelectedMembers` | src/main/java/org/kafkahq/repositories/TopicRepository.java:89-94 | any permutation of the selection holds exactly the listed names that pass all three tests |
| `TopicRepository.ListNames` | src/main/java/org/kafkahq/repositories/TopicRepository.java:84-98 | `all`: the result holds exactly the listed names that pass all three tests. It is a permutation of the selection and ascends by lower-cased name. Names equal after lower-casing keep their listing order |
| `TopicRepository.TopicFor` | src/main/java/org/kafkahq/repositories/TopicRepository.java:134-143 | the topic built for a description has `configInternal` = `isInternal(name)` and `configStream` = `isStream(name)`. Its `isInternal()` is the broker flag or the pattern test, and its `isStream()` is the pattern test. It has no consumer groups when `skip-consumer-groups` is set, the repository's groups otherwise. Construction fails on missing offsets (see `TopicModel.BuildTopic`) |
| `TopicRepository.FindTopicsSpec` | src/main/java/org/kafkahq/repositories/TopicRepository.java:132-146 | one topic per description whose name passes the allowed patterns, in description order. The loop fails with the exception of the first visible description whose topic cannot be built |
| `TopicRepository.FindTopicsVisibleOnly` | src/main/java/org/kafkahq/repositories/TopicRepository.java:133 | every topic found has a name that the allowed patterns accept |
| `TopicRepository.FindTopicsStep` | src/main/java/org/kafkahq/repositories/TopicRepository.java:132-146 | each description is skipped when its name is not allowed; otherwise its topic is appended, or its exception ends the loop |
| `TopicRepository.FindTopicsFailureSticks` | src/main/java/org/kafkahq/repositories/TopicRepository.java:132-146 | once a topic construction has thrown, later descriptions do not change the outcome |
| `TopicRepository.FindByNames` | src/main/java/org/kafkahq/repositories/TopicRepository.java:124-149 | `findByName(list)`: the loop's result is the one `FindTopics` gives for the cluster's descriptions and offsets of the requested names |
| `TopicRepository.FindByName` | src/main/java/org/kafkahq/repositories/TopicRepository.java:114-122 | a name outside the allowed patterns gives `TopicNotFound(name)` whatever the cluster holds. The cluster yielding no visible description gives the same value. Otherwise the result is the first topic found, or the exception raised while building it. A topic returned always passes the allowed patterns |
| `TopicModel.LogDirsOfMembers` | src/main/java/org/kafkahq/models/Topic.java:51-53 | a partition's log directories are exactly the input entries with its partition id, each with its full multiplicity |
| `TopicModel.LogDirsOfConcat` | src/main/java/org/kafkahq/models/Topic.java:51-53 | selecting a partition's log directories distributes over concatenation, so input order is kept |
| `TopicModel.FirstOffsets` | src/main/java/org/kafkahq/models/Topic.java:54-56 | absent iff no offsets entry has the partition id; otherwise the entry at the first index with that id |
| `TopicModel.PartitionFor` | src/main/java/org/kafkahq/models/Topic.java:47-61 | one iteration: a `null` offsets list fails with `OffsetsMissing`, and no matching entry fails with `PartitionOffsetsNotFound(id, topic)`. Otherwise the record carries the described id and nodes, the matching log directories and the first matching entry's offsets |
| `TopicModel.AssemblePartitionsSpec` | src/main/java/org/kafkahq/models/Topic.java:47-61 | on success, exactly one record per described partition, in description order. On failure, the exception of the first described partition that cannot be resolved |
| `TopicModel.BuildTopic` | src/main/java/org/kafkahq/models/Topic.java:30-62 | the built topic keeps the description's name and broker flag, the given flags, ACLs and consumer groups. It has one partition per described partition, each as `PartitionFor` builds it. It fails with the first partition's exception |
| `TopicModel.NewTopic` | src/main/java/org/kafkahq/models/Topic.java:30-62 | the constructor's loop, with its early exit on the exception, gives exactly `BuildTopic`'s result |
| `Common.MapUntilFailureSpec` | src/main/java/org/kafkahq/models/Topic.java:47-61 | a loop that builds one result per element and throws at the first failure either returns every result in order or the exception of the first element that throws, all earlier ones having succeeded |
| `Common.MapUntilFailureStep` | src/main/java/org/kafkahq/models/Topic.java:47-61 | each iteration either appends one result or ends the loop with its exception |
| `Common.MapFailureSticks` | src/main/java/org/kafkahq/models/Topic.java:57-59 | once an iteration has thrown, the remaining elements do not change the outcome |
| `Common.FilterMembers` | src/main/java/org/kafkahq/models/Topic.java:51-53 | `filter` keeps exactly the elements that pass the test, never more elements than it was given |
| `Common.FilterMultiset` | src/main/java/org/kafkahq/models/Topic.java:51-53 | an element that passes the test is kept as often as it occurs; one that fails is dropped |
| `Common.FilterConcat` | src/main/java/org/kafkahq/models/Topic.java:51-53 | filtering distributes over concatenation, so it never reorders |
| `TopicModel.IsInternal` | src/main/java/org/kafkahq/models/Topic.java:64-66 | the broker's internal flag alone makes a topic internal, and so does a configured internal pattern; nothing else does |
| `TopicModel.IsStream` | src/main/java/org/kafkahq/models/Topic.java:68-70 | a topic is a stream exactly when its name matches a configured stream pattern; the broker's internal flag plays no part |
| `TopicModel.NodeIdsMembers` | src/main/java/org/kafkahq/models/Topic.java:73-75 | the flat-mapped list of node ids holds exactly the ids of the nodes of some partition (in-sync ones only, when filtered) |
| `TopicModel.Distinct` | src/main/java/org/kafkahq/models/Topic.java:76 | `distinct()` keeps every value, and only those, with no value twice |
| `TopicModel.NoDuplicatesCard` | src/main/java/org/kafkahq/models/Topic.java:76-77 | counting a duplicate-free list counts its set of values |
| `TopicModel.ReplicaCount` | src/main/java/org/kafkahq/models/Topic.java:72-78 | the number of distinct node ids over all partitions |
| `TopicModel.InSyncReplicaCount` | src/main/java/org/kafkahq/models/Topic.java:80-87 | the number of distinct ids among in-sync nodes; never more than the replica count |
| `TopicModel.ReplicaCountExample` | src/main/java/org/kafkahq/models/Topic.java:72-87 | replicas {1,2,3} and {2,3,4}, with 2 and 3 in sync on both, count 4 replicas and 2 in-sync replicas |
| `TopicModel.LogDirs` | src/main/java/org/kafkahq/models/Topic.java:89-93 | `getLogDir()` holds exactly the log directories of some partition; for a single partition it is that partition's list, duplicates included |
| `TopicModel.LogDirsConcat` | src/main/java/org/kafkahq/models/Topic.java:89-93 | the flat-mapped list of a concatenation is the two lists joined, so `getLogDir()` keeps partition order and every entry, duplicates included |
| `TopicModel.LogDirCountZero` | src/main/java/org/kafkahq/models/Topic.java:96-102 | the summed log-directory count is 0 iff no partition has a log directory |
| `TopicModel.PartitionsLogDirSizeIsSum` | src/main/java/org/kafkahq/models/Topic.java:104-107 | the sum of per-partition log-directory sizes is the total size of the flattened log directories |
| `TopicModel.LogDirSize` | src/main/java/org/kafkahq/models/Topic.java:95-108 | empty iff no partition has a log directory; otherwise the total size of all log directories |
| `TopicModel.Size` | src/main/java/org/kafkahq/models/Topic.java:110-114 | the sum of last minus first offset; not negative when every partition's offsets are ordered |
| `TopicModel.SizeConcat` | src/main/java/org/kafkahq/models/Topic.java:110-114 | the size of a list of partitions is the sum of the sizes of its parts |
| `TopicModel.PartitionSizeAtMostSize` | src/main/java/org/kafkahq/models/Topic.java:110-124 | with ordered offsets, no partition's size exceeds the topic's size |
| `TopicModel.GetSize` | src/main/java/org/kafkahq/models/Topic.java:116-124 | `getSize(p)` fails with `PartitionNotFound(p, topic)` iff no partition has id `p`. Otherwise it returns last minus first offset of the first partition with that id. With ordered offsets the value lies between 0 and the topic's size |
| `TopicModel.AnyCompactPolicy` | src/main/java/org/kafkahq/models/Topic.java:131-135 | true iff some `cleanup.policy` entry's value contains `compact` |
| `TopicModel.CanDeleteRecords` | src/main/java/org/kafkahq/models/Topic.java:126-136 | false for an internal topic (broker flag or pattern). Otherwise true iff some `cleanup.policy` entry's value contains `compact` |
| `JavaStrings.ToLowerCase` | src/main/java/org/kafkahq/repositories/TopicRepository.java:96 | the sort key has the name's length and lower-cases each character; no upper-case ASCII letter remains |
| `JavaStrings.CompareLeTotal` | src/main/java/org/kafkahq/repositories/TopicRepository.java:96 | `compareTo` orders every pair of keys |
| `JavaStrings.CompareLeTransitive` | src/main/java/org/kafkahq/repositories/TopicRepository.java:96 | `compareTo` is transitive |
| `JavaStrings.CompareLeAntisymmetric` | src/main/java/org/kafkahq/repositories/TopicRepository.java:96 | keys that compare both ways are equal, so the comparator's ties are exactly equal lower-cased names |
| `JavaStrings.Contains` | src/main/java/org/kafkahq/models/Topic.java:135 | `contains` is true iff the substring occurs at some position |
| `Sorting.Insert` | src/main/java/org/kafkahq/repositories/TopicRepository.java:96 | inserting adds exactly one name to the multiset |
| `Sorting.InsertSorted` | src/main/java/org/kafkahq/repositories/TopicRepository.java:96 | inserting into a sorted list keeps it sorted by lower-cased name |
| `Sorting.InsertStable` | src/main/java/org/kafkahq/repositories/TopicRepository.java:96 | the inserted name goes after every name with the same lower-cased form |
| `Sorting.StableSort` | src/main/java/org/kafkahq/repositories/TopicRepository.java:96 | the sort is a permutation, ascends by lower-cased name, and keeps the input order of names with equal lower-cased forms |
| `Sorting.SortByLowerCase` | src/main/java/org/kafkahq/repositories/TopicRepository.java:96 | the sorting loop yields the stable sort: a sorted, stable permutation |

## Left out

- `list`: it runs `findByName` for each listed name as a concurrent task. Concurrency is not modelled; each task is `FindByName`.
- `create` creates the topic through the admin client and blocks, then writes its configuration through the config repository; `delete` forwards to the admin client and blocks. Neither is modelled: both only call services outside this model.
- `kafkaWrapper.listTopics`, `describeTopics` and `describeTopicsOffsets`, and the consumer-group, log-directory and ACL repositories, are inputs (`Upstream`). A failure of these calls (an `ExecutionException`) is not modelled.
- `describeTopics` returns a map, and its entry set has no defined order. The model takes the descriptions as a sequence in the cluster's order.
- The regular-expression engine (`String.matches`), `isSearchMatch` and `isTopicMatchRegex` live outside these two files. They are abstract predicates. So the model proves nothing about what an empty pattern list allows. It also proves nothing about the widening effect of appending the default groups' patterns to the principal's.
- The Micronaut `ApplicationContext`, `SecurityService` and `UserGroupUtils.getUserAttributes` become the `Security` value and the `userAttributes` field of `Settings`. An attribute that is present but `null` is modelled as absent. A list attribute is taken to hold strings.
- `Partition`, `Node` and `LogDir` are not part of this model. Minimal records stand in for them: a partition has an id and nodes, a node has an id and an in-sync flag, a log directory has a partition and a size, and an offsets entry has a partition, a first and a last offset. A partition's log-directory size is taken to be the sum of its log directories' sizes.
- `CompareLe`: orders strings by Unicode scalar values. Java's `String.compareTo` compares UTF-16 code units. The two orders differ only on characters outside the Basic Multilingual Plane, for example U+1F600 against U+FFFF. Kafka limits topic names to ASCII letters, digits, `.`, `_` and `-`, and on those the two orders agree.
- `ToLowerCase`: lower-cases ASCII letters only. Java's locale-dependent Unicode case mapping is not modelled.
- `Size`: `getSize()` and `getLogDirSize()` add Java `long` values, and `getLogDirSize` counts with `Integer`. Overflow is not modelled: the sums are mathematical integers.
- `ListNames`: `List.sort` is a merge sort working in place on the `ArrayList`. The model sorts a sequence by stable insertion. A stable sort's result is unique, so both give the same list.
- `canDeleteRecords` fetches the configuration from the config repository. The model takes that list as a parameter.
- Lombok's generated `equals`, `hashCode` and `toString` are not modelled.

# OrientDB distributed-core and index-chain model

A Dafny model of pieces of OrientDB, with proofs about them.

- **Consensus wire messages.** The log identifier (`OLogId`), the sync
  request, and the "last operation id" request and its response. Each has its
  byte encoding over `DataOutput`/`DataInput`, modelled as functions on byte
  sequences.
- **Elections** (`OElection`, `OElectionContext`, `OElectionReply`).
- **The coordinator's request table** (`ODistributedCoordinator`).
- **The phase-1 transaction task** (`OTransactionPhase1Task`): request
  generation, retry, outcome classification, partition hint and stream format.
- **Index chains.** How `OChainedIndexProxy` scores indexes and assembles a
  chain for a traversed field.
- **The WAL delete-record operation** (`OPaginatedClusterDeleteRecordCO`).

Each Java class takes its own form in the model:

- Value classes and pure computations are datatypes, functions and lemmas.
- Objects whose fields the code updates in place are Dafny classes. Their
  methods carry `modifies` clauses and state the whole new state:
  - `Election`, `ElectionContext`
  - `DistributedCoordinator`, `RequestContext`
  - `Phase1Task`
  - `ByteBuffer`, `DeleteRecordCO`
- Loops in the source are loops in the model. Each loop is proved against a
  specification function, and the properties are proved about that function.

Modules, one per file:

- `Wrappers`: `Option`, `Result` and the exceptions the code can raise.
- `Bytes`: the `DataOutput`/`DataInput` primitives, as big-endian two's
  complement with an encoder standing in for `writeUTF`.
- `Identities`: node and session ids and message type constants.
- `LogIds`, `SyncRequests`, `LastOpIdRequests`, `LastOpIdResponses`
- `Elections`, `Coordinator`, `Phase1`, `ChainedIndexProxy`, `ClusterDeleteRecord`

How collaborators are modelled:

- **Network.** A call description that is returned, or an outbox sequence
  that is appended to.
- **Operation log.** A function from the number of entries logged so far to a
  fresh id.
- **Executor.** Runs its task at once.
- **Database results.** `beginDistributedTx`'s result or exception, and the
  stored records, are parameters.

Where the code and the documented design of the system disagree, the model
follows the code:

- `ODistributedCoordinator.receive` dereferences the missing context for an
  unknown or finished id. The design calls it silently ignored.
- Lock timeouts produce terminal payloads. Only a `false` from
  `beginDistributedTx` leads to a retry. The design has lock contention retried.
- `startElection` passes its arguments to `OElection` in swapped order. So the
  election's term is the quorum argument, while the returned term is always 1.
- `checkElection` never selects a reply. The design describes a decision rule.

## Model

| member | source | states |
|---|---|---|
| LogIds.Serialize | distributed-v2/src/main/java/com/orientechnologies/orient/distributed/impl/coordinator/OLogId.java:19-29 | always 24 bytes: `id`, `term`, `previousIdTerm` as big-endian longs; null writes three -1 longs |
| LogIds.Deserialize | distributed-v2/src/main/java/com/orientechnologies/orient/distributed/impl/coordinator/OLogId.java:31-40 | succeeds iff 24 bytes are available, always consumes exactly 24 bytes (even for the sentinel), yields null iff the first long is -1, and otherwise the identifier of the three longs read |
| LogIds.DeserializeOnto | distributed-v2/src/main/java/com/orientechnologies/orient/distributed/impl/coordinator/OLogId.java:19-40 | any 24 bytes that decode to an identifier are exactly that identifier's serialization |
| LogIds.RoundTrip | distributed-v2/src/main/java/com/orientechnologies/orient/distributed/impl/coordinator/OLogId.java:19-40 | decoding an encoding followed by any bytes restores null, or any id whose `id` is not -1, and leaves the following bytes untouched |
| LogIds.MinusOneIdReadsAsAbsent | distributed-v2/src/main/java/com/orientechnologies/orient/distributed/impl/coordinator/OLogId.java:35-36 | a non-null id with `id == -1` decodes to null whatever its two terms, so it does not round-trip |
| LogIds.CompareTo | distributed-v2/src/main/java/com/orientechnologies/orient/distributed/impl/coordinator/OLogId.java:47-50 | orders by `id` alone: 0 iff the ids are equal, negative iff this `id` is smaller, always in -1..1 |
| LogIds.CompareToIsTotalPreorder | distributed-v2/src/main/java/com/orientechnologies/orient/distributed/impl/coordinator/OLogId.java:47-50 | the comparison is antisymmetric in sign and transitive |
| LogIds.Equals | distributed-v2/src/main/java/com/orientechnologies/orient/distributed/impl/coordinator/OLogId.java:61-69 | true iff the other object is a non-null log id with all three fields equal |
| LogIds.EqualsImpliesSameOrder | distributed-v2/src/main/java/com/orientechnologies/orient/distributed/impl/coordinator/OLogId.java:47-69 | equal log ids compare as 0 |
| LogIds.SameOrderDoesNotImplyEquals | distributed-v2/src/main/java/com/orientechnologies/orient/distributed/impl/coordinator/OLogId.java:47-69 | two log ids with the same `id` and different terms compare as 0 but are not equal |
| SyncRequests.Serialize | distributed-v2/src/main/java/com/orientechnologies/orient/distributed/impl/structural/submit/OSyncRequest.java:27-35 | an absent id is the single byte `false`; a present one is `true` followed by its 24-byte encoding, 25 bytes in all |
| SyncRequests.Deserialize | distributed-v2/src/main/java/com/orientechnologies/orient/distributed/impl/structural/submit/OSyncRequest.java:37-45 | no byte: end of stream; flag false: empty id, one byte consumed; flag true: succeeds iff 24 further bytes exist and consumes 25 |
| SyncRequests.RoundTrip | distributed-v2/src/main/java/com/orientechnologies/orient/distributed/impl/structural/submit/OSyncRequest.java:27-45 | decoding restores an empty id, and a present id whose `id` is not -1, with the following bytes left over |
| SyncRequests.FlagWithSentinelDecodesEmpty | distributed-v2/src/main/java/com/orientechnologies/orient/distributed/impl/structural/submit/OSyncRequest.java:40-41 | `true` followed by the null sentinel decodes to an empty id, not to an error |
| SyncRequests.RequestType | distributed-v2/src/main/java/com/orientechnologies/orient/distributed/impl/structural/submit/OSyncRequest.java:47-50 | the request type is SYNC_SUBMIT_REQUEST |
| SyncRequests.Begin | distributed-v2/src/main/java/com/orientechnologies/orient/distributed/impl/structural/submit/OSyncRequest.java:52-59 | fails with NoSuchElement iff the requester is absent; otherwise exactly one leader call, addressed to the requester: `tryResend` with the log id iff one is present, else `sendFullConfiguration` |
| SyncRequests.SentinelPositionGetsFullConfiguration | distributed-v2/src/main/java/com/orientechnologies/orient/distributed/impl/structural/submit/OSyncRequest.java:27-59 | a request for position id -1, once serialized and decoded, is served a full configuration instead of a resend |
| LastOpIdRequests.Serialize | distributed-v2/src/main/java/com/orientechnologies/orient/distributed/impl/structural/operations/ODatabaseLastOpIdRequest.java:39-43 | fails iff `writeUTF` rejects the database name; otherwise the UTF name followed by the 4-byte big-endian term |
| LastOpIdRequests.Deserialize | distributed-v2/src/main/java/com/orientechnologies/orient/distributed/impl/structural/operations/ODatabaseLastOpIdRequest.java:33-37 | fewer than 2 bytes is end of stream; a success consumes at least 6 bytes and leaves a suffix of the input |
| LastOpIdRequests.RoundTrip | distributed-v2/src/main/java/com/orientechnologies/orient/distributed/impl/structural/operations/ODatabaseLastOpIdRequest.java:33-43 | decoding the encoding restores database and term and leaves the following bytes |
| LastOpIdRequests.Apply | distributed-v2/src/main/java/com/orientechnologies/orient/distributed/impl/structural/operations/ODatabaseLastOpIdRequest.java:27-31 | one message, to the sender, with the same database and term, whose id is empty iff `lastPersistentLog()` is null and equal to it otherwise |
| LastOpIdRequests.OperationId | distributed-v2/src/main/java/com/orientechnologies/orient/distributed/impl/structural/operations/ODatabaseLastOpIdRequest.java:45-48 | the operation id is DATABASE_LAST_OPLOG_ID_RESPONSE |
| LastOpIdRequests.SharesOperationIdWithResponse | distributed-v2/src/main/java/com/orientechnologies/orient/distributed/impl/structural/operations/ODatabaseLastOpIdRequest.java:46-48 | request and response report the same operation id |
| LastOpIdRequests.AnswerRoundTrip | distributed-v2/src/main/java/com/orientechnologies/orient/distributed/impl/structural/operations/ODatabaseLastOpIdRequest.java:28-31 | the answer a node sends decodes, at the requester, to the same database and term and to its last log id (when that id is not -1) |
| LastOpIdResponses.Serialize | distributed-v2/src/main/java/com/orientechnologies/orient/distributed/impl/structural/operations/ODatabaseLastOpIdResponse.java:45-55 | fails iff `writeUTF` rejects the name; otherwise UTF name, int32 term, presence flag, then the 24-byte log id only when present |
| LastOpIdResponses.Deserialize | distributed-v2/src/main/java/com/orientechnologies/orient/distributed/impl/structural/operations/ODatabaseLastOpIdResponse.java:34-43 | succeeds iff the name reads, 5 more bytes follow, and, with the flag set, 24 further bytes whose first long is not -1; the decoded name, term, flag and identifier are those read, so a present id never has `id == -1` |
| LastOpIdResponses.ReadHead | distributed-v2/src/main/java/com/orientechnologies/orient/distributed/impl/structural/operations/ODatabaseLastOpIdResponse.java:35-38 | the name, term and flag are read back in the order written |
| LastOpIdResponses.RoundTrip | distributed-v2/src/main/java/com/orientechnologies/orient/distributed/impl/structural/operations/ODatabaseLastOpIdResponse.java:34-55 | decoding restores an empty id, and a present id whose `id` is not -1, together with name and term |
| LastOpIdResponses.FlagWithSentinelFails | distributed-v2/src/main/java/com/orientechnologies/orient/distributed/impl/structural/operations/ODatabaseLastOpIdResponse.java:38-39 | a set flag followed by the null sentinel makes decoding fail (`Optional.of(null)`) |
| LastOpIdResponses.MinusOneIdIsRejected | distributed-v2/src/main/java/com/orientechnologies/orient/distributed/impl/structural/operations/ODatabaseLastOpIdResponse.java:34-55 | a response whose id has `id == -1` serializes but cannot be decoded |
| LastOpIdResponses.Apply | distributed-v2/src/main/java/com/orientechnologies/orient/distributed/impl/structural/operations/ODatabaseLastOpIdResponse.java:29-32 | forwards sender, database, term and id unchanged to the election context |
| LastOpIdResponses.OperationId | distributed-v2/src/main/java/com/orientechnologies/orient/distributed/impl/structural/operations/ODatabaseLastOpIdResponse.java:57-60 | the operation id is DATABASE_LAST_OPLOG_ID_RESPONSE |
| Elections.ElectionReply.constructor | distributed-v2/src/main/java/com/orientechnologies/orient/distributed/OElectionReply.java:12-15 | a reply holds the sender and the id it was given |
| Elections.Election.constructor | distributed-v2/src/main/java/com/orientechnologies/orient/distributed/OElection.java:15-18 | quorum and term are the two arguments in that order; no replies |
| Elections.Election.AddReply | distributed-v2/src/main/java/com/orientechnologies/orient/distributed/OElection.java:20-24 | a reply with the election's term is appended as a new reply object; any other term leaves the replies unchanged |
| Elections.Election.CheckElection | distributed-v2/src/main/java/com/orientechnologies/orient/distributed/OElection.java:26-33 | never picks a winner, whatever the replies |
| Elections.ElectionContext.constructor | distributed-v2/src/main/java/com/orientechnologies/orient/distributed/OElectionContext.java:12 | no elections |
| Elections.ElectionContext.StartElection | distributed-v2/src/main/java/com/orientechnologies/orient/distributed/OElectionContext.java:14-19 | returns 1 and puts a fresh election under the name, replacing any earlier one, with the arguments swapped: its term is the quorum argument and its quorum is 1 |
| Elections.ElectionContext.Received | distributed-v2/src/main/java/com/orientechnologies/orient/distributed/OElectionContext.java:21-24 | fails with a null dereference iff the database has no election; otherwise that election adds the reply; other elections are unchanged |
| Elections.ReplyToReturnedTerm | distributed-v2/src/main/java/com/orientechnologies/orient/distributed/OElectionContext.java:14-24 | an answer tagged with the term `startElection` returned is counted iff the quorum argument was 1 |
| Elections.StaleVoteIgnored | distributed-v2/src/main/java/com/orientechnologies/orient/distributed/OElection.java:20-24 | after `startElection("db1", 1)` a term-0 answer is dropped, and two term-1 answers from one sender are two distinct replies |
| Elections.AnswerWithoutElection | distributed-v2/src/main/java/com/orientechnologies/orient/distributed/OElectionContext.java:21-24 | an answer for a database with no election is a null dereference |
| Coordinator.RequestContext.constructor | distributed-v2/src/main/java/com/orientechnologies/orient/distributed/impl/coordinator/ODistributedCoordinator.java:61 | a context holds the submit and node requests, the member snapshot, the handler and the id, with no responses |
| Coordinator.RequestContext.Receive | distributed-v2/src/main/java/com/orientechnologies/orient/distributed/impl/coordinator/ODistributedCoordinator.java:50 | a response is recorded after the earlier ones |
| Coordinator.DistributedCoordinator.constructor | distributed-v2/src/main/java/com/orientechnologies/orient/distributed/impl/coordinator/ODistributedCoordinator.java:27-36 | no log entries, contexts, members or messages |
| Coordinator.DistributedCoordinator.Submit | distributed-v2/src/main/java/com/orientechnologies/orient/distributed/impl/coordinator/ODistributedCoordinator.java:38-42 | the request's `begin` is called with the member and operation id given |
| Coordinator.DistributedCoordinator.Reply | distributed-v2/src/main/java/com/orientechnologies/orient/distributed/impl/coordinator/ODistributedCoordinator.java:44-46 | one replay to the member, for this database and operation id, is sent |
| Coordinator.DistributedCoordinator.Receive | distributed-v2/src/main/java/com/orientechnologies/orient/distributed/impl/coordinator/ODistributedCoordinator.java:48-52 | fails with a null dereference iff no context has the id; otherwise only that context records the response |
| Coordinator.DistributedCoordinator.Log | distributed-v2/src/main/java/com/orientechnologies/orient/distributed/impl/coordinator/ODistributedCoordinator.java:54-56 | the request is appended to the operation log, which assigns the next id |
| Coordinator.DistributedCoordinator.SendOperation | distributed-v2/src/main/java/com/orientechnologies/orient/distributed/impl/coordinator/ODistributedCoordinator.java:58-67 | a fresh context under the newly logged id, holding a snapshot of the current members, and one request to exactly those members |
| Coordinator.DistributedCoordinator.Join | distributed-v2/src/main/java/com/orientechnologies/orient/distributed/impl/coordinator/ODistributedCoordinator.java:69-71 | the member set gains the node |
| Coordinator.DistributedCoordinator.Finish | distributed-v2/src/main/java/com/orientechnologies/orient/distributed/impl/coordinator/ODistributedCoordinator.java:89-91 | the context of the id is removed and nothing else |
| Coordinator.DistributedCoordinator.Leave | distributed-v2/src/main/java/com/orientechnologies/orient/distributed/impl/coordinator/ODistributedCoordinator.java:105-107 | the member set loses the node |
| Coordinator.SnapshotIsKept | distributed-v2/src/main/java/com/orientechnologies/orient/distributed/impl/coordinator/ODistributedCoordinator.java:58-71 | a context keeps the members of its sending time after membership changes |
| Coordinator.ReceiveAfterFinish | distributed-v2/src/main/java/com/orientechnologies/orient/distributed/impl/coordinator/ODistributedCoordinator.java:48-91 | a response for a finished request is a null dereference |
| Phase1.RequestOf | distributed/src/main/java/com/orientechnologies/orient/server/distributed/impl/task/OTransactionPhase1Task.java:68-81 | a request copies kind, version, id and record type; it has payload and content flag iff the kind is CREATED or UPDATED |
| Phase1.GenRequestsFollowsOps | distributed/src/main/java/com/orientechnologies/orient/server/distributed/impl/task/OTransactionPhase1Task.java:64-84 | `genOps` emits, in order, exactly one request per non-LOADED operation |
| Phase1.GenRequestsShape | distributed/src/main/java/com/orientechnologies/orient/server/distributed/impl/task/OTransactionPhase1Task.java:64-84 | no emitted request is LOADED, and a request has a payload iff it is CREATED or UPDATED |
| Phase1.NonLoadedIsNotLoaded | distributed/src/main/java/com/orientechnologies/orient/server/distributed/impl/task/OTransactionPhase1Task.java:66-67 | the operations `genOps` keeps are never LOADED |
| Phase1.RecordFor | distributed/src/main/java/com/orientechnologies/orient/server/distributed/impl/task/OTransactionPhase1Task.java:166-183 | the rebuilt record has the request's id and version, and for CREATED/UPDATED its type and payload |
| Phase1.ConvertUndoesGenOps | distributed/src/main/java/com/orientechnologies/orient/server/distributed/impl/task/OTransactionPhase1Task.java:159-188 | converting what `genOps` emitted gives back, in order, one operation per non-LOADED original with its kind, id and version (and payload for CREATED/UPDATED) |
| Phase1.ExecuteTransaction | distributed/src/main/java/com/orientechnologies/orient/server/distributed/impl/task/OTransactionPhase1Task.java:119-142 | null iff `beginDistributedTx` returns false, success iff it returns true, and one payload per exception kind carrying that exception's data |
| Phase1.LockTimeoutsAreTerminal | distributed/src/main/java/com/orientechnologies/orient/server/distributed/impl/task/OTransactionPhase1Task.java:130-133 | record and key lock exceptions give terminal lock-timeout payloads, not a retry |
| Phase1.ClusterIdSumWraps | distributed/src/main/java/com/orientechnologies/orient/server/distributed/impl/task/OTransactionPhase1Task.java:235-238 | the `reduce` over cluster ids is their sum in 32-bit wrapping arithmetic |
| Phase1.PartitionHintExample | distributed/src/main/java/com/orientechnologies/orient/server/distributed/impl/task/OTransactionPhase1Task.java:235-238 | cluster ids [2, 2, 5] give 9, a LOADED operation included |
| Phase1.StreamRoundTrip | distributed/src/main/java/com/orientechnologies/orient/server/distributed/impl/task/OTransactionPhase1Task.java:144-202 | `fromStream` reads back exactly the requests `toStream` wrote, and the LSN when its segment is not -1 |
| Phase1.MinusOneSegmentIsLost | distributed/src/main/java/com/orientechnologies/orient/server/distributed/impl/task/OTransactionPhase1Task.java:144-202 | a task whose LSN is (-1, p) writes it with position p, and a replica's `fromStream` of that stream succeeds and leaves the LSN null |
| Phase1.Phase1Task.constructor | distributed/src/main/java/com/orientechnologies/orient/server/distributed/impl/task/OTransactionPhase1Task.java:53-56 | empty `ops` and `operations`, WRITE quorum, no retries, no LSN, no response |
| Phase1.Phase1Task.FromOps | distributed/src/main/java/com/orientechnologies/orient/server/distributed/impl/task/OTransactionPhase1Task.java:58-62 | keeps the operations and fills `operations` with their requests |
| Phase1.Phase1Task.GenOps | distributed/src/main/java/com/orientechnologies/orient/server/distributed/impl/task/OTransactionPhase1Task.java:64-84 | appends the requests for the non-LOADED operations to `operations` |
| Phase1.Phase1Task.Init | distributed/src/main/java/com/orientechnologies/orient/server/distributed/impl/task/OTransactionPhase1Task.java:209-219 | quorum ALL iff some index operation resolves to a unique index (else unchanged); `ops` replaced; their requests appended |
| Phase1.Phase1Task.PartitionKey | distributed/src/main/java/com/orientechnologies/orient/server/distributed/impl/task/OTransactionPhase1Task.java:235-238 | one element: the 32-bit wrapped sum of the cluster ids of `ops` |
| Phase1.Phase1Task.DistributedTimeout | distributed/src/main/java/com/orientechnologies/orient/server/distributed/impl/task/OTransactionPhase1Task.java:240-243 | the base timeout plus one tenth (rounded down) of the number of requests, when that does not overflow |
| Phase1.Phase1Task.Convert | distributed/src/main/java/com/orientechnologies/orient/server/distributed/impl/task/OTransactionPhase1Task.java:159-188 | appends the converted requests to `ops` and clears `operations` |
| Phase1.Phase1Task.Execute | distributed/src/main/java/com/orientechnologies/orient/server/distributed/impl/task/OTransactionPhase1Task.java:96-112 | converts; on a null payload increments `retryCount`, requeues with the new count, clears `hasResponse` and returns null; otherwise sets `hasResponse` and returns the payload |
| Phase1.Phase1Task.ToStream | distributed/src/main/java/com/orientechnologies/orient/server/distributed/impl/task/OTransactionPhase1Task.java:190-202 | the count, each request, then the LSN, or (-1, -1) when there is none |
| Phase1.Phase1Task.FromStream | distributed/src/main/java/com/orientechnologies/orient/server/distributed/impl/task/OTransactionPhase1Task.java:144-157 | fails iff the stream ends early; appends the entries read; the LSN becomes null iff its segment is -1 |
| Phase1.RetryThenSucceed | distributed/src/main/java/com/orientechnologies/orient/server/distributed/impl/task/OTransactionPhase1Task.java:96-112 | a run whose begin returns false requeues with count 1 and answers nothing; the next, succeeding, run answers success |
| Phase1.SendToReplica | distributed/src/main/java/com/orientechnologies/orient/server/distributed/impl/task/OTransactionPhase1Task.java:144-219 | the requests a replica reads from the stream are the ones `init` built, and no LSN arrives |
| ChainedIndexProxy.SupportNullValues | core/src/main/java/com/orientechnologies/orient/core/sql/OChainedIndexProxy.java:253-260 | true iff the metadata is present and its `ignoreNullValues` is explicitly false |
| ChainedIndexProxy.PriorityOfUsage | core/src/main/java/com/orientechnologies/orient/core/sql/OChainedIndexProxy.java:181-221 | 21 for a single-field hash index, 16 for a single-field UNIQUE/NOTUNIQUE index, 6 for a composite UNIQUE/NOTUNIQUE index that keeps nulls, -1 for everything else and for null |
| ChainedIndexProxy.HashOverTreeOverComposite | core/src/main/java/com/orientechnologies/orient/core/sql/OChainedIndexProxy.java:164-165 | a hash index scores above a tree index, which scores above a composite one |
| ChainedIndexProxy.IsAppropriateAsBase | core/src/main/java/com/orientechnologies/orient/core/sql/OChainedIndexProxy.java:223-237 | true iff the index is UNIQUE/NOTUNIQUE or a single-field hash index and, if composite, keeps nulls |
| ChainedIndexProxy.BestIndexIsFirstMaximum | core/src/main/java/com/orientechnologies/orient/core/sql/OChainedIndexProxy.java:172-179 | null iff every index scores -1; otherwise the first of the highest-scoring indexes |
| ChainedIndexProxy.BestIndexIsAppropriate | core/src/main/java/com/orientechnologies/orient/core/sql/OChainedIndexProxy.java:172-237 | the index `findBestIndex` picks is appropriate as a base |
| ChainedIndexProxy.FindBestIndex | core/src/main/java/com/orientechnologies/orient/core/sql/OChainedIndexProxy.java:172-179 | keeps the running best, which is the specification's first maximum |
| ChainedIndexProxy.LinkedClass | core/src/main/java/com/orientechnologies/orient/core/sql/OChainedIndexProxy.java:153 | fails iff the property is missing |
| ChainedIndexProxy.BaseFromIsAppropriate | core/src/main/java/com/orientechnologies/orient/core/sql/OChainedIndexProxy.java:141-156 | a non-null base list has one index per base link, each appropriate as a base |
| ChainedIndexProxy.PrepareBaseIndexes | core/src/main/java/com/orientechnologies/orient/core/sql/OChainedIndexProxy.java:141-156 | an empty chain is an illegal capacity; a null class is dereferenced; null as soon as a link has no usable index; otherwise the best index of each link |
| ChainedIndexProxy.TreeAdd | core/src/main/java/com/orientechnologies/orient/core/sql/OChainedIndexProxy.java:126 | the parameter-count TreeSet stays strictly ordered and ignores an index whose parameter count it already holds |
| ChainedIndexProxy.TreeAddAllKeepsFirst | core/src/main/java/com/orientechnologies/orient/core/sql/OChainedIndexProxy.java:126-128 | the TreeSet holds only given indexes, every parameter count they have, and the first index of each count |
| ChainedIndexProxy.FirstPerClassProperties | core/src/main/java/com/orientechnologies/orient/core/sql/OChainedIndexProxy.java:129-136 | the class filter keeps, in order, indexes of pairwise different internal classes, covering every class of its input |
| ChainedIndexProxy.FirstPerClassKeepsFirst | core/src/main/java/com/orientechnologies/orient/core/sql/OChainedIndexProxy.java:129-136 | for each internal class, the index kept is the first index of that class in iteration order |
| ChainedIndexProxy.LastIndexVariantsAreDistinct | core/src/main/java/com/orientechnologies/orient/core/sql/OChainedIndexProxy.java:115-139 | the variants are indexes of the last link in ascending parameter count, no two sharing a parameter count or an internal class |
| ChainedIndexProxy.PrepareLastIndexVariants | core/src/main/java/com/orientechnologies/orient/core/sql/OChainedIndexProxy.java:115-139 | a missing property is dereferenced; a null linked class gives no variants; otherwise the first index per class of the parameter-count set |
| ChainedIndexProxy.ChainsAreBasePlusVariant | core/src/main/java/com/orientechnologies/orient/core/sql/OChainedIndexProxy.java:94-113 | no chain when a base link has no usable index; otherwise one chain per variant, the base indexes followed by the variant, as long as the field chain |
| ChainedIndexProxy.GetIndexesForChain | core/src/main/java/com/orientechnologies/orient/core/sql/OChainedIndexProxy.java:94-113 | computes exactly the chains above, with the errors of its two helpers |
| ChainedIndexProxy.GetIndexNames | core/src/main/java/com/orientechnologies/orient/core/sql/OChainedIndexProxy.java:266-273 | the names of the chain's indexes, in order |
| ChainedIndexProxy.JoinedAgrees | core/src/main/java/com/orientechnologies/orient/core/sql/OChainedIndexProxy.java:280-285 | the loop's join is the first name followed by ", " and each further name |
| ChainedIndexProxy.GetName | core/src/main/java/com/orientechnologies/orient/core/sql/OChainedIndexProxy.java:275-290 | "IndexChain{" + the names joined by ", " + "}" |
| ChainedIndexProxy.GetRebuildVersion | core/src/main/java/com/orientechnologies/orient/core/sql/OChainedIndexProxy.java:242-251 | the sum of the rebuild versions in 64-bit wrapping arithmetic |
| ClusterDeleteRecord.RecordBytes | core/src/main/java/com/orientechnologies/orient/core/storage/impl/local/paginated/wal/co/paginatedcluster/OPaginatedClusterDeleteRecordCO.java:51-54 | 12 bytes: the big-endian int cluster id, then the big-endian long position |
| ClusterDeleteRecord.ParseRecord | core/src/main/java/com/orientechnologies/orient/core/storage/impl/local/paginated/wal/co/paginatedcluster/OPaginatedClusterDeleteRecordCO.java:57-60 | succeeds iff 12 bytes are available |
| ClusterDeleteRecord.RecordRoundTrip | core/src/main/java/com/orientechnologies/orient/core/storage/impl/local/paginated/wal/co/paginatedcluster/OPaginatedClusterDeleteRecordCO.java:51-60 | reading what was written restores cluster id and position |
| ClusterDeleteRecord.RecordLayoutIsOnto | core/src/main/java/com/orientechnologies/orient/core/storage/impl/local/paginated/wal/co/paginatedcluster/OPaginatedClusterDeleteRecordCO.java:57-60 | any 12 bytes are the layout of the pair they are read as |
| ClusterDeleteRecord.ByteBuffer.PutInt | core/src/main/java/com/orientechnologies/orient/core/storage/impl/local/paginated/wal/co/paginatedcluster/OPaginatedClusterDeleteRecordCO.java:52 | four bytes at the position and position + 4, or an overflow that changes nothing |
| ClusterDeleteRecord.ByteBuffer.PutLong | core/src/main/java/com/orientechnologies/orient/core/storage/impl/local/paginated/wal/co/paginatedcluster/OPaginatedClusterDeleteRecordCO.java:53 | eight bytes at the position and position + 8, or an overflow that changes nothing |
| ClusterDeleteRecord.ByteBuffer.GetInt | core/src/main/java/com/orientechnologies/orient/core/storage/impl/local/paginated/wal/co/paginatedcluster/OPaginatedClusterDeleteRecordCO.java:58 | the int at the position and position + 4, or an underflow that changes nothing |
| ClusterDeleteRecord.ByteBuffer.GetLong | core/src/main/java/com/orientechnologies/orient/core/storage/impl/local/paginated/wal/co/paginatedcluster/OPaginatedClusterDeleteRecordCO.java:59 | the long at the position and position + 8, or an underflow that changes nothing |
| ClusterDeleteRecord.DeleteRecordCO.Empty | core/src/main/java/com/orientechnologies/orient/core/storage/impl/local/paginated/wal/co/paginatedcluster/OPaginatedClusterDeleteRecordCO.java:20-21 | every field at its Java default: null content and zeros |
| ClusterDeleteRecord.DeleteRecordCO.constructor | core/src/main/java/com/orientechnologies/orient/core/storage/impl/local/paginated/wal/co/paginatedcluster/OPaginatedClusterDeleteRecordCO.java:31-38 | every field from its argument |
| ClusterDeleteRecord.DeleteRecordCO.Redo | core/src/main/java/com/orientechnologies/orient/core/storage/impl/local/paginated/wal/co/paginatedcluster/OPaginatedClusterDeleteRecordCO.java:40-43 | deletes exactly (cluster id, position) |
| ClusterDeleteRecord.DeleteRecordCO.Undo | core/src/main/java/com/orientechnologies/orient/core/storage/impl/local/paginated/wal/co/paginatedcluster/OPaginatedClusterDeleteRecordCO.java:45-48 | recreates with the stored cluster id, content, version, type and position |
| ClusterDeleteRecord.DeleteRecordCO.SerializeToByteBuffer | core/src/main/java/com/orientechnologies/orient/core/storage/impl/local/paginated/wal/co/paginatedcluster/OPaginatedClusterDeleteRecordCO.java:50-54 | writes the 12-byte layout at the position iff it fits; with room for only the int, the int is written before the overflow |
| ClusterDeleteRecord.DeleteRecordCO.DeserializeFromByteBuffer | core/src/main/java/com/orientechnologies/orient/core/storage/impl/local/paginated/wal/co/paginatedcluster/OPaginatedClusterDeleteRecordCO.java:56-60 | reads cluster id then position iff 12 bytes remain; with only the int available, the cluster id is already assigned; content, version and type are untouched |
| ClusterDeleteRecord.DeleteRecordCO.SerializedSize | core/src/main/java/com/orientechnologies/orient/core/storage/impl/local/paginated/wal/co/paginatedcluster/OPaginatedClusterDeleteRecordCO.java:62-65 | the header size plus 12, the bytes this record writes, in 32-bit arithmetic |
| ClusterDeleteRecord.DeleteRecordCO.GetId | core/src/main/java/com/orientechnologies/orient/core/storage/impl/local/paginated/wal/co/paginatedcluster/OPaginatedClusterDeleteRecordCO.java:67-70 | the record type is always CLUSTER_DELETE_RECORD_CO, a symbolic constant |
| ClusterDeleteRecord.RoundTripThroughBuffer | core/src/main/java/com/orientechnologies/orient/core/storage/impl/local/paginated/wal/co/paginatedcluster/OPaginatedClusterDeleteRecordCO.java:16-60 | written to a buffer and read into a default record, cluster id and position come back and content, version and type keep their defaults |

## Left out

- `OLogId.hashCode`, the getters, `getFactoryId`, `isIdempotent`, `getName` of
  the phase-1 task and `OChainedIndexProxy.getDatabaseName`: plain accessors or
  hashing with nothing to state beyond their bodies.
- `writeUTF`/`readUTF`: Java's modified UTF-8 is replaced by an injective
  encoder. It keeps the 2-byte length prefix and the 65535-byte body limit, but
  writes every character as three bytes. Java writes one byte for U+0001..U+007F,
  two for U+0000 and U+0080..U+07FF, three for U+0800..U+FFFF, and six for a
  supplementary character (a surrogate pair). So the byte counts differ for
  ASCII, for U+0000..U+07FF and for supplementary characters, and agree only for
  U+0800..U+FFFF.
- LastOpIdRequests.Serialize: fails for database names longer than 21845
  characters, because of the three-bytes-per-character stand-in for `writeUTF`.
  Java accepts an ASCII name of up to 65535 characters.
- LastOpIdResponses.Serialize: the same limit as LastOpIdRequests.Serialize. A
  name longer than 21845 characters is rejected, which Java accepts when it is
  ASCII.
- `ODistributedCoordinator`:
  - the timer, `close`, `executeOperation` and the executor's concurrency (tasks
    run immediately and in order);
  - `ConcurrentHashMap` semantics;
  - the lock manager and allocator getters.
- `ORequestContext`'s quorum evaluation, handler call and timeout task:
  `ORequestContext` is not part of this model. A context only records the
  responses it receives.
- `OTransactionPhase1Task`:
  - the record serializer, the `OMessageHelper` entry format and the
    `OLogSequenceNumber` byte format are abstract. The stream is a sequence of
    items: count, entries, LSN.
  - `beginDistributedTx` and `reEnqueue` internals are left out; the begin
    outcome is a parameter and the requeue is recorded.
  - `hasResponse` volatility is left out.
  - `leftLimit`/`rightLimit` are left out; nothing in the class reads them.
- `Phase1.RecordFor`: a CREATED/UPDATED request's record is its payload bytes,
  with no null-payload exception and the content-changed flag cleared. A
  DELETED request's record is the stored one, or a new record of the request's
  type.
- `Phase1.Phase1Task.Init`: whether an index operation resolves to a unique
  index is a field of the operation. A `resolveAssociatedIndex` returning null
  (a null dereference in the code) is not modelled.
- `Phase1.Phase1Task.ToStream`: requires fewer than 2^31 requests, the range of
  the `int` count it writes.
- The exception hierarchy of the phase-1 catch clauses: each outcome is taken to
  match exactly one clause, because the subclass relations are not known here.
- `OChainedIndexProxy`:
  - `get`, `applyTailIndexes`, `applyFirstIndex`, `iterateEntries*`,
    `prepareKeys`, `updateStatistic` and the unsupported-operation stubs are
    index lookups, streams and profiler I/O;
  - `createProxies` and the constructor only wrap each chain. A proxy is its
    chain of indexes.
- `ChainedIndexProxy.PriorityOfUsage`: an index type string outside
  `OClass.INDEX_TYPE` (where `valueOf` throws) cannot occur, because the type is
  an enumeration.
- `ChainedIndexProxy.LinkedClass`: a linked class whose name is not in the
  schema map is treated as no linked class.
- `OPaginatedClusterDeleteRecordCO`:
  - the effects of `redo`/`undo` on storage are foreign calls and are
    returned as call descriptions;
  - the superclass header is a size parameter;
  - `WALRecordTypes` is not part of this model, so `getId` returns a
    symbolic constant;
  - the buffer's limit is its capacity, with big-endian order.

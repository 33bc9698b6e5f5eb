/**
 * OTransactionPhase1Task: the first phase of a distributed transaction. It turns
 * a transaction's record operations into wire requests, chooses the quorum,
 * computes a partition hint and a timeout, and on a replica converts the
 * requests back into operations, runs them and classifies the outcome.
 *
 * Record serialization (ORecordSerializerNetworkDistributed), the transaction
 * entry encoding (OMessageHelper) and the log-sequence-number format stay
 * abstract: a record carries the bytes its serializer would produce, and the
 * task's stream is a sequence of items (an int, an entry, a sequence number).
 */
module Phase1 {
  import opened Wrappers
  import opened Bytes

  /** ORecordOperation's operation types. */
  datatype OperationType = Loaded | Updated | Deleted | Created

  datatype RecordId = RecordId(clusterId: int32, clusterPosition: int64)

  /**
   * A record as the phase-1 task sees it: identity, version, record type, the bytes its
   * network serializer writes, and its content-changed flag.
   */
  datatype Record = Record(rid: RecordId, version: int32, recordType: byte, stream: seq<byte>, contentChanged: bool)

  datatype RecordOperation = RecordOperation(kind: OperationType, record: Record)

  /** ORecordOperationRequest; `record` is null and `contentChanged` false unless set. */
  datatype OperationRequest = OperationRequest(
    kind: OperationType, version: int32, id: RecordId, recordType: byte,
    record: Option<seq<byte>>, contentChanged: bool)

  datatype QuorumType = Write | All

  /** OLogSequenceNumber. */
  datatype Lsn = Lsn(segment: int64, position: int64)

  /** `ORecordSerializer` keys of index entries are opaque. */
  datatype IndexKey = IndexKey(token: string)

  /** What `beginDistributedTx` does: returns a flag, or throws one of these. */
  datatype BeginOutcome =
    | Returned(began: bool)
    | ConcurrentModificationThrown(rid: RecordId, enhancedVersion: int32)
    | RecordLockedThrown(node: string, rid: RecordId)
    | KeyLockedThrown(node: string, key: IndexKey)
    | RecordDuplicatedThrown(rid: RecordId, indexName: string, key: IndexKey)
    | ConcurrentCreateThrown(actualRid: RecordId, expectedRid: RecordId)
    | OtherRuntimeThrown(cause: string)

  /** OTransactionResultPayload and its subclasses. */
  datatype ResultPayload =
    | TxSuccess
    | TxConcurrentModification(rid: RecordId, version: int32)
    | TxRecordLockTimeout(node: string, lockedRid: RecordId)
    | TxKeyLockTimeout(node: string, key: IndexKey)
    | TxUniqueIndex(duplicateRid: RecordId, indexName: string, indexKey: IndexKey)
    | TxConcurrentCreation(actualRid: RecordId, expectedRid: RecordId)
    | TxException(cause: string)

  /** OTransactionPhase1TaskResult. */
  datatype TaskResult = TaskResult(payload: ResultPayload)

  /** One entry of `getIndexOperations()`: whether the index it resolves to is unique. */
  datatype IndexOperation = IndexOperation(indexName: string, resolvesToUnique: bool)

  /** The parts of OTransactionInternal that `init` reads. */
  datatype Transaction = Transaction(indexOperations: seq<IndexOperation>, recordOperations: seq<RecordOperation>)

  /** The parts of the phase-1 task's stream. */
  datatype StreamItem = IntItem(value: int32) | EntryItem(entry: OperationRequest) | LsnItem(lsn: Lsn)

  // ---------------------------------------------------------------------------
  // genOps
  // ---------------------------------------------------------------------------

  predicate CarriesPayload(kind: OperationType) {
    kind == Created || kind == Updated
  }

  /** The request `genOps` builds for one operation that is not LOADED. */
  function RequestOf(op: RecordOperation): (r: OperationRequest)
    ensures r.kind == op.kind && r.version == op.record.version && r.id == op.record.rid
    ensures r.recordType == op.record.recordType
    ensures r.record.Some? <==> CarriesPayload(op.kind)
    ensures CarriesPayload(op.kind) ==> r.record.value == op.record.stream && r.contentChanged == op.record.contentChanged
    ensures !CarriesPayload(op.kind) ==> !r.contentChanged
  {
    var base := OperationRequest(op.kind, op.record.version, op.record.rid, op.record.recordType, None, false);
    if CarriesPayload(op.kind) then base.(record := Some(op.record.stream), contentChanged := op.record.contentChanged)
    else base
  }

  /** The requests `genOps` appends for `ops`, in the order the loop builds them. */
  function GenRequests(ops: seq<RecordOperation>): seq<OperationRequest>
  {
    if ops == [] then []
    else
      var op := ops[|ops| - 1];
      GenRequests(ops[..|ops| - 1]) + (if op.kind == Loaded then [] else [RequestOf(op)])
  }

  /** The operations that are not LOADED, in order (an independent reference definition). */
  function NonLoaded(ops: seq<RecordOperation>): (r: seq<RecordOperation>)
    ensures |r| <= |ops|
  {
    if ops == [] then [] else (if ops[0].kind == Loaded then [] else [ops[0]]) + NonLoaded(ops[1..])
  }

  lemma {:induction false} NonLoadedAppend(a: seq<RecordOperation>, op: RecordOperation)
    ensures NonLoaded(a + [op]) == NonLoaded(a) + (if op.kind == Loaded then [] else [op])
  {
    if a == [] {
      assert NonLoaded([op]) == (if op.kind == Loaded then [] else [op]) + NonLoaded([]);
    } else {
      assert (a + [op])[1..] == a[1..] + [op];
      NonLoadedAppend(a[1..], op);
    }
  }

  /**
   * `genOps` skips LOADED operations and builds one request per other operation,
   * in order; only CREATED and UPDATED requests carry the serialized record.
   */
  lemma {:induction false} GenRequestsFollowsOps(ops: seq<RecordOperation>)
    ensures |GenRequests(ops)| == |NonLoaded(ops)|
    ensures forall j :: 0 <= j < |GenRequests(ops)| ==> GenRequests(ops)[j] == RequestOf(NonLoaded(ops)[j])
  {
    if ops != [] {
      var init, op := ops[..|ops| - 1], ops[|ops| - 1];
      assert ops == init + [op];
      GenRequestsFollowsOps(init);
      NonLoadedAppend(init, op);
    }
  }

  /** No request `genOps` builds is a LOADED one, and a request has a payload iff it creates or updates. */
  lemma GenRequestsShape(ops: seq<RecordOperation>)
    ensures forall j :: 0 <= j < |GenRequests(ops)| ==>
      GenRequests(ops)[j].kind != Loaded && (GenRequests(ops)[j].record.Some? <==> CarriesPayload(GenRequests(ops)[j].kind))
  {
    GenRequestsFollowsOps(ops);
    forall j | 0 <= j < |GenRequests(ops)|
      ensures GenRequests(ops)[j].kind != Loaded
    {
      NonLoadedIsNotLoaded(ops, j);
    }
  }

  lemma {:induction false} NonLoadedIsNotLoaded(ops: seq<RecordOperation>, j: nat)
    requires j < |NonLoaded(ops)|
    ensures NonLoaded(ops)[j].kind != Loaded
  {
    if ops[0].kind == Loaded {
      NonLoadedIsNotLoaded(ops[1..], j);
    } else if j > 0 {
      NonLoadedIsNotLoaded(ops[1..], j - 1);
    }
  }

  // ---------------------------------------------------------------------------
  // convert
  // ---------------------------------------------------------------------------

  /**
   * The record `convert` rebuilds from a request that is not LOADED. A CREATED or
   * UPDATED record is deserialized from the request's bytes (modelled as a record
   * that carries those bytes and the request's record type); a DELETED record is
   * the stored one, or a new empty instance of the request's record type. In all
   * cases the request's identity and version are then set on it.
   */
  function RecordFor(req: OperationRequest, stored: map<RecordId, Record>): (r: Record)
    ensures r.rid == req.id && r.version == req.version
    ensures CarriesPayload(req.kind) ==> r.recordType == req.recordType && r.stream == req.record.GetOr([])
  {
    if CarriesPayload(req.kind) then Record(req.id, req.version, req.recordType, req.record.GetOr([]), false)
    else if req.id in stored then stored[req.id].(rid := req.id, version := req.version)
    else Record(req.id, req.version, req.recordType, [], false)
  }

  /** The operations `convert` appends to `ops` for `reqs`. */
  function Converted(reqs: seq<OperationRequest>, stored: map<RecordId, Record>): seq<RecordOperation>
  {
    if reqs == [] then []
    else
      var req := reqs[|reqs| - 1];
      Converted(reqs[..|reqs| - 1], stored)
        + (if req.kind == Loaded then [] else [RecordOperation(req.kind, RecordFor(req, stored))])
  }

  lemma {:induction false} ConvertedAppend(a: seq<OperationRequest>, b: seq<OperationRequest>, stored: map<RecordId, Record>)
    ensures Converted(a + b, stored) == Converted(a, stored) + Converted(b, stored)
    decreases |b|
  {
    if b == [] {
      assert a + b == a;
    } else {
      var init, req := b[..|b| - 1], b[|b| - 1];
      assert a + b == (a + init) + [req];
      assert (a + b)[..|a + b| - 1] == a + init;
      ConvertedAppend(a, init, stored);
    }
  }

  /** What the replica's operation keeps of the originating one. */
  predicate SameOperation(replica: RecordOperation, origin: RecordOperation) {
    && replica.kind == origin.kind
    && replica.record.rid == origin.record.rid
    && replica.record.version == origin.record.version
    && (CarriesPayload(origin.kind) ==>
          replica.record.stream == origin.record.stream && replica.record.recordType == origin.record.recordType)
  }

  /**
   * The requests `genOps` builds, converted back on a replica, give one operation
   * per originating operation that is not LOADED, in order, with the same type,
   * identity and version, and for creations and updates the same bytes.
   */
  lemma {:induction false} ConvertUndoesGenOps(ops: seq<RecordOperation>, stored: map<RecordId, Record>)
    ensures |Converted(GenRequests(ops), stored)| == |NonLoaded(ops)|
    ensures forall j :: 0 <= j < |NonLoaded(ops)| ==> SameOperation(Converted(GenRequests(ops), stored)[j], NonLoaded(ops)[j])
  {
    if ops != [] {
      var init, op := ops[..|ops| - 1], ops[|ops| - 1];
      assert ops == init + [op];
      var tail := if op.kind == Loaded then [] else [RequestOf(op)];
      ConvertedAppend(GenRequests(init), tail, stored);
      if tail != [] {
        assert Converted(tail, stored) == Converted([], stored) + [RecordOperation(op.kind, RecordFor(RequestOf(op), stored))];
      }
      ConvertUndoesGenOps(init, stored);
      NonLoadedAppend(init, op);
    }
  }

  // ---------------------------------------------------------------------------
  // executeTransaction
  // ---------------------------------------------------------------------------

  /**
   * `executeTransaction`: `beginDistributedTx` returning true gives OTxSuccess and
   * false gives null (`None`, a retry); each listed exception gives its own
   * payload carrying the exception's data, and any other runtime exception gives
   * OTxException.
   */
  function ExecuteTransaction(outcome: BeginOutcome): (r: Option<ResultPayload>)
    ensures r.None? <==> outcome == Returned(false)
    ensures r == Some(TxSuccess) <==> outcome == Returned(true)
    ensures outcome.ConcurrentModificationThrown? ==> r == Some(TxConcurrentModification(outcome.rid, outcome.enhancedVersion))
    ensures outcome.RecordLockedThrown? ==> r == Some(TxRecordLockTimeout(outcome.node, outcome.rid))
    ensures outcome.KeyLockedThrown? ==> r == Some(TxKeyLockTimeout(outcome.node, outcome.key))
    ensures outcome.RecordDuplicatedThrown? ==> r == Some(TxUniqueIndex(outcome.rid, outcome.indexName, outcome.key))
    ensures outcome.ConcurrentCreateThrown? ==> r == Some(TxConcurrentCreation(outcome.actualRid, outcome.expectedRid))
    ensures outcome.OtherRuntimeThrown? ==> r == Some(TxException(outcome.cause))
  {
    match outcome
    case Returned(began) => if began then Some(TxSuccess) else None
    case ConcurrentModificationThrown(rid, version) => Some(TxConcurrentModification(rid, version))
    case RecordLockedThrown(node, rid) => Some(TxRecordLockTimeout(node, rid))
    case KeyLockedThrown(node, key) => Some(TxKeyLockTimeout(node, key))
    case RecordDuplicatedThrown(rid, indexName, key) => Some(TxUniqueIndex(rid, indexName, key))
    case ConcurrentCreateThrown(actual, expected) => Some(TxConcurrentCreation(actual, expected))
    case OtherRuntimeThrown(cause) => Some(TxException(cause))
  }

  /** A lock that cannot be taken ends the phase-1 task with a lock-timeout payload: it is not retried. */
  lemma LockTimeoutsAreTerminal(outcome: BeginOutcome)
    requires outcome.RecordLockedThrown? || outcome.KeyLockedThrown?
    ensures ExecuteTransaction(outcome).Some?
    ensures ExecuteTransaction(outcome).value.TxRecordLockTimeout? || ExecuteTransaction(outcome).value.TxKeyLockTimeout?
  {
  }

  // ---------------------------------------------------------------------------
  // getPartitionKey, getDistributedTimeout
  // ---------------------------------------------------------------------------

  /** The stream reduce of `getPartitionKey`: cluster ids added with Java `int` wrap-around. */
  function ClusterIdSum(ops: seq<RecordOperation>): int32
  {
    if ops == [] then 0 else Wrap32(ClusterIdSum(ops[..|ops| - 1]) + ops[|ops| - 1].record.rid.clusterId)
  }

  /** The mathematical sum of the cluster ids, every operation included. */
  function ExactClusterIdSum(ops: seq<RecordOperation>): int
  {
    if ops == [] then 0 else ops[0].record.rid.clusterId + ExactClusterIdSum(ops[1..])
  }

  lemma {:induction false} ExactSumAppend(a: seq<RecordOperation>, op: RecordOperation)
    ensures ExactClusterIdSum(a + [op]) == ExactClusterIdSum(a) + op.record.rid.clusterId
  {
    if a != [] {
      assert (a + [op])[1..] == a[1..] + [op];
      ExactSumAppend(a[1..], op);
    }
  }

  lemma WrapOfSum(a: int, b: int)
    ensures Wrap32(Wrap32(a) + b) == Wrap32(a + b)
  {
    var k := (a - Wrap32(a)) / TWO_32;
    assert a - Wrap32(a) == k * TWO_32;
    assert (Wrap32(a) + b + TWO_31) == (a + b + TWO_31) - k * TWO_32;
  }

  /** The running wrapped sum is the exact sum taken modulo 2^32. */
  lemma {:induction false} ClusterIdSumWraps(ops: seq<RecordOperation>)
    ensures ClusterIdSum(ops) == Wrap32(ExactClusterIdSum(ops))
  {
    if ops != [] {
      var init, op := ops[..|ops| - 1], ops[|ops| - 1];
      assert ops == init + [op];
      ClusterIdSumWraps(init);
      ExactSumAppend(init, op);
      WrapOfSum(ExactClusterIdSum(init), op.record.rid.clusterId);
    }
  }

  /** Cluster ids [2, 2, 5] give the hint 9: a sum, not a set, and LOADED operations count too. */
  lemma PartitionHintExample(r: Record)
    ensures var ops := [RecordOperation(Created, r.(rid := RecordId(2, 0))),
                        RecordOperation(Loaded, r.(rid := RecordId(2, 1))),
                        RecordOperation(Deleted, r.(rid := RecordId(5, 0)))];
            ClusterIdSum(ops) == 9
  {
    var ops := [RecordOperation(Created, r.(rid := RecordId(2, 0))),
                RecordOperation(Loaded, r.(rid := RecordId(2, 1))),
                RecordOperation(Deleted, r.(rid := RecordId(5, 0)))];
    ClusterIdSumWraps(ops);
    assert ops[1..][1..][1..] == [];
    assert ExactClusterIdSum(ops) == 2 + ExactClusterIdSum(ops[1..]) == 2 + 2 + ExactClusterIdSum(ops[1..][1..]) == 9;
  }

  /** Reading the stream back: the entries read before the reader stops, at most `n`. */
  function EntriesRead(items: seq<StreamItem>, n: int): (r: seq<OperationRequest>)
    ensures |r| <= |items| && (n <= 0 ==> r == [])
    decreases |items|
  {
    if n <= 0 || items == [] || !items[0].EntryItem? then [] else [items[0].entry] + EntriesRead(items[1..], n - 1)
  }

  lemma {:induction false} EntriesReadStep(items: seq<StreamItem>, i: nat)
    requires i < |items|
    requires forall k :: 0 <= k <= i ==> items[k].EntryItem?
    ensures EntriesRead(items, i + 1) == EntriesRead(items, i) + [items[i].entry]
  {
    if i > 0 {
      EntriesReadStep(items[1..], i - 1);
    }
  }

  /** The items `toStream` writes: the count, the entries, then the sequence number or (-1, -1). */
  function StreamOf(operations: seq<OperationRequest>, lastLsn: Option<Lsn>): (r: seq<StreamItem>)
    requires |operations| < TWO_31
    ensures |r| == |operations| + 2
  {
    [IntItem(|operations|)] + seq(|operations|, (i: int) requires 0 <= i < |operations| => EntryItem(operations[i]))
      + [LsnItem(lastLsn.GetOr(Lsn(-1, -1)))]
  }

  lemma {:induction false} EntriesReadAll(items: seq<StreamItem>, operations: seq<OperationRequest>)
    requires |items| >= |operations|
    requires forall k :: 0 <= k < |operations| ==> items[k] == EntryItem(operations[k])
    requires |items| > |operations| ==> !items[|operations|].EntryItem?
    ensures EntriesRead(items, |operations|) == operations
  {
    if operations != [] {
      EntriesReadAll(items[1..], operations[1..]);
    }
  }

  /** The number of entries the count announces (a negative count reads none). */
  function EntryCount(input: seq<StreamItem>): nat
    requires input != [] && input[0].IntItem?
  {
    if input[0].value < 0 then 0 else input[0].value as nat
  }

  /** The stream holds its count, that many entries, then a sequence number. */
  predicate StreamReadable(input: seq<StreamItem>) {
    && input != [] && input[0].IntItem?
    && |EntriesRead(input[1..], EntryCount(input))| == EntryCount(input)
    && 1 + EntryCount(input) < |input| && input[1 + EntryCount(input)].LsnItem?
  }

  function LsnRead(input: seq<StreamItem>): Lsn
    requires StreamReadable(input)
  {
    input[1 + EntryCount(input)].lsn
  }

  lemma {:induction false} EntriesReadStops(items: seq<StreamItem>, i: nat, n: int)
    requires i < n && i <= |items|
    requires forall k :: 0 <= k < i ==> items[k].EntryItem?
    requires i == |items| || !items[i].EntryItem?
    ensures EntriesRead(items, n) == EntriesRead(items, i) && |EntriesRead(items, i)| == i
  {
    if i > 0 {
      EntriesReadStops(items[1..], i - 1, n - 1);
    }
  }

  /**
   * What `toStream` writes, `fromStream` reads back: the same requests, and the
   * same sequence number unless its segment is -1, which reads as null whatever
   * its position.
   */
  lemma StreamRoundTrip(operations: seq<OperationRequest>, lastLsn: Option<Lsn>)
    requires |operations| < TWO_31
    ensures var items := StreamOf(operations, lastLsn);
      && StreamReadable(items)
      && EntriesRead(items[1..], items[0].value) == operations
      && LsnRead(items) == lastLsn.GetOr(Lsn(-1, -1))
  {
    var items := StreamOf(operations, lastLsn);
    EntriesReadAll(items[1..], operations);
  }

  // ---------------------------------------------------------------------------
  // The phase-1 task
  // ---------------------------------------------------------------------------

  class Phase1Task {
    var hasResponse: bool
    var lastLSN: Option<Lsn>
    var ops: seq<RecordOperation>
    var operations: seq<OperationRequest>
    var quorumType: QuorumType
    var retryCount: int32

    /** The no-argument constructor used before `fromStream`. */
    constructor ()
      ensures ops == [] && operations == [] && quorumType == Write && retryCount == 0
      ensures lastLSN == None && !hasResponse
    {
      ops := [];
      operations := [];
      quorumType := Write;
      retryCount := 0;
      lastLSN := None;
      hasResponse := false;
    }

    /** `new OTransactionPhase1Task(ops)`: keeps `ops` and builds their requests. */
    constructor FromOps(ops: seq<RecordOperation>)
      ensures this.ops == ops && operations == GenRequests(ops)
      ensures quorumType == Write && retryCount == 0 && lastLSN == None && !hasResponse
    {
      this.ops := ops;
      operations := [];
      quorumType := Write;
      retryCount := 0;
      lastLSN := None;
      hasResponse := false;
      new;
      GenOps(ops);
    }

    /** `genOps`: appends one request per operation that is not LOADED. */
    method GenOps(source: seq<RecordOperation>)
      modifies this`operations
      ensures operations == old(operations) + GenRequests(source)
    {
      var i := 0;
      while i < |source|
        invariant 0 <= i <= |source|
        invariant operations == old(operations) + GenRequests(source[..i])
      {
        var txEntry := source[i];
        assert source[..i + 1][..i] == source[..i];
        if txEntry.kind != Loaded {
          var request := RequestOf(txEntry);
          operations := operations + [request];
        }
        i := i + 1;
      }
      assert source[..|source|] == source;
    }

    /**
     * `init(transaction)`: the quorum becomes ALL as soon as one index operation
     * resolves to a unique index (and stays as it was otherwise); the phase-1 task then
     * takes the transaction's record operations and appends their requests.
     */
    method Init(transaction: Transaction)
      modifies this`quorumType, this`ops, this`operations
      ensures quorumType == if exists k :: 0 <= k < |transaction.indexOperations| && transaction.indexOperations[k].resolvesToUnique
                            then All else old(quorumType)
      ensures ops == transaction.recordOperations
      ensures operations == old(operations) + GenRequests(transaction.recordOperations)
    {
      var indexOps := transaction.indexOperations;
      var i := 0;
      while i < |indexOps|
        invariant 0 <= i <= |indexOps|
        invariant quorumType == old(quorumType)
        invariant forall k :: 0 <= k < i ==> !indexOps[k].resolvesToUnique
      {
        if indexOps[i].resolvesToUnique {
          quorumType := All;
          break;
        }
        i := i + 1;
      }
      ops := transaction.recordOperations;
      GenOps(ops);
    }

    /** `getPartitionKey`: one hint, the wrapped sum of the cluster ids of all `ops`. */
    function PartitionKey(): (key: seq<int32>)
      reads this
      ensures |key| == 1 && key[0] == Wrap32(ExactClusterIdSum(ops))
    {
      ClusterIdSumWraps(ops);
      [ClusterIdSum(ops)]
    }

    /** `getDistributedTimeout`: one more unit for every ten requests, in `long` arithmetic. */
    function DistributedTimeout(baseTimeout: int64): (t: int64)
      reads this
      ensures baseTimeout + |operations| / 10 < TWO_63 ==> t - baseTimeout == |operations| / 10
    {
      Wrap64(baseTimeout + |operations| / 10)
    }

    /**
     * `convert`: appends the rebuilt operation of every request that is not LOADED
     * to `ops`, then clears `operations`.
     */
    method Convert(stored: map<RecordId, Record>)
      modifies this`ops, this`operations
      ensures ops == old(ops) + Converted(old(operations), stored)
      ensures operations == []
    {
      var i := 0;
      while i < |operations|
        invariant 0 <= i <= |operations| && operations == old(operations)
        invariant ops == old(ops) + Converted(operations[..i], stored)
      {
        var req := operations[i];
        assert operations[..i + 1][..i] == operations[..i];
        if req.kind != Loaded {
          var record := RecordFor(req, stored);
          ops := ops + [RecordOperation(req.kind, record)];
        }
        i := i + 1;
      }
      assert operations[..|operations|] == operations;
      operations := [];
    }

    /**
     * `execute`: converts the requests, runs the transaction and, when
     * `beginDistributedTx` returns false, increments `retryCount`, re-enqueues the
     * task with the new count (`requeued`), clears `hasResponse` and returns null;
     * otherwise it sets `hasResponse` and wraps the payload.
     */
    method Execute(stored: map<RecordId, Record>, begin: BeginOutcome)
      returns (result: Option<TaskResult>, requeued: Option<int32>)
      modifies this`ops, this`operations, this`retryCount, this`hasResponse
      ensures ops == old(ops) + Converted(old(operations), stored) && operations == []
      ensures ExecuteTransaction(begin).None? ==>
        && retryCount == Wrap32(old(retryCount) + 1) && requeued == Some(retryCount)
        && !hasResponse && result == None
      ensures ExecuteTransaction(begin).Some? ==>
        && retryCount == old(retryCount) && requeued == None
        && hasResponse && result == Some(TaskResult(ExecuteTransaction(begin).value))
    {
      Convert(stored);
      var res1 := ExecuteTransaction(begin);
      if res1.None? {
        retryCount := Wrap32(retryCount + 1);
        requeued := Some(retryCount);
        hasResponse := false;
        result := None;
        return;
      }
      requeued := None;
      hasResponse := true;
      result := Some(TaskResult(res1.value));
    }

    /** `toStream`: the count, every request, then the sequence number or (-1, -1). */
    method ToStream() returns (out: seq<StreamItem>)
      requires |operations| < TWO_31
      ensures out == StreamOf(operations, lastLSN)
    {
      out := [IntItem(|operations|)];
      for i := 0 to |operations|
        invariant |out| == i + 1 && out[0] == IntItem(|operations|)
        invariant forall k :: 0 <= k < i ==> out[k + 1] == EntryItem(operations[k])
      {
        out := out + [EntryItem(operations[i])];
      }
      out := out + [LsnItem(if lastLSN.None? then Lsn(-1, -1) else lastLSN.value)];
    }

    /**
     * `fromStream`: reads the count and appends that many requests; then reads a
     * sequence number, which becomes null when its segment is -1 (the check
     * tests the segment twice and never the position). A missing or misplaced
     * item throws, keeping the requests appended so far.
     */
    method FromStream(input: seq<StreamItem>) returns (failure: Option<Exception>)
      modifies this`operations, this`lastLSN
      ensures failure.None? <==> StreamReadable(input)
      ensures failure.Some? ==> failure.value == EndOfStream && lastLSN == old(lastLSN)
      ensures input == [] || !input[0].IntItem? ==> operations == old(operations)
      ensures input != [] && input[0].IntItem? ==> operations == old(operations) + EntriesRead(input[1..], input[0].value)
      ensures failure.None? ==> lastLSN == if LsnRead(input).segment == -1 then None else Some(LsnRead(input))
    {
      if input == [] || !input[0].IntItem? {
        return Some(EndOfStream);
      }
      var size := input[0].value;
      var items := input[1..];
      var i := 0;
      while i < size
        invariant 0 <= i <= EntryCount(input) && i <= |items|
        invariant forall k :: 0 <= k < i ==> items[k].EntryItem?
        invariant operations == old(operations) + EntriesRead(items, i)
        invariant |EntriesRead(items, i)| == i && lastLSN == old(lastLSN)
      {
        if i >= |items| || !items[i].EntryItem? {
          EntriesReadStops(items, i, size);
          return Some(EndOfStream);
        }
        EntriesReadStep(items, i);
        operations := operations + [items[i].entry];
        i := i + 1;
      }
      assert i == EntryCount(input);
      assert EntriesRead(items, size) == EntriesRead(items, i);
      if i >= |items| || !items[i].LsnItem? {
        return Some(EndOfStream);
      }
      var lsn := items[i].lsn;
      if lsn.segment == -1 && lsn.segment == -1 {
        lastLSN := None;
      } else {
        lastLSN := Some(lsn);
      }
      failure := None;
    }
  }

  /**
   * A task whose first run finds `beginDistributedTx` returning false answers
   * nothing, counts one retry and re-enqueues itself; run again when the
   * transaction can begin, it answers OTxSuccess. The operations are converted
   * once, on the first run.
   */
  method RetryThenSucceed(ops: seq<RecordOperation>, stored: map<RecordId, Record>)
    returns (first: Option<TaskResult>, requeued: Option<int32>, second: Option<TaskResult>, retries: int32)
    ensures first == None && requeued == Some(1)
    ensures second == Some(TaskResult(TxSuccess)) && retries == 1
  {
    var task := new Phase1Task.FromOps(ops);
    first, requeued := task.Execute(stored, Returned(false));
    var again;
    second, again := task.Execute(stored, Returned(true));
    retries := task.retryCount;
  }

  /**
   * A task built from a transaction, sent with `toStream` and read by a fresh
   * task with `fromStream`, arrives with the same requests and with no sequence
   * number when it had none.
   */
  method SendToReplica(transaction: Transaction) returns (sent: seq<OperationRequest>, received: seq<OperationRequest>, lsn: Option<Lsn>)
    requires |GenRequests(transaction.recordOperations)| < TWO_31
    ensures received == sent == GenRequests(transaction.recordOperations)
    ensures lsn == None
  {
    var task := new Phase1Task();
    task.Init(transaction);
    var stream := task.ToStream();
    StreamRoundTrip(task.operations, task.lastLSN);
    var replica := new Phase1Task();
    var failure := replica.FromStream(stream);
    sent, received, lsn := task.operations, replica.operations, replica.lastLSN;
  }

  /**
   * A task whose sequence number is (-1, p) writes it with its position p, and a
   * replica reading that stream succeeds but ends with no sequence number: the
   * position is lost on the wire even when it is not -1.
   */
  method MinusOneSegmentIsLost(p: int64) returns (written: Lsn, failure: Option<Exception>, received: Option<Lsn>)
    ensures written == Lsn(-1, p)
    ensures failure == None && received == None
  {
    var task := new Phase1Task();
    task.lastLSN := Some(Lsn(-1, p));
    var stream := task.ToStream();
    StreamRoundTrip(task.operations, task.lastLSN);
    var replica := new Phase1Task();
    failure := replica.FromStream(stream);
    written := LsnRead(stream);
    received := replica.lastLSN;
  }
}

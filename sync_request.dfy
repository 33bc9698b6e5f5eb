/**
 * OSyncRequest: a catch-up request carrying the last log position the requester
 * knows, if any. Its `begin` asks the leader either to resend from that position
 * or to send the full configuration.
 */
module SyncRequests {
  import opened Wrappers
  import opened Bytes
  import opened Identities
  import LogIds

  datatype SyncRequest = SyncRequest(logId: Option<LogIds.LogId>)

  /** The OLeaderContext call `begin` makes. */
  datatype LeaderCall =
    | TryResend(node: NodeId, from: LogIds.LogId)
    | SendFullConfiguration(node: NodeId)

  /** `serialize`: a present flag, followed by the 24-byte identifier only when present. */
  function Serialize(r: SyncRequest): (out: seq<byte>)
    ensures |out| == if r.logId.Some? then 1 + LogIds.LOG_ID_SIZE else 1
    ensures out[..1] == BooleanBytes(r.logId.Some?)
    ensures r.logId.Some? ==> out[1..] == LogIds.Serialize(r.logId)
  {
    match r.logId
    case Some(id) => BooleanBytes(true) + LogIds.Serialize(Some(id))
    case None => BooleanBytes(false)
  }

  /**
   * `deserialize`: reads the flag and, when it is set, an identifier; the
   * identifier's null (the -1 sentinel) becomes an empty `logId`
   * (`Optional.ofNullable`).
   */
  function Deserialize(s: seq<byte>): (r: Result<Decoded<SyncRequest>>)
    ensures |s| == 0 ==> r == Err(EndOfStream)
    ensures |s| > 0 && s[0] == 0 ==> r == Ok(Decoded(SyncRequest(None), s[1..]))
    ensures |s| > 0 && s[0] != 0 ==> (r.Ok? <==> |s| >= 1 + LogIds.LOG_ID_SIZE)
    ensures |s| > 0 && s[0] != 0 && r.Ok? ==> r.value.rest == s[1 + LogIds.LOG_ID_SIZE..]
  {
    match ReadBoolean(s)
    case Err(e) => Err(e)
    case Ok(Decoded(isPresent, s1)) =>
      if isPresent then
        match LogIds.Deserialize(s1)
        case Err(e) => Err(e)
        case Ok(Decoded(id, s2)) => Ok(Decoded(SyncRequest(id), s2))
      else Ok(Decoded(SyncRequest(None), s1))
  }

  /** Round trip: restores `logId` when it is empty or its id is not -1. */
  lemma RoundTrip(r: SyncRequest, rest: seq<byte>)
    requires r.logId.None? || r.logId.value.id != -1
    ensures Deserialize(Serialize(r) + rest) == Ok(Decoded(r, rest))
  {
    var s := Serialize(r) + rest;
    ReadBooleanOfBytes(r.logId.Some?, Serialize(r)[1..] + rest);
    assert s == BooleanBytes(r.logId.Some?) + (Serialize(r)[1..] + rest);
    if r.logId.Some? {
      LogIds.RoundTrip(r.logId, rest);
    }
  }

  /** A set flag followed by the sentinel decodes to an empty `logId`, not to an error. */
  lemma FlagWithSentinelDecodesEmpty(rest: seq<byte>)
    ensures Deserialize(BooleanBytes(true) + LogIds.Serialize(None) + rest) == Ok(Decoded(SyncRequest(None), rest))
  {
    var s := BooleanBytes(true) + LogIds.Serialize(None) + rest;
    assert s == BooleanBytes(true) + (LogIds.Serialize(None) + rest);
    ReadBooleanOfBytes(true, LogIds.Serialize(None) + rest);
    LogIds.RoundTrip(None, rest);
  }

  function RequestType(r: SyncRequest): (t: MessageType)
    ensures t == SyncSubmitRequest
  {
    SyncSubmitRequest
  }

  /**
   * `begin(requester, id, context)`: exactly one leader call, `tryResend` when a
   * position is present and `sendFullConfiguration` otherwise, both to
   * `requester.get()`; an empty requester raises NoSuchElementException before
   * any call is made.
   */
  function Begin(r: SyncRequest, requester: Option<NodeId>, id: SessionOperationId): (out: Result<LeaderCall>)
    ensures out.Ok? <==> requester.Some?
    ensures out.Err? ==> out.error == NoSuchElement
    ensures out.Ok? ==> out.value.node == requester.value
    ensures out.Ok? ==> (out.value.TryResend? <==> r.logId.Some?)
    ensures out.Ok? && out.value.TryResend? ==> out.value.from == r.logId.value
  {
    if r.logId.Some? then
      if requester.None? then Err(NoSuchElement) else Ok(TryResend(requester.value, r.logId.value))
    else
      if requester.None? then Err(NoSuchElement) else Ok(SendFullConfiguration(requester.value))
  }

  /**
   * A requester that sends a position whose id is -1 is, after the wire, served a
   * full configuration rather than a resend.
   */
  lemma SentinelPositionGetsFullConfiguration(term: int64, prev: int64, requester: NodeId, id: SessionOperationId)
    ensures var sent := SyncRequest(Some(LogIds.LogId(-1, term, prev)));
            var got := Deserialize(Serialize(sent));
            got.Ok? && Begin(got.value.value, Some(requester), id) == Ok(SendFullConfiguration(requester))
  {
    var sent := SyncRequest(Some(LogIds.LogId(-1, term, prev)));
    var s := Serialize(sent);
    assert s == BooleanBytes(true) + (LogIds.Serialize(sent.logId) + []);
    ReadBooleanOfBytes(true, LogIds.Serialize(sent.logId) + []);
    LogIds.MinusOneIdReadsAsAbsent(term, prev, []);
  }
}

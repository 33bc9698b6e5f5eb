/**
 * ODatabaseLastOpIdRequest: asks a node for the last persistent log position of
 * a database during an election of the given term.
 */
module LastOpIdRequests {
  import opened Wrappers
  import opened Bytes
  import opened Identities
  import LogIds
  import LastOpIdResponses

  datatype LastOpIdRequest = LastOpIdRequest(database: string, term: int32)

  /** The network send `apply` performs. */
  datatype Send = Send(to: NodeId, response: LastOpIdResponses.LastOpIdResponse)

  /** `serialize`: the UTF database name followed by the 4-byte big-endian term. */
  function Serialize(r: LastOpIdRequest): (out: Result<seq<byte>>)
    ensures out.Ok? <==> WriteUtf(r.database).Ok?
    ensures out.Ok? ==> var name := WriteUtf(r.database).value;
      |out.value| == |name| + 4 && out.value[..|name|] == name && out.value[|name|..] == Int32Bytes(r.term)
  {
    match WriteUtf(r.database)
    case Err(e) => Err(e)
    case Ok(name) => Ok(name + Int32Bytes(r.term))
  }

  /** `deserialize`: `readUTF` then `readInt`. */
  function Deserialize(s: seq<byte>): (r: Result<Decoded<LastOpIdRequest>>)
    ensures |s| < 2 ==> r == Err(EndOfStream)
    ensures r.Ok? ==> |r.value.rest| + 6 <= |s| && r.value.rest == s[|s| - |r.value.rest|..]
  {
    match ReadUtf(s)
    case Err(e) => Err(e)
    case Ok(Decoded(database, s1)) =>
      match ReadInt(s1)
      case Err(e) => Err(e)
      case Ok(Decoded(term, s2)) => Ok(Decoded(LastOpIdRequest(database, term), s2))
  }

  /** Round trip: both fields are restored and the reader stops right after them. */
  lemma RoundTrip(r: LastOpIdRequest, rest: seq<byte>)
    requires Serialize(r).Ok?
    ensures Deserialize(Serialize(r).value + rest) == Ok(Decoded(r, rest))
  {
    var name := WriteUtf(r.database).value;
    assert Serialize(r).value + rest == name + (Int32Bytes(r.term) + rest);
    ReadUtfOfWrite(r.database, Int32Bytes(r.term) + rest);
    ReadIntOfBytes(r.term, rest);
  }

  /**
   * `apply(sender, context)`: looks up the database's last persistent log position
   * (`lastPersistentLog`, null when the log is empty) and sends exactly one
   * response back to `sender`, for the same database and term, carrying that
   * position (`Optional.ofNullable`).
   */
  function Apply(r: LastOpIdRequest, sender: NodeId, lastPersistentLog: Option<LogIds.LogId>): (out: Send)
    ensures out.to == sender
    ensures out.response.database == r.database && out.response.term == r.term
    ensures out.response.id == lastPersistentLog
  {
    Send(sender, LastOpIdResponses.LastOpIdResponse(r.database, r.term, lastPersistentLog))
  }

  /** `getOperationId` returns the response's constant, not a request constant of its own. */
  function OperationId(r: LastOpIdRequest): (t: MessageType)
    ensures t == DatabaseLastOplogIdResponse
  {
    DatabaseLastOplogIdResponse
  }

  /** Request and response share one operation id. */
  lemma SharesOperationIdWithResponse(r: LastOpIdRequest, p: LastOpIdResponses.LastOpIdResponse)
    ensures OperationId(r) == LastOpIdResponses.OperationId(p)
  {
  }

  /**
   * The answer to a request survives the wire when the answering node's log is
   * empty or its last position's id is not -1: the asker then learns exactly that
   * position for the database and term it asked about.
   */
  lemma AnswerRoundTrip(r: LastOpIdRequest, sender: NodeId, last: Option<LogIds.LogId>)
    requires WriteUtf(r.database).Ok?
    requires last.None? || last.value.id != -1
    ensures var answer := Apply(r, sender, last).response;
            LastOpIdResponses.Serialize(answer).Ok?
            && LastOpIdResponses.Deserialize(LastOpIdResponses.Serialize(answer).value)
               == Ok(Decoded(LastOpIdResponses.LastOpIdResponse(r.database, r.term, last), []))
  {
    var answer := Apply(r, sender, last).response;
    LastOpIdResponses.RoundTrip(answer, []);
    assert LastOpIdResponses.Serialize(answer).value + [] == LastOpIdResponses.Serialize(answer).value;
  }
}

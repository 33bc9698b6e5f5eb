/**
 * ODatabaseLastOpIdResponse: a node's answer to a last-operation-id request,
 * carrying the database, the election term it answers and the node's last
 * persistent log position, if any.
 */
module LastOpIdResponses {
  import opened Wrappers
  import opened Bytes
  import opened Identities
  import LogIds

  datatype LastOpIdResponse = LastOpIdResponse(database: string, term: int32, id: Option<LogIds.LogId>)

  /** The one call `apply` makes: `OElectionContext.received(sender, database, term, id)`. */
  datatype ElectionNotice = Received(sender: NodeId, database: string, term: int32, id: Option<LogIds.LogId>)

  /**
   * `serialize`: the UTF database name, the int term, a present flag, then the
   * 24-byte identifier only when present; fails only where writeUTF does.
   */
  function Serialize(r: LastOpIdResponse): (out: Result<seq<byte>>)
    ensures out.Ok? <==> WriteUtf(r.database).Ok?
    ensures out.Ok? ==> var name := WriteUtf(r.database).value;
      && |out.value| == |name| + 5 + (if r.id.Some? then LogIds.LOG_ID_SIZE else 0)
      && out.value[..|name|] == name
      && out.value[|name|..|name| + 4] == Int32Bytes(r.term)
      && out.value[|name| + 4..|name| + 5] == BooleanBytes(r.id.Some?)
      && out.value[|name| + 5..] == (if r.id.Some? then LogIds.Serialize(r.id) else [])
  {
    match WriteUtf(r.database)
    case Err(e) => Err(e)
    case Ok(name) =>
      var head := name + Int32Bytes(r.term);
      if r.id.Some? then Ok(head + BooleanBytes(true) + LogIds.Serialize(r.id))
      else Ok(head + BooleanBytes(false))
  }

  /**
   * `deserialize`: reads the name, the term and the flag; with the flag set it
   * reads an identifier and wraps it with `Optional.of`, which throws
   * NullPointerException when the identifier read is the -1 sentinel.
   */
  function Deserialize(s: seq<byte>): (r: Result<Decoded<LastOpIdResponse>>)
    ensures r.Ok? <==> (ReadUtf(s).Ok? && |ReadUtf(s).value.rest| >= 5
      && (ReadUtf(s).value.rest[4] != 0 ==>
            |ReadUtf(s).value.rest| >= 5 + LogIds.LOG_ID_SIZE && ReadUtf(s).value.rest[5..13] != Int64Bytes(-1)))
    ensures r.Ok? ==> var t := ReadUtf(s).value.rest;
      && r.value.value.database == ReadUtf(s).value.value
      && r.value.value.term == Int32Of(t[..4])
      && (r.value.value.id.Some? <==> t[4] != 0)
      && (r.value.value.id.Some? ==> r.value.value.id == LogIds.Deserialize(t[5..]).value.value
                                     && r.value.rest == t[5 + LogIds.LOG_ID_SIZE..])
      && (r.value.value.id.None? ==> r.value.rest == t[5..])
    ensures r.Ok? && r.value.value.id.Some? ==> r.value.value.id.value.id != -1
  {
    match ReadUtf(s)
    case Err(e) => Err(e)
    case Ok(Decoded(database, s1)) =>
      match ReadInt(s1)
      case Err(e) => Err(e)
      case Ok(Decoded(term, s2)) =>
        match ReadBoolean(s2)
        case Err(e) => Err(e)
        case Ok(Decoded(present, s3)) =>
          if present then
            match LogIds.Deserialize(s3)
            case Err(e) => Err(e)
            case Ok(Decoded(id, s4)) =>
              if id.None? then Err(NullDereference)
              else
                Int64RoundTrip(-1);
                Ok(Decoded(LastOpIdResponse(database, term, id), s4))
          else Ok(Decoded(LastOpIdResponse(database, term, None), s3))
  }

  /** How the fixed-width fields after the name read back. */
  lemma ReadHead(database: string, term: int32, present: bool, tail: seq<byte>)
    requires WriteUtf(database).Ok?
    ensures var s := WriteUtf(database).value + Int32Bytes(term) + BooleanBytes(present) + tail;
      && ReadUtf(s) == Ok(Decoded(database, Int32Bytes(term) + BooleanBytes(present) + tail))
      && ReadInt(Int32Bytes(term) + BooleanBytes(present) + tail) == Ok(Decoded(term, BooleanBytes(present) + tail))
      && ReadBoolean(BooleanBytes(present) + tail) == Ok(Decoded(present, tail))
  {
    var name := WriteUtf(database).value;
    assert name + Int32Bytes(term) + BooleanBytes(present) + tail
        == name + (Int32Bytes(term) + BooleanBytes(present) + tail);
    assert Int32Bytes(term) + BooleanBytes(present) + tail == Int32Bytes(term) + (BooleanBytes(present) + tail);
    ReadUtfOfWrite(database, Int32Bytes(term) + BooleanBytes(present) + tail);
    ReadIntOfBytes(term, BooleanBytes(present) + tail);
    ReadBooleanOfBytes(present, tail);
  }

  /** Round trip: holds for an empty `id` and for a present `id` whose id is not -1. */
  lemma RoundTrip(r: LastOpIdResponse, rest: seq<byte>)
    requires Serialize(r).Ok?
    requires r.id.None? || r.id.value.id != -1
    ensures Deserialize(Serialize(r).value + rest) == Ok(Decoded(r, rest))
  {
    var name := WriteUtf(r.database).value;
    var head := name + Int32Bytes(r.term);
    if r.id.Some? {
      var tail := LogIds.Serialize(r.id) + rest;
      calc {
        Serialize(r).value + rest;
        head + BooleanBytes(true) + LogIds.Serialize(r.id) + rest;
        name + Int32Bytes(r.term) + BooleanBytes(true) + tail;
      }
      ReadHead(r.database, r.term, true, tail);
      LogIds.RoundTrip(r.id, rest);
    } else {
      calc {
        Serialize(r).value + rest;
        head + BooleanBytes(false) + rest;
        name + Int32Bytes(r.term) + BooleanBytes(false) + rest;
      }
      ReadHead(r.database, r.term, false, rest);
    }
  }

  /** A set flag followed by the sentinel makes `deserialize` fail with NullPointerException. */
  lemma FlagWithSentinelFails(database: string, term: int32, rest: seq<byte>)
    requires WriteUtf(database).Ok?
    ensures Deserialize(WriteUtf(database).value + Int32Bytes(term) + BooleanBytes(true)
                        + LogIds.Serialize(None) + rest) == Err(NullDereference)
  {
    var tail := LogIds.Serialize(None) + rest;
    assert WriteUtf(database).value + Int32Bytes(term) + BooleanBytes(true) + LogIds.Serialize(None) + rest
        == WriteUtf(database).value + Int32Bytes(term) + BooleanBytes(true) + tail;
    ReadHead(database, term, true, tail);
    LogIds.RoundTrip(None, rest);
  }

  /** A response carrying an identifier with id -1 can be sent but not received. */
  lemma MinusOneIdIsRejected(database: string, term: int32, t: int64, p: int64)
    requires WriteUtf(database).Ok?
    ensures var r := LastOpIdResponse(database, term, Some(LogIds.LogId(-1, t, p)));
            Serialize(r).Ok? && Deserialize(Serialize(r).value) == Err(NullDereference)
  {
    var r := LastOpIdResponse(database, term, Some(LogIds.LogId(-1, t, p)));
    var tail := LogIds.Serialize(r.id);
    assert Serialize(r).value == WriteUtf(database).value + Int32Bytes(term) + BooleanBytes(true) + tail;
    ReadHead(database, term, true, tail);
    assert tail + [] == tail;
    LogIds.MinusOneIdReadsAsAbsent(t, p, []);
  }

  /** `apply(sender, context)`: forwards exactly its four values to the election context. */
  function Apply(r: LastOpIdResponse, sender: NodeId): (n: ElectionNotice)
    ensures n.sender == sender && n.database == r.database && n.term == r.term && n.id == r.id
  {
    Received(sender, r.database, r.term, r.id)
  }

  function OperationId(r: LastOpIdResponse): (t: MessageType)
    ensures t == DatabaseLastOplogIdResponse
  {
    DatabaseLastOplogIdResponse
  }
}

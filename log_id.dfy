/**
 * OLogId: a position in the replicated operation log, the triple
 * (id, term, previousIdTerm), with its 24-byte wire format, its ordering
 * (by id only) and its equality (all three fields).
 */
module LogIds {
  import opened Wrappers
  import opened Bytes

  datatype LogId = LogId(id: int64, term: int64, previousIdTerm: int64)

  const LOG_ID_SIZE: nat := 24

  /**
   * `serialize(id, output)`: the three longs in the order id, term, previousIdTerm;
   * a null identifier (`None`) is written as three -1 longs.
   */
  function Serialize(l: Option<LogId>): (r: seq<byte>)
    ensures |r| == LOG_ID_SIZE
    ensures l.Some? ==> r[..8] == Int64Bytes(l.value.id) && r[8..16] == Int64Bytes(l.value.term)
                        && r[16..] == Int64Bytes(l.value.previousIdTerm)
    ensures l.None? ==> r[..8] == r[8..16] == r[16..] == Int64Bytes(-1)
  {
    match l
    case None => Int64Bytes(-1) + Int64Bytes(-1) + Int64Bytes(-1)
    case Some(x) => Int64Bytes(x.id) + Int64Bytes(x.term) + Int64Bytes(x.previousIdTerm)
  }

  /**
   * `deserialize(input)`: reads three longs, whatever they hold, and yields null
   * (`None`) when the first one is -1.
   */
  function Deserialize(s: seq<byte>): (r: Result<Decoded<Option<LogId>>>)
    ensures r.Ok? <==> |s| >= LOG_ID_SIZE
    ensures r.Ok? ==> r.value.rest == s[LOG_ID_SIZE..]
    ensures r.Ok? ==> (r.value.value.None? <==> s[..8] == Int64Bytes(-1))
    ensures r.Ok? && r.value.value.Some? ==>
      r.value.value.value == LogId(Int64Of(s[..8]), Int64Of(s[8..16]), Int64Of(s[16..24]))
  {
    match ReadLong(s)
    case Err(e) => Err(e)
    case Ok(Decoded(val, s1)) =>
      match ReadLong(s1)
      case Err(e) => Err(e)
      case Ok(Decoded(term, s2)) =>
        match ReadLong(s2)
        case Err(e) => Err(e)
        case Ok(Decoded(previousIdTerm, s3)) =>
          assert s3 == s[LOG_ID_SIZE..];
          assert s1[..8] == s[8..16] && s2[..8] == s[16..24];
          Int64RoundTrip(-1);
          if val == -1 then Ok(Decoded(None, s3))
          else Ok(Decoded(Some(LogId(val, term, previousIdTerm)), s3))
  }

  lemma ReadLongs(a: int64, b: int64, c: int64, rest: seq<byte>)
    ensures var s := Int64Bytes(a) + Int64Bytes(b) + Int64Bytes(c) + rest;
            ReadLong(s) == Ok(Decoded(a, Int64Bytes(b) + Int64Bytes(c) + rest))
            && ReadLong(Int64Bytes(b) + Int64Bytes(c) + rest) == Ok(Decoded(b, Int64Bytes(c) + rest))
            && ReadLong(Int64Bytes(c) + rest) == Ok(Decoded(c, rest))
  {
    assert Int64Bytes(a) + Int64Bytes(b) + Int64Bytes(c) + rest
        == Int64Bytes(a) + (Int64Bytes(b) + Int64Bytes(c) + rest);
    assert Int64Bytes(b) + Int64Bytes(c) + rest == Int64Bytes(b) + (Int64Bytes(c) + rest);
    ReadLongOfBytes(a, Int64Bytes(b) + Int64Bytes(c) + rest);
    ReadLongOfBytes(b, Int64Bytes(c) + rest);
    ReadLongOfBytes(c, rest);
  }

  /**
   * Round trip: an absent identifier, or one whose id is not -1, is read back as
   * written, and the reader stops right after its 24 bytes.
   */
  lemma RoundTrip(l: Option<LogId>, rest: seq<byte>)
    requires l.None? || l.value.id != -1
    ensures Deserialize(Serialize(l) + rest) == Ok(Decoded(l, rest))
  {
    match l
    case None => ReadLongs(-1, -1, -1, rest);
    case Some(x) => ReadLongs(x.id, x.term, x.previousIdTerm, rest);
  }

  /** Any 24 bytes that decode to an identifier are the serialization of that identifier. */
  lemma DeserializeOnto(s: seq<byte>)
    requires |s| == LOG_ID_SIZE && Deserialize(s).value.value.Some?
    ensures Serialize(Deserialize(s).value.value) == s
  {
    Int64BytesRoundTrip(s[..8]);
    Int64BytesRoundTrip(s[8..16]);
    Int64BytesRoundTrip(s[16..24]);
    assert s == s[..8] + s[8..16] + s[16..24];
  }

  /**
   * An identifier whose id is -1 reads back as null whatever its term and
   * previous term: such an identifier does not survive the round trip.
   */
  lemma MinusOneIdReadsAsAbsent(term: int64, previousIdTerm: int64, rest: seq<byte>)
    ensures Deserialize(Serialize(Some(LogId(-1, term, previousIdTerm))) + rest) == Ok(Decoded(None, rest))
    ensures Deserialize(Serialize(Some(LogId(-1, term, previousIdTerm))) + rest)
         != Ok(Decoded(Some(LogId(-1, term, previousIdTerm)), rest))
  {
    ReadLongs(-1, term, previousIdTerm, rest);
  }

  /**
   * `compareTo`: `Long.compare` of the ids, -1, 0 or 1; term and previousIdTerm
   * take no part.
   */
  function CompareTo(a: LogId, b: LogId): (r: int)
    ensures r == 0 <==> a.id == b.id
    ensures r < 0 <==> a.id < b.id
    ensures -1 <= r <= 1
  {
    if a.id < b.id then -1 else if a.id == b.id then 0 else 1
  }

  /** `equals(o)`: `o` is a non-null identifier with the same three fields. */
  function Equals(a: LogId, o: Option<LogId>): (r: bool)
    ensures r <==> o == Some(a)
  {
    o.Some? && a.previousIdTerm == o.value.previousIdTerm && a.id == o.value.id && a.term == o.value.term
  }

  /** The ordering is antisymmetric and transitive, hence a total preorder on identifiers. */
  lemma CompareToIsTotalPreorder(a: LogId, b: LogId, c: LogId)
    ensures CompareTo(a, b) == -CompareTo(b, a)
    ensures CompareTo(a, b) <= 0 && CompareTo(b, c) <= 0 ==> CompareTo(a, c) <= 0
  {
  }

  /** Equal identifiers compare as 0 ... */
  lemma EqualsImpliesSameOrder(a: LogId, b: LogId)
    requires Equals(a, Some(b))
    ensures CompareTo(a, b) == 0
  {
  }

  /** ... but identifiers that compare as 0 need not be equal: the ordering is not consistent with equals. */
  lemma SameOrderDoesNotImplyEquals()
    ensures var a, b := LogId(5, 1, 0), LogId(5, 2, 1);
            CompareTo(a, b) == 0 && !Equals(a, Some(b))
  {
  }
}

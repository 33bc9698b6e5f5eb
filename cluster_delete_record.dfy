/**
 * OPaginatedClusterDeleteRecordCO: the write-ahead-log record of a cluster
 * record deletion. Its own part of the serialized form is the cluster id and
 * the record position; the deleted content, version and type travel only in
 * memory, for `undo`.
 */
module ClusterDeleteRecord {
  import opened Wrappers
  import opened Bytes

  /** The bytes this record writes after the superclass header: the int, then the long. */
  function RecordBytes(clusterId: int32, recordPosition: int64): (r: seq<byte>)
    ensures |r| == 12
    ensures r[..4] == Int32Bytes(clusterId) && r[4..] == Int64Bytes(recordPosition)
  {
    Int32Bytes(clusterId) + Int64Bytes(recordPosition)
  }

  /** Reading the same fields back, in the same order. */
  function ParseRecord(s: seq<byte>): (r: Result<(int32, int64)>)
    ensures r.Ok? <==> |s| >= 12
  {
    if |s| < 12 then Err(BufferUnderflow) else Ok((Int32Of(s[..4]), Int64Of(s[4..12])))
  }

  lemma RecordRoundTrip(clusterId: int32, recordPosition: int64, rest: seq<byte>)
    ensures ParseRecord(RecordBytes(clusterId, recordPosition) + rest) == Ok((clusterId, recordPosition))
  {
    var s := RecordBytes(clusterId, recordPosition) + rest;
    assert s[..4] == Int32Bytes(clusterId);
    assert s[4..12] == Int64Bytes(recordPosition);
    Int32RoundTrip(clusterId);
    Int64RoundTrip(recordPosition);
  }

  /** Any 12 bytes are the layout of exactly one (cluster id, position) pair. */
  lemma RecordLayoutIsOnto(s: seq<byte>)
    requires |s| == 12
    ensures RecordBytes(ParseRecord(s).value.0, ParseRecord(s).value.1) == s
  {
    Int32BytesRoundTrip(s[..4]);
    Int64BytesRoundTrip(s[4..12]);
    assert s == s[..4] + s[4..12];
  }

  /**
   * A heap `java.nio.ByteBuffer` in its default big-endian order, with its limit
   * at its capacity: relative puts and gets move `position`, and one that does not
   * fit throws and changes nothing.
   */
  class ByteBuffer {
    const data: array<byte>
    var position: nat

    ghost predicate Valid()
      reads this
    {
      position <= data.Length
    }

    function Remaining(): nat
      reads this
      requires Valid()
    {
      data.Length - position
    }

    /** `ByteBuffer.allocate`: zero-filled, position 0. */
    constructor Allocate(capacity: nat)
      ensures Valid() && fresh(data)
      ensures data.Length == capacity && position == 0
      ensures forall k :: 0 <= k < capacity ==> data[k] == 0
    {
      data := new byte[capacity](_ => 0);
      position := 0;
    }

    /** `rewind`: back to position 0, with the contents kept. */
    method Rewind()
      modifies this
      ensures Valid() && position == 0
    {
      position := 0;
    }

    method Put(bytes: seq<byte>) returns (failure: Option<Exception>)
      requires Valid()
      modifies this, data
      ensures Valid()
      ensures failure.None? <==> old(position) + |bytes| <= data.Length
      ensures failure.Some? ==> failure == Some(BufferOverflow) && position == old(position) && data[..] == old(data[..])
      ensures failure.None? ==> (position == old(position) + |bytes|
        && data[..] == old(data[..])[..old(position)] + bytes + old(data[..])[old(position) + |bytes|..])
    {
      if position + |bytes| > data.Length {
        return Some(BufferOverflow);
      }
      var p := position;
      for i := 0 to |bytes|
        invariant data[..] == old(data[..])[..p] + bytes[..i] + old(data[..])[p + i..]
      {
        data[p + i] := bytes[i];
        assert bytes[..i + 1] == bytes[..i] + [bytes[i]];
      }
      assert bytes[..|bytes|] == bytes;
      position := p + |bytes|;
      return None;
    }

    /** `putInt`: four big-endian bytes. */
    method PutInt(value: int32) returns (failure: Option<Exception>)
      requires Valid()
      modifies this, data
      ensures Valid()
      ensures failure.None? <==> old(position) + 4 <= data.Length
      ensures failure.Some? ==> failure == Some(BufferOverflow) && position == old(position) && data[..] == old(data[..])
      ensures failure.None? ==> (position == old(position) + 4
        && data[..] == old(data[..])[..old(position)] + Int32Bytes(value) + old(data[..])[old(position) + 4..])
    {
      failure := Put(Int32Bytes(value));
    }

    /** `putLong`: eight big-endian bytes. */
    method PutLong(value: int64) returns (failure: Option<Exception>)
      requires Valid()
      modifies this, data
      ensures Valid()
      ensures failure.None? <==> old(position) + 8 <= data.Length
      ensures failure.Some? ==> failure == Some(BufferOverflow) && position == old(position) && data[..] == old(data[..])
      ensures failure.None? ==> (position == old(position) + 8
        && data[..] == old(data[..])[..old(position)] + Int64Bytes(value) + old(data[..])[old(position) + 8..])
    {
      failure := Put(Int64Bytes(value));
    }

    method Get(n: nat) returns (r: Result<seq<byte>>)
      requires Valid()
      modifies this
      ensures Valid()
      ensures r.Ok? <==> old(position) + n <= data.Length
      ensures r.Err? ==> r.error == BufferUnderflow && position == old(position)
      ensures r.Ok? ==> r.value == data[old(position)..old(position) + n] && position == old(position) + n
    {
      if position + n > data.Length {
        return Err(BufferUnderflow);
      }
      r := Ok(data[position..position + n]);
      position := position + n;
    }

    /** `getInt`. */
    method GetInt() returns (r: Result<int32>)
      requires Valid()
      modifies this
      ensures Valid()
      ensures r.Ok? <==> old(position) + 4 <= data.Length
      ensures r.Err? ==> r.error == BufferUnderflow && position == old(position)
      ensures r.Ok? ==> r.value == Int32Of(data[old(position)..old(position) + 4]) && position == old(position) + 4
    {
      var bytes := Get(4);
      if bytes.Err? {
        return Err(bytes.error);
      }
      return Ok(Int32Of(bytes.value));
    }

    /** `getLong`. */
    method GetLong() returns (r: Result<int64>)
      requires Valid()
      modifies this
      ensures Valid()
      ensures r.Ok? <==> old(position) + 8 <= data.Length
      ensures r.Err? ==> r.error == BufferUnderflow && position == old(position)
      ensures r.Ok? ==> r.value == Int64Of(data[old(position)..old(position) + 8]) && position == old(position) + 8
    {
      var bytes := Get(8);
      if bytes.Err? {
        return Err(bytes.error);
      }
      return Ok(Int64Of(bytes.value));
    }
  }

  /** The WAL record type ids; only this record's own id, CLUSTER_DELETE_RECORD_CO, is modelled. */
  datatype WalRecordType = ClusterDeleteRecordCO

  /** The storage call `redo` or `undo` makes. */
  datatype StorageCall =
    | DeleteRecordInternal(clusterId: int32, recordPosition: int64)
    | CreateRecordInternal(clusterId: int32, content: Option<seq<byte>>, recordVersion: int32,
                           recordType: byte, recordPosition: int64)

  class DeleteRecordCO {
    var clusterId: int32
    var recordPosition: int64
    var content: Option<seq<byte>>
    var recordVersion: int32
    var recordType: byte

    /** The no-argument constructor used before `deserializeFromByteBuffer`: Java defaults. */
    constructor Empty()
      ensures clusterId == 0 && recordPosition == 0 && content == None && recordVersion == 0 && recordType == 0
    {
      clusterId, recordPosition, content, recordVersion, recordType := 0, 0, None, 0, 0;
    }

    constructor (clusterId: int32, recordPosition: int64, content: Option<seq<byte>>, recordVersion: int32, recordType: byte)
      ensures this.clusterId == clusterId && this.recordPosition == recordPosition && this.content == content
      ensures this.recordVersion == recordVersion && this.recordType == recordType
    {
      this.clusterId := clusterId;
      this.recordPosition := recordPosition;
      this.content := content;
      this.recordVersion := recordVersion;
      this.recordType := recordType;
    }

    /** `redo`: deletes the record again. */
    method Redo() returns (call: StorageCall)
      ensures call.DeleteRecordInternal? && call.clusterId == clusterId && call.recordPosition == recordPosition
    {
      call := DeleteRecordInternal(clusterId, recordPosition);
    }

    /** `undo`: recreates the record from what the deletion kept in memory. */
    method Undo() returns (call: StorageCall)
      ensures call.CreateRecordInternal? && call.clusterId == clusterId && call.recordPosition == recordPosition
      ensures call.content == content && call.recordVersion == recordVersion && call.recordType == recordType
    {
      call := CreateRecordInternal(clusterId, content, recordVersion, recordType, recordPosition);
    }

    /**
     * `serializeToByteBuffer`: the cluster id, then the record position. With
     * room for the int but not the long, `putLong` throws after the int was
     * written.
     */
    method SerializeToByteBuffer(buffer: ByteBuffer) returns (failure: Option<Exception>)
      requires buffer.Valid()
      modifies buffer, buffer.data
      ensures buffer.Valid()
      ensures failure.None? <==> old(buffer.position) + 12 <= buffer.data.Length
      ensures failure.None? ==> (buffer.position == old(buffer.position) + 12
        && buffer.data[..] == old(buffer.data[..])[..old(buffer.position)] + RecordBytes(clusterId, recordPosition)
                              + old(buffer.data[..])[old(buffer.position) + 12..])
      ensures failure.Some? ==> failure == Some(BufferOverflow)
      ensures old(buffer.position) + 4 > buffer.data.Length ==>
        buffer.position == old(buffer.position) && buffer.data[..] == old(buffer.data[..])
      ensures old(buffer.position) + 4 <= buffer.data.Length < old(buffer.position) + 12 ==>
        buffer.position == old(buffer.position) + 4
        && buffer.data[..] == old(buffer.data[..])[..old(buffer.position)] + Int32Bytes(clusterId)
                              + old(buffer.data[..])[old(buffer.position) + 4..]
    {
      ghost var before := buffer.data[..];
      ghost var p := buffer.position;
      failure := buffer.PutInt(clusterId);
      if failure.Some? {
        return;
      }
      ghost var middle := buffer.data[..];
      failure := buffer.PutLong(recordPosition);
      if failure.None? {
        assert middle[..p + 4] == before[..p] + Int32Bytes(clusterId);
        assert middle[p + 4 + 8..] == before[p + 12..];
        assert buffer.data[..] == before[..p] + (Int32Bytes(clusterId) + Int64Bytes(recordPosition)) + before[p + 12..];
      }
    }

    /**
     * `deserializeFromByteBuffer`: reads the cluster id, then the record position,
     * assigning each as it is read; the other fields are left alone.
     */
    method DeserializeFromByteBuffer(buffer: ByteBuffer) returns (failure: Option<Exception>)
      requires buffer.Valid()
      modifies this, buffer
      ensures buffer.Valid()
      ensures failure.None? <==> old(buffer.position) + 12 <= buffer.data.Length
      ensures failure.Some? ==> failure == Some(BufferUnderflow)
      ensures content == old(content) && recordVersion == old(recordVersion) && recordType == old(recordType)
      ensures failure.None? ==> (buffer.position == old(buffer.position) + 12
        && ParseRecord(buffer.data[old(buffer.position)..]) == Ok((clusterId, recordPosition)))
      ensures old(buffer.position) + 4 > buffer.data.Length ==>
        buffer.position == old(buffer.position) && clusterId == old(clusterId) && recordPosition == old(recordPosition)
      ensures old(buffer.position) + 4 <= buffer.data.Length < old(buffer.position) + 12 ==>
        buffer.position == old(buffer.position) + 4 && recordPosition == old(recordPosition)
        && clusterId == Int32Of(buffer.data[old(buffer.position)..old(buffer.position) + 4])
    {
      ghost var p := buffer.position;
      var id := buffer.GetInt();
      if id.Err? {
        return Some(id.error);
      }
      clusterId := id.value;
      var position := buffer.GetLong();
      if position.Err? {
        return Some(position.error);
      }
      recordPosition := position.value;
      assert buffer.data[p..][..4] == buffer.data[p..p + 4];
      assert buffer.data[p..][4..12] == buffer.data[p + 4..p + 12];
      return None;
    }

    /** `serializedSize`: the superclass header plus the int and the long, as a Java `int`. */
    function SerializedSize(headerSize: int32): (size: int32)
      ensures headerSize + 12 < TWO_31 ==> size - headerSize == |RecordBytes(clusterId, recordPosition)|
      ensures headerSize + 12 >= TWO_31 ==> size < headerSize
    {
      Wrap32(headerSize + 4 + 8)
    }

    /** `getId`. */
    function GetId(): (r: WalRecordType)
      ensures r == ClusterDeleteRecordCO
    {
      ClusterDeleteRecordCO
    }
  }

  /**
   * A record written to a fresh 12-byte buffer and read back into a record made
   * with the no-argument constructor restores the cluster id and position, and
   * keeps the defaults for content, version and type, which are not serialized.
   */
  method RoundTripThroughBuffer(clusterId: int32, recordPosition: int64, content: Option<seq<byte>>,
                                recordVersion: int32, recordType: byte)
    returns (decodedCluster: int32, decodedPosition: int64, decodedContent: Option<seq<byte>>,
             decodedVersion: int32, decodedType: byte)
    ensures decodedCluster == clusterId && decodedPosition == recordPosition
    ensures decodedContent == None && decodedVersion == 0 && decodedType == 0
  {
    var written := new DeleteRecordCO(clusterId, recordPosition, content, recordVersion, recordType);
    var buffer := new ByteBuffer.Allocate(12);
    var failure := written.SerializeToByteBuffer(buffer);
    assert failure.None?;
    assert buffer.data[..] == RecordBytes(clusterId, recordPosition);
    buffer.Rewind();
    var read := new DeleteRecordCO.Empty();
    failure := read.DeserializeFromByteBuffer(buffer);
    assert failure.None?;
    RecordRoundTrip(clusterId, recordPosition, []);
    assert buffer.data[0..] == RecordBytes(clusterId, recordPosition) + [];
    decodedCluster, decodedPosition := read.clusterId, read.recordPosition;
    decodedContent, decodedVersion, decodedType := read.content, read.recordVersion, read.recordType;
  }
}

/**
 * Bytes and the fixed-width big-endian formats of java.io.DataOutput / DataInput
 * (writeLong, writeInt, writeBoolean, writeUTF and their readers), as functions on
 * byte sequences. A reader takes the remaining input and returns the value read and
 * what is left, or the exception the Java reader throws.
 */
module Bytes {
  import opened Wrappers

  newtype byte = x: int | 0 <= x < 256

  const TWO_15: int := 0x8000
  const TWO_16: int := 0x1_0000
  const TWO_31: int := 0x8000_0000
  const TWO_32: int := 0x1_0000_0000
  const TWO_63: int := 0x8000_0000_0000_0000
  const TWO_64: int := 0x1_0000_0000_0000_0000

  /** Java `int` and `long`. */
  type int32 = x: int | -TWO_31 <= x < TWO_31
  type int64 = x: int | -TWO_63 <= x < TWO_63

  /** Java `int` arithmetic: the value congruent to `x` modulo 2^32 in the `int` range. */
  function Wrap32(x: int): (r: int32)
    ensures -TWO_31 <= x < TWO_31 ==> r == x
    ensures (x - r) % TWO_32 == 0
  {
    (x + TWO_31) % TWO_32 - TWO_31
  }

  /** Java `long` arithmetic: the value congruent to `x` modulo 2^64 in the `long` range. */
  function Wrap64(x: int): (r: int64)
    ensures -TWO_63 <= x < TWO_63 ==> r == x
    ensures (x - r) % TWO_64 == 0
  {
    (x + TWO_63) % TWO_64 - TWO_63
  }

  /** What a reader returns on success: the value and the input that follows it. */
  datatype Decoded<+T> = Decoded(value: T, rest: seq<byte>)

  function Pow256(n: nat): (p: nat)
    ensures p >= 1
  {
    if n == 0 then 1 else 256 * Pow256(n - 1)
  }

  /** The `n` low-order bytes of `u`, most significant first. */
  function BigEndian(u: nat, n: nat): (r: seq<byte>)
    ensures |r| == n
  {
    if n == 0 then [] else BigEndian(u / 256, n - 1) + [(u % 256) as byte]
  }

  /** The unsigned number whose big-endian bytes are `s`. */
  function Unsigned(s: seq<byte>): (u: nat)
    ensures u < Pow256(|s|)
  {
    if s == [] then 0 else Unsigned(s[..|s| - 1]) * 256 + s[|s| - 1] as int
  }

  lemma {:induction false} UnsignedOfBigEndian(u: nat, n: nat)
    requires u < Pow256(n)
    ensures Unsigned(BigEndian(u, n)) == u
  {
    if n > 0 {
      var s := BigEndian(u, n);
      assert s[..n - 1] == BigEndian(u / 256, n - 1);
      UnsignedOfBigEndian(u / 256, n - 1);
    }
  }

  lemma {:induction false} BigEndianOfUnsigned(s: seq<byte>)
    ensures BigEndian(Unsigned(s), |s|) == s
  {
    if s != [] {
      var init := s[..|s| - 1];
      var u := Unsigned(s);
      assert u / 256 == Unsigned(init) && u % 256 == s[|s| - 1] as int;
      BigEndianOfUnsigned(init);
      assert s == init + [s[|s| - 1]];
    }
  }

  lemma Pow256Widths()
    ensures Pow256(2) == TWO_16 && Pow256(4) == TWO_32 && Pow256(8) == TWO_64
  {
  }

  /** Two's complement of a Java `int`, as `writeInt` writes it. */
  function Int32Bytes(x: int32): (r: seq<byte>)
    ensures |r| == 4
  {
    BigEndian(if x < 0 then x + TWO_32 else x, 4)
  }

  /** Two's complement of a Java `long`, as `writeLong` writes it. */
  function Int64Bytes(x: int64): (r: seq<byte>)
    ensures |r| == 8
  {
    BigEndian(if x < 0 then x + TWO_64 else x, 8)
  }

  function Int32Of(s: seq<byte>): int32
    requires |s| == 4
  {
    Pow256Widths();
    var u := Unsigned(s);
    if u >= TWO_31 then u - TWO_32 else u
  }

  function Int64Of(s: seq<byte>): int64
    requires |s| == 8
  {
    Pow256Widths();
    var u := Unsigned(s);
    if u >= TWO_63 then u - TWO_64 else u
  }

  lemma Int32RoundTrip(x: int32)
    ensures Int32Of(Int32Bytes(x)) == x
  {
    Pow256Widths();
    UnsignedOfBigEndian(if x < 0 then x + TWO_32 else x, 4);
  }

  lemma Int64RoundTrip(x: int64)
    ensures Int64Of(Int64Bytes(x)) == x
  {
    Pow256Widths();
    UnsignedOfBigEndian(if x < 0 then x + TWO_64 else x, 8);
  }

  lemma Int64BytesRoundTrip(s: seq<byte>)
    requires |s| == 8
    ensures Int64Bytes(Int64Of(s)) == s
  {
    Pow256Widths();
    BigEndianOfUnsigned(s);
  }

  lemma Int32BytesRoundTrip(s: seq<byte>)
    requires |s| == 4
    ensures Int32Bytes(Int32Of(s)) == s
  {
    Pow256Widths();
    BigEndianOfUnsigned(s);
  }

  /** The all-ones pattern: `n` bytes of 0xFF. */
  lemma {:induction false} AllOnes(n: nat)
    ensures BigEndian(Pow256(n) - 1, n) == seq(n, _ => 255 as byte)
  {
    if n > 0 {
      assert (Pow256(n) - 1) / 256 == Pow256(n - 1) - 1;
      AllOnes(n - 1);
    }
  }

  /** `writeLong(-1)` is eight 0xFF bytes. */
  lemma MinusOneLong()
    ensures Int64Bytes(-1) == seq(8, _ => 255 as byte)
  {
    Pow256Widths();
    AllOnes(8);
  }

  /** `writeBoolean`: one byte, 1 for true and 0 for false. */
  function BooleanBytes(b: bool): (r: seq<byte>)
    ensures |r| == 1
  {
    [if b then 1 else 0]
  }

  /** `readLong`: eight bytes, or EOF when fewer remain. */
  function ReadLong(s: seq<byte>): (r: Result<Decoded<int64>>)
    ensures r.Ok? <==> |s| >= 8
    ensures r.Ok? ==> r.value.rest == s[8..] && Int64Bytes(r.value.value) == s[..8] && r.value.value == Int64Of(s[..8])
  {
    if |s| < 8 then Err(EndOfStream)
    else
      Int64BytesRoundTrip(s[..8]);
      Ok(Decoded(Int64Of(s[..8]), s[8..]))
  }

  /** `readInt`: four bytes, or EOF when fewer remain. */
  function ReadInt(s: seq<byte>): (r: Result<Decoded<int32>>)
    ensures r.Ok? <==> |s| >= 4
    ensures r.Ok? ==> r.value.rest == s[4..] && Int32Bytes(r.value.value) == s[..4] && r.value.value == Int32Of(s[..4])
  {
    if |s| < 4 then Err(EndOfStream)
    else
      Int32BytesRoundTrip(s[..4]);
      Ok(Decoded(Int32Of(s[..4]), s[4..]))
  }

  /** `readBoolean`: one byte, true iff it is not zero. */
  function ReadBoolean(s: seq<byte>): (r: Result<Decoded<bool>>)
    ensures r.Ok? <==> |s| >= 1
    ensures r.Ok? ==> r.value.rest == s[1..] && (r.value.value <==> s[0] != 0)
  {
    if |s| < 1 then Err(EndOfStream) else Ok(Decoded(s[0] != 0, s[1..]))
  }

  lemma ReadLongOfBytes(x: int64, rest: seq<byte>)
    ensures ReadLong(Int64Bytes(x) + rest) == Ok(Decoded(x, rest))
  {
    var s := Int64Bytes(x) + rest;
    assert s[..8] == Int64Bytes(x) && s[8..] == rest;
    Int64RoundTrip(x);
  }

  lemma ReadIntOfBytes(x: int32, rest: seq<byte>)
    ensures ReadInt(Int32Bytes(x) + rest) == Ok(Decoded(x, rest))
  {
    var s := Int32Bytes(x) + rest;
    assert s[..4] == Int32Bytes(x) && s[4..] == rest;
    Int32RoundTrip(x);
  }

  lemma ReadBooleanOfBytes(b: bool, rest: seq<byte>)
    ensures ReadBoolean(BooleanBytes(b) + rest) == Ok(Decoded(b, rest))
  {
    assert (BooleanBytes(b) + rest)[1..] == rest;
  }

  // ---------------------------------------------------------------------------
  // writeUTF / readUTF. The string body is a stand-in for Java's modified UTF-8:
  // every character is written as its code point in three big-endian bytes. Like
  // writeUTF, the body is preceded by its byte length as an unsigned 16-bit number,
  // and a body longer than 65535 bytes is refused.
  // ---------------------------------------------------------------------------

  const MAX_UTF_LENGTH: nat := 65535

  function CharBytes(c: char): (r: seq<byte>)
    ensures |r| == 3
  {
    BigEndian(c as int, 3)
  }

  function UtfBody(s: string): (r: seq<byte>)
    ensures |r| == 3 * |s|
  {
    if s == [] then [] else CharBytes(s[0]) + UtfBody(s[1..])
  }

  /** A code point that is a Unicode scalar value, i.e. a Dafny `char`. */
  predicate IsScalar(u: int) {
    0 <= u < 0xD800 || 0xE000 <= u < 0x11_0000
  }

  /** Decodes a body, failing on a malformed length or code point. */
  function UtfChars(body: seq<byte>): (r: Option<string>)
    ensures r.Some? ==> |body| == 3 * |r.value|
    decreases |body|
  {
    if body == [] then Some([])
    else if |body| < 3 then None
    else
      var u := Unsigned(body[..3]);
      if !IsScalar(u) then None
      else
        match UtfChars(body[3..])
        case None => None
        case Some(tail) => Some([u as char] + tail)
  }

  lemma {:induction false} UtfCharsOfBody(s: string)
    ensures UtfChars(UtfBody(s)) == Some(s)
  {
    if s != [] {
      var body := UtfBody(s);
      assert body[..3] == CharBytes(s[0]) && body[3..] == UtfBody(s[1..]);
      Pow256Widths();
      assert Pow256(3) == 0x100_0000;
      UnsignedOfBigEndian(s[0] as int, 3);
      UtfCharsOfBody(s[1..]);
      assert [s[0]] + s[1..] == s;
    }
  }

  /** `writeUTF`: the 2-byte length, then the body; UTFDataFormatException when too long. */
  function WriteUtf(s: string): (r: Result<seq<byte>>)
    ensures r.Ok? <==> 3 * |s| <= MAX_UTF_LENGTH
    ensures r.Ok? ==> |r.value| == 2 + 3 * |s| && r.value[..2] == BigEndian(3 * |s|, 2)
  {
    var body := UtfBody(s);
    if |body| > MAX_UTF_LENGTH then Err(UtfDataFormat)
    else Ok(BigEndian(|body|, 2) + body)
  }

  /** `readUTF`: the 2-byte length, then that many bytes of body. */
  function ReadUtf(s: seq<byte>): (r: Result<Decoded<string>>)
    ensures r.Ok? ==> |s| >= 2 + 3 * |r.value.value| && r.value.rest == s[2 + 3 * |r.value.value|..]
    ensures |s| < 2 ==> r == Err(EndOfStream)
  {
    if |s| < 2 then Err(EndOfStream)
    else
      var n := Unsigned(s[..2]);
      if |s| < 2 + n then Err(EndOfStream)
      else
        match UtfChars(s[2..2 + n])
        case None => Err(UtfDataFormat)
        case Some(str) => Ok(Decoded(str, s[2 + n..]))
  }

  lemma ReadUtfOfWrite(str: string, rest: seq<byte>)
    requires WriteUtf(str).Ok?
    ensures ReadUtf(WriteUtf(str).value + rest) == Ok(Decoded(str, rest))
  {
    var body := UtfBody(str);
    var prefix := BigEndian(|body|, 2);
    assert WriteUtf(str).value == prefix + body;
    var s := prefix + body + rest;
    Pow256Widths();
    UnsignedOfBigEndian(|body|, 2);
    assert s[..2] == prefix;
    assert Unsigned(s[..2]) == |body|;
    assert s[2..2 + |body|] == body;
    assert s[2 + |body|..] == rest;
    UtfCharsOfBody(str);
  }

  /** Two different strings never write the same bytes. */
  lemma WriteUtfInjective(a: string, b: string)
    requires WriteUtf(a).Ok? && WriteUtf(b).Ok? && WriteUtf(a) == WriteUtf(b)
    ensures a == b
  {
    ReadUtfOfWrite(a, []);
    ReadUtfOfWrite(b, []);
    assert WriteUtf(a).value + [] == WriteUtf(b).value + [];
  }
}

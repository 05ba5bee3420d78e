/**
 The 40 cleartext bytes at the start of a ratchet frame: ratchet key, previous
 chain length and message number, the two counters little-endian. Every 40-byte
 string is a header, and every header is one such string, which is why the other
 modules may use the header itself as associated data.
*/
module HeaderCodec {
  import opened Terms
  import opened Buffers

  const HEADER_LEN := KEY_LEN + 4 + 4

  type Bytes32 = b: seq<Byte> | |b| == KEY_LEN witness seq(KEY_LEN, _ => 0)
  type WireHeader = Header<Bytes32>

  function LittleEndian(n: U32): (bytes: seq<Byte>)
    ensures |bytes| == 4
  {
    [n % 0x100, n / 0x100 % 0x100, n / 0x1_0000 % 0x100, n / 0x100_0000]
  }

  function FromLittleEndian(bytes: seq<Byte>): U32
    requires |bytes| == 4
  {
    var a: int, b: int, c: int, d: int := bytes[0], bytes[1], bytes[2], bytes[3];
    a + 0x100 * b + 0x1_0000 * c + 0x100_0000 * d
  }

  lemma CounterReadsBack(n: U32)
    ensures FromLittleEndian(LittleEndian(n)) == n
  {
    var a: int, b: int, c: int := n / 0x100, n / 0x1_0000, n / 0x100_0000;
    assert b == a / 0x100 && c == b / 0x100;
    assert n == 0x100 * a + n % 0x100 && a == 0x100 * b + a % 0x100 && b == 0x100 * c + b % 0x100;
  }

  lemma CounterWritesBack(bytes: seq<Byte>)
    requires |bytes| == 4
    ensures LittleEndian(FromLittleEndian(bytes)) == bytes
  {
    var a: int, b: int, c: int, d: int := bytes[0], bytes[1], bytes[2], bytes[3];
    var m := FromLittleEndian(bytes);
    assert m / 0x100 == b + 0x100 * c + 0x1_0000 * d;
    assert m / 0x1_0000 == c + 0x100 * d;
    assert m / 0x100_0000 == d;
  }

  function HeaderBytes(header: WireHeader): (bytes: seq<Byte>)
    ensures |bytes| == HEADER_LEN
  {
    header.ratchet + LittleEndian(header.previousChainLen) + LittleEndian(header.messageNumber)
  }

  function Parse(bytes: seq<Byte>): WireHeader
    requires |bytes| >= HEADER_LEN
  {
    Header(bytes[..KEY_LEN], FromLittleEndian(bytes[KEY_LEN..KEY_LEN + 4]),
           FromLittleEndian(bytes[KEY_LEN + 4..HEADER_LEN]))
  }

  method ToBytes(header: WireHeader) returns (bytes: array<Byte>)
    ensures fresh(bytes) && bytes[..] == HeaderBytes(header)
  {
    bytes := new Byte[HEADER_LEN](_ => 0);
    CopyInto(bytes, 0, header.ratchet);
    CopyInto(bytes, KEY_LEN, LittleEndian(header.previousChainLen));
    CopyInto(bytes, KEY_LEN + 4, LittleEndian(header.messageNumber));
  }

  ghost function ValueAt(bytes: seq<Byte>, i: nat): int
    requires i < |bytes|
  {
    bytes[i]
  }

  /** The wire layout: 32 bytes of ratchet key, then the previous chain length and the
      message number, four bytes each with the lowest first. */
  ghost predicate Layout(bytes: seq<Byte>, header: WireHeader)
    requires |bytes| >= 40
  {
    && bytes[..32] == header.ratchet
    && header.previousChainLen ==
       ValueAt(bytes, 32) + 0x100 * ValueAt(bytes, 33) + 0x1_0000 * ValueAt(bytes, 34) + 0x100_0000 * ValueAt(bytes, 35)
    && header.messageNumber ==
       ValueAt(bytes, 36) + 0x100 * ValueAt(bytes, 37) + 0x1_0000 * ValueAt(bytes, 38) + 0x100_0000 * ValueAt(bytes, 39)
  }

  lemma HeadersAreLaidOut(header: WireHeader, bytes: seq<Byte>)
    requires |bytes| >= 40
    ensures |HeaderBytes(header)| == 40 && Layout(HeaderBytes(header), header)
    ensures Layout(bytes, Parse(bytes))
  {
    CounterReadsBack(header.previousChainLen);
    CounterReadsBack(header.messageNumber);
    var written := HeaderBytes(header);
    assert written[32..36] == LittleEndian(header.previousChainLen);
    assert written[36..40] == LittleEndian(header.messageNumber);
  }

  /** Headers and 40-byte strings are the same thing. */
  lemma HeadersAreByteStrings(header: WireHeader, bytes: seq<Byte>)
    requires |bytes| == HEADER_LEN
    ensures Parse(HeaderBytes(header)) == header
    ensures HeaderBytes(Parse(bytes)) == bytes
  {
    var written := HeaderBytes(header);
    assert written[..KEY_LEN] == header.ratchet;
    assert written[KEY_LEN..KEY_LEN + 4] == LittleEndian(header.previousChainLen);
    assert written[KEY_LEN + 4..HEADER_LEN] == LittleEndian(header.messageNumber);
    CounterReadsBack(header.previousChainLen);
    CounterReadsBack(header.messageNumber);
    CounterWritesBack(bytes[KEY_LEN..KEY_LEN + 4]);
    CounterWritesBack(bytes[KEY_LEN + 4..HEADER_LEN]);
    assert bytes == bytes[..KEY_LEN] + bytes[KEY_LEN..KEY_LEN + 4] + bytes[KEY_LEN + 4..HEADER_LEN];
  }
}

/**
 * The RTPdump file format of Columbia's rtptools: the fixed-size big-endian
 * layouts of the file header and of the per-record header, the conversion of
 * the wire header to the public Header, and the splitting of a clock reading
 * into seconds and microseconds (pkg/rtpdump/rtpdump.go).
 */
module RtpDump {
  import opened Wrappers

  type byte = x: int | 0 <= x < 0x100
  type uint16 = x: int | 0 <= x < 0x1_0000
  type uint32 = x: int | 0 <= x < 0x1_0000_0000
  type int64 = x: int | -0x8000_0000_0000_0000 <= x < 0x8000_0000_0000_0000

  /** Size of the wire file header: 4 + 4 + 4 + 2 + 2 bytes. */
  const FileHeaderLen: nat := 16
  /** Size of the wire record header (pktHeaderLen): 2 + 2 + 4 bytes. */
  const PktHeaderLen: nat := 8

  const NanosPerSecond: nat := 1_000_000_000
  const NanosPerMicro: nat := 1_000

  /** The bytes of an ASCII string literal. */
  function Ascii(s: string): seq<byte>
    requires forall i :: 0 <= i < |s| ==> s[i] as int < 0x100
  {
    seq(|s|, i requires 0 <= i < |s| => s[i] as int)
  }

  // ---------------------------------------------------------------------------
  // Go integer arithmetic

  /** Go's `/` on signed integers: the quotient truncated toward zero. */
  function Quo(a: int, b: int): (q: int)
    requires b > 0
    ensures a >= 0 ==> 0 <= a - q * b < b
    ensures a < 0 ==> -b < a - q * b <= 0
  {
    if a >= 0 then a / b else -((-a) / b)
  }

  /** Go's `%` on signed integers: the remainder takes the sign of the dividend. */
  function Rem(a: int, b: int): int
    requires b > 0
  {
    a - Quo(a, b) * b
  }

  /** Go's conversion `uint32(x)`: keeps the low 32 bits of the two's complement value. */
  function Wrap32(x: int): uint32 {
    x % 0x1_0000_0000
  }

  /** Go's conversion `uint16(x)`. */
  function Wrap16(x: int): uint16 {
    x % 0x1_0000
  }

  // ---------------------------------------------------------------------------
  // Big-endian integers (encoding/binary.BigEndian)

  function BE16(x: uint16): (r: seq<byte>)
    ensures |r| == 2
  {
    [x / 0x100, x % 0x100]
  }

  function U16(b: seq<byte>): uint16
    requires |b| == 2
  {
    (b[0] as int) * 0x100 + b[1]
  }

  function BE32(x: uint32): (r: seq<byte>)
    ensures |r| == 4
  {
    BE16(x / 0x1_0000) + BE16(x % 0x1_0000)
  }

  function U32(b: seq<byte>): uint32
    requires |b| == 4
  {
    (U16(b[..2]) as int) * 0x1_0000 + U16(b[2..])
  }

  lemma U16OfBE16(x: uint16)
    ensures U16(BE16(x)) == x
  {
  }

  lemma BE16OfU16(b: seq<byte>)
    requires |b| == 2
    ensures BE16(U16(b)) == b
  {
    assert BE16(U16(b))[0] == b[0];
  }

  /** Reading back a big-endian 32-bit integer gives the integer that was written. */
  lemma U32OfBE32(x: uint32)
    ensures U32(BE32(x)) == x
  {
    var b := BE32(x);
    assert b[..2] == BE16(x / 0x1_0000);
    assert b[2..] == BE16(x % 0x1_0000);
    U16OfBE16(x / 0x1_0000);
    U16OfBE16(x % 0x1_0000);
  }

  /** Every 4 bytes are the big-endian encoding of exactly one 32-bit integer. */
  lemma BE32OfU32(b: seq<byte>)
    requires |b| == 4
    ensures BE32(U32(b)) == b
  {
    var hi, lo := U16(b[..2]), U16(b[2..]);
    assert U32(b) / 0x1_0000 == hi;
    assert U32(b) % 0x1_0000 == lo;
    BE16OfU16(b[..2]);
    BE16OfU16(b[2..]);
    assert b == b[..2] + b[2..];
  }

  // ---------------------------------------------------------------------------
  // The file header

  /** The wire form of the file header (Go's unexported `header`). */
  datatype FileHeader = FileHeader(
    startSec: uint32,   // start of recording, seconds (GMT)
    startUsec: uint32,  // start of recording, microseconds
    source: uint32,     // network source address
    port: uint16)       // UDP port; two bytes of padding follow on the wire

  /** The public form of the file header (Go's `Header`). */
  datatype Header = Header(
    start: int,            // nanoseconds since the Unix epoch
    source: seq<byte>,     // IPv4 octets, most significant first
    port: int)

  /** binary.Write of a header: the four fields big-endian, then two zero padding bytes. */
  function EncodeFileHeader(h: FileHeader): (r: seq<byte>)
    ensures |r| == FileHeaderLen
  {
    BE32(h.startSec) + BE32(h.startUsec) + BE32(h.source) + BE16(h.port) + [0, 0]
  }

  /** binary.Read of a header; the padding bytes are skipped. */
  function DecodeFileHeader(b: seq<byte>): (h: FileHeader)
    requires |b| == FileHeaderLen
    ensures EncodeFileHeader(h) == b[..14] + [0, 0]
  {
    BE32OfU32(b[0..4]);
    BE32OfU32(b[4..8]);
    BE32OfU32(b[8..12]);
    BE16OfU16(b[12..14]);
    assert b[..14] == b[0..4] + b[4..8] + b[8..12] + b[12..14];
    FileHeader(U32(b[0..4]), U32(b[4..8]), U32(b[8..12]), U16(b[12..14]))
  }

  lemma {:induction false} FileHeaderRoundTrip(h: FileHeader)
    ensures DecodeFileHeader(EncodeFileHeader(h)) == h
  {
    var b := EncodeFileHeader(h);
    assert b[0..4] == BE32(h.startSec);
    assert b[4..8] == BE32(h.startUsec);
    assert b[8..12] == BE32(h.source);
    assert b[12..14] == BE16(h.port);
    U32OfBE32(h.startSec);
    U32OfBE32(h.startUsec);
    U32OfBE32(h.source);
    U16OfBE16(h.port);
  }

  /** header.Header(): the start time in nanoseconds, the source as IPv4 octets, the port. */
  function ToHeader(h: FileHeader): (r: Header)
    ensures r.start == h.startSec * NanosPerSecond + h.startUsec * NanosPerMicro
    ensures |r.source| == 4 && U32(r.source) == h.source
    ensures r.port == h.port
  {
    var octets := Octets(h.source);
    OctetsAreBigEndian(h.source);
    U32OfBE32(h.source);
    Header(h.startSec * NanosPerSecond + h.startUsec * NanosPerMicro, octets, h.port)
  }

  /** `byte(x>>24), byte(x>>16), byte(x>>8), byte(x)`. */
  function Octets(x: uint32): seq<byte> {
    [(x / 0x100_0000) % 0x100, (x / 0x1_0000) % 0x100, (x / 0x100) % 0x100, x % 0x100]
  }

  /** The top octet `byte(x>>24)` is the high byte of the high half. */
  lemma TopOctet(x: uint32)
    ensures (x / 0x100_0000) % 0x100 == (x / 0x1_0000) / 0x100
  {
    var hi := x / 0x1_0000;
    var h1, h0 := hi / 0x100, hi % 0x100;
    assert x == h1 * 0x100_0000 + (h0 * 0x1_0000 + x % 0x1_0000);
    assert x / 0x100_0000 == h1;
  }

  /** The third octet `byte(x>>8)` is the high byte of the low half. */
  lemma ThirdOctet(x: uint32)
    ensures (x / 0x100) % 0x100 == (x % 0x1_0000) / 0x100
  {
    var hi, lo := x / 0x1_0000, x % 0x1_0000;
    var l1, l0 := lo / 0x100, lo % 0x100;
    assert x == (hi * 0x100 + l1) * 0x100 + l0;
    assert x / 0x100 == hi * 0x100 + l1;
  }

  /** The low octet `byte(x)` is the low byte of the low half. */
  lemma LowOctet(x: uint32)
    ensures x % 0x100 == (x % 0x1_0000) % 0x100
  {
    var hi, lo := x / 0x1_0000, x % 0x1_0000;
    assert x == (hi * 0x100) * 0x100 + lo;
  }

  lemma OctetsAreBigEndian(x: uint32)
    ensures Octets(x) == BE32(x)
  {
    TopOctet(x);
    ThirdOctet(x);
    LowOctet(x);
  }

  /** timestamp(t): a reading of the clock in nanoseconds split into seconds and microseconds. */
  function Timestamp(ns: int64): (r: (uint32, uint32))
    ensures ns >= 0 ==> r.0 == (ns / NanosPerSecond) % 0x1_0000_0000
    ensures ns >= 0 ==> r.1 == (ns % NanosPerSecond) / NanosPerMicro && r.1 < 1_000_000
  {
    (Wrap32(Quo(ns, NanosPerSecond)), Wrap32(Quo(Rem(ns, NanosPerSecond), NanosPerMicro)))
  }

  lemma ModOfThousand(k: int, r: int)
    requires 0 <= r < 1000
    ensures (k * 1000 + r) % 1000 == r
  {
  }

  lemma ModOfBillions(q: nat, m: nat)
    ensures (q * 1_000_000_000 + m) % 1000 == m % 1000
  {
    var k := q * 1_000_000 + m / 1000;
    assert q * 1_000_000_000 == (q * 1_000_000) * 1000;
    assert m == (m / 1000) * 1000 + m % 1000;
    assert q * 1_000_000_000 + m == k * 1000 + m % 1000;
    ModOfThousand(k, m % 1000);
  }

  /**
   * A header written from Timestamp(ns) reads back as ns truncated to a whole
   * microsecond, as long as the seconds fit in 32 bits.
   */
  lemma {:induction false} TimestampRoundTrip(ns: int64, source: uint32, port: uint16)
    requires 0 <= ns && ns / NanosPerSecond < 0x1_0000_0000
    ensures ToHeader(FileHeader(Timestamp(ns).0, Timestamp(ns).1, source, port)).start == ns - ns % 1000
  {
    var q, m := ns / NanosPerSecond, ns % NanosPerSecond;
    assert ns == q * NanosPerSecond + m;
    var u := m / NanosPerMicro;
    assert m == u * 1000 + m % 1000;
    ModOfBillions(q, m);
  }

  // ---------------------------------------------------------------------------
  // The record header

  /** The wire form of a record header (Go's `packetHeader`). */
  datatype PacketHeader = PacketHeader(
    length: uint16,        // length of the record, including this header
    packetLength: uint16,  // length of the RTP packet, 0 for RTCP
    offset: uint32)        // milliseconds since the start of recording

  function EncodePacketHeader(h: PacketHeader): (r: seq<byte>)
    ensures |r| == PktHeaderLen
  {
    BE16(h.length) + BE16(h.packetLength) + BE32(h.offset)
  }

  function DecodePacketHeader(b: seq<byte>): (h: PacketHeader)
    requires |b| == PktHeaderLen
    ensures EncodePacketHeader(h) == b
  {
    BE16OfU16(b[0..2]);
    BE16OfU16(b[2..4]);
    BE32OfU32(b[4..8]);
    assert b == b[0..2] + b[2..4] + b[4..8];
    PacketHeader(U16(b[0..2]), U16(b[2..4]), U32(b[4..8]))
  }

  lemma {:induction false} PacketHeaderRoundTrip(h: PacketHeader)
    ensures DecodePacketHeader(EncodePacketHeader(h)) == h
  {
    var b := EncodePacketHeader(h);
    assert b[0..2] == BE16(h.length);
    assert b[2..4] == BE16(h.packetLength);
    assert b[4..8] == BE32(h.offset);
    U16OfBE16(h.length);
    U16OfBE16(h.packetLength);
    U32OfBE32(h.offset);
  }

  /** `h.Length - pktHeaderLen` in uint16 arithmetic: the payload size a reader expects. */
  function PayloadLen(h: PacketHeader): (n: uint16)
    ensures h.length >= PktHeaderLen ==> n == h.length - PktHeaderLen
    ensures h.length < PktHeaderLen ==> n == h.length + 0x1_0000 - PktHeaderLen
  {
    Wrap16(h.length - PktHeaderLen)
  }

  // ---------------------------------------------------------------------------
  // Decoded packets

  /**
   * A decoded record (Go's `Packet`): the offset, the RTCP tag and one of the two
   * decoded payloads. R and C stand for the RTP and RTCP packet types of the codecs.
   */
  datatype Packet<R, C> = Packet(offset: uint32, isRTCP: bool, rtcp: Option<C>, rtp: Option<R>)
  {
    /** Exactly the payload that the tag names is present. */
    predicate WellTagged() {
      (isRTCP <==> rtcp.Some?) && (isRTCP <==> rtp.None?)
    }
  }
}

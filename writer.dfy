/**
 * The RTPdump writer (pkg/rtpdump/writer.go). On its first packet it takes the
 * start time, then emits the preamble line and the file header; every packet
 * is then one record header followed by the payload.
 *
 * The destination io.Writer is modelled by the bytes it holds, the number of
 * Write calls it has received, and a fixed fault plan: the Write call numbered
 * k in `faults` stores only the first faults[k] bytes of its chunk (at most
 * all of it) and reports an error. The clock is passed in as readings in
 * nanoseconds.
 */
module DumpWriter {
  import opened Wrappers
  import opened RtpDump

  /** The preamble line the writer emits: "#!rtpplay1.0 0.0.0.0/0\n". */
  const Preamble: seq<byte> :=
    [0x23, 0x21, 0x72, 0x74, 0x70, 0x70, 0x6c, 0x61, 0x79, 0x31, 0x2e, 0x30, 0x20,
     0x30, 0x2e, 0x30, 0x2e, 0x30, 0x2e, 0x30, 0x2f, 0x30, 0x0a]

  lemma PreambleText()
    ensures Preamble == Ascii("#!rtpplay1.0 0.0.0.0/0\n")
  {
  }

  const NanosPerMilli: nat := 1_000_000

  datatype WriteError = WriteFailed | MarshalFailed

  /**
   * The clock readings one writePacket may take: `start` and `stamp` are the two
   * time.Now() calls of writeHeader, `now` the one behind time.Since.
   */
  datatype Readings = Readings(start: int64, stamp: int64, now: int64)

  /** The destination after a run of Write calls, and whether every call succeeded. */
  datatype Delivery = Delivery(out: seq<byte>, calls: nat, ok: bool)

  function Min(a: nat, b: nat): nat {
    if a <= b then a else b
  }

  function Flatten(chunks: seq<seq<byte>>): seq<byte>
    decreases |chunks|
  {
    if chunks == [] then [] else chunks[0] + Flatten(chunks[1..])
  }

  lemma {:induction false} FlattenAppend(a: seq<seq<byte>>, b: seq<seq<byte>>)
    ensures Flatten(a + b) == Flatten(a) + Flatten(b)
    decreases |a|
  {
    if a == [] {
      assert a + b == b;
    } else {
      assert (a + b)[0] == a[0];
      assert (a + b)[1..] == a[1..] + b;
      FlattenAppend(a[1..], b);
    }
  }

  lemma FlattenPair(x: seq<byte>, y: seq<byte>)
    ensures Flatten([x, y]) == x + y
  {
    assert [x, y][1..] == [y];
    assert Flatten([y]) == y + Flatten([]);
  }

  /** Write the chunks one call each, in order, and stop at the first call that fails. */
  function Deliver(out: seq<byte>, calls: nat, faults: map<nat, nat>, chunks: seq<seq<byte>>): (d: Delivery)
    ensures d.calls >= calls && (chunks != [] ==> d.calls > calls)
    decreases |chunks|
  {
    if chunks == [] then Delivery(out, calls, true)
    else if calls in faults then
      Delivery(out + chunks[0][..Min(faults[calls], |chunks[0]|)], calls + 1, false)
    else Deliver(out + chunks[0], calls + 1, faults, chunks[1..])
  }

  /** The destination only grows, and only with a prefix of what was asked for; with all of it on success. */
  lemma {:induction false} DeliverPrefix(out: seq<byte>, calls: nat, faults: map<nat, nat>, chunks: seq<seq<byte>>)
    ensures var d := Deliver(out, calls, faults, chunks);
            out <= d.out <= out + Flatten(chunks) && (d.ok ==> d.out == out + Flatten(chunks))
    decreases |chunks|
  {
    if chunks != [] && calls !in faults {
      DeliverPrefix(out + chunks[0], calls + 1, faults, chunks[1..]);
      assert out + chunks[0] + Flatten(chunks[1..]) == out + Flatten(chunks);
    }
  }

  /** A run of writes is the run of its first part, then, if that succeeded, the run of the rest. */
  lemma {:induction false} DeliverAppend(out: seq<byte>, calls: nat, faults: map<nat, nat>,
                                         a: seq<seq<byte>>, b: seq<seq<byte>>)
    ensures Deliver(out, calls, faults, a + b) ==
              var d := Deliver(out, calls, faults, a);
              if d.ok then Deliver(d.out, d.calls, faults, b) else d
    decreases |a|
  {
    if a != [] {
      assert (a + b)[0] == a[0];
      assert (a + b)[1..] == a[1..] + b;
      if calls !in faults {
        DeliverAppend(out + a[0], calls + 1, faults, a[1..], b);
      }
    } else {
      assert a + b == b;
    }
  }

  /** With no fault among its calls, a run of writes appends every chunk and succeeds. */
  lemma {:induction false} DeliverNoFaults(out: seq<byte>, calls: nat, faults: map<nat, nat>,
                                           chunks: seq<seq<byte>>)
    requires forall k :: calls <= k < calls + |chunks| ==> k !in faults
    ensures Deliver(out, calls, faults, chunks) == Delivery(out + Flatten(chunks), calls + |chunks|, true)
    decreases |chunks|
  {
    if chunks != [] {
      DeliverNoFaults(out + chunks[0], calls + 1, faults, chunks[1..]);
      assert out + chunks[0] + Flatten(chunks[1..]) == out + Flatten(chunks);
    }
  }

  /**
   * A failing call ends the run with an error: the chunks before it are written
   * whole, the failing one only in part, and none after it is attempted.
   */
  lemma {:induction false} DeliverStopsAtFault(out: seq<byte>, calls: nat, faults: map<nat, nat>,
                                               chunks: seq<seq<byte>>, i: nat)
    requires i < |chunks| && calls + i in faults
    requires forall k :: calls <= k < calls + i ==> k !in faults
    ensures Deliver(out, calls, faults, chunks) ==
              Delivery(out + Flatten(chunks[..i]) + chunks[i][..Min(faults[calls + i], |chunks[i]|)],
                       calls + i + 1, false)
  {
    assert chunks == chunks[..i] + chunks[i..];
    DeliverAppend(out, calls, faults, chunks[..i], chunks[i..]);
    DeliverNoFaults(out, calls, faults, chunks[..i]);
    assert chunks[i..][0] == chunks[i];
  }

  function Dist(a: int, b: int): nat {
    if a <= b then b - a else a - b
  }

  /** time.Duration arithmetic saturates at the bounds of int64: the nearest int64 to the exact value. */
  function Clamp64(x: int): (r: int64)
    ensures forall y: int64 :: Dist(r, x) <= Dist(y, x)
  {
    if x < -0x8000_0000_0000_0000 then -0x8000_0000_0000_0000
    else if x >= 0x8000_0000_0000_0000 then 0x7fff_ffff_ffff_ffff
    else x
  }

  /** The record offset: uint32 of the whole milliseconds of time.Since(start). */
  function OffsetMs(start: int64, now: int64): (r: uint32)
    ensures start <= now ==> r == (Clamp64(now - start) / NanosPerMilli) % 0x1_0000_0000
    ensures start <= now && (now - start) / NanosPerMilli < 0x1_0000_0000 ==>
              r == (now - start) / NanosPerMilli
  {
    Wrap32(Quo(Clamp64(now - start), NanosPerMilli))
  }

  /** With a clock that does not go back, offsets do not decrease until they would pass 2^32 ms. */
  lemma OffsetsNonDecreasing(start: int64, now1: int64, now2: int64)
    requires start <= now1 <= now2
    requires (now2 - start) / NanosPerMilli < 0x1_0000_0000
    ensures OffsetMs(start, now1) <= OffsetMs(start, now2)
  {
    assert (now1 - start) / NanosPerMilli <= (now2 - start) / NanosPerMilli;
  }

  /**
   * The record header for a payload. The uint16 arithmetic wraps, but a reader's
   * uint16 subtraction undoes the wrap of Length modulo 2^16, and the tag reads
   * as RTCP exactly when the packet is RTCP or its length is a multiple of 2^16.
   */
  function RecordHeader(payload: seq<byte>, isRtcp: bool, offset: uint32): (h: PacketHeader)
    ensures PayloadLen(h) == |payload| % 0x1_0000
    ensures h.packetLength == if isRtcp then 0 else |payload| % 0x1_0000
    ensures (h.packetLength == 0) == (isRtcp || |payload| % 0x1_0000 == 0)
    ensures h.offset == offset
  {
    PacketHeader(Wrap16(|payload| + PktHeaderLen), if isRtcp then 0 else Wrap16(|payload|), offset)
  }

  /** The file header for a start reading: no source address, no port. */
  function StartHeader(stamp: int64): (h: FileHeader)
    ensures h.source == 0 && h.port == 0
    ensures stamp >= 0 ==> h.startSec == (stamp / NanosPerSecond) % 0x1_0000_0000 &&
                           h.startUsec == (stamp % NanosPerSecond) / NanosPerMicro
  {
    FileHeader(Timestamp(stamp).0, Timestamp(stamp).1, 0, 0)
  }

  /** The two Write calls of writeHeader. */
  function HeaderChunks(stamp: int64): seq<seq<byte>> {
    [Preamble, EncodeFileHeader(StartHeader(stamp))]
  }

  /** The two Write calls that emit one record. */
  function RecordChunks(payload: seq<byte>, isRtcp: bool, offset: uint32): seq<seq<byte>> {
    [EncodePacketHeader(RecordHeader(payload, isRtcp, offset)), payload]
  }

  /** One record as it appears in the file: the record header, then the payload. */
  function EncodeRecord(payload: seq<byte>, isRtcp: bool, offset: uint32): (r: seq<byte>)
    ensures |r| == PktHeaderLen + |payload| && r[PktHeaderLen..] == payload
  {
    EncodePacketHeader(RecordHeader(payload, isRtcp, offset)) + payload
  }

  lemma RecordChunksFlatten(payload: seq<byte>, isRtcp: bool, offset: uint32)
    ensures Flatten(RecordChunks(payload, isRtcp, offset)) == EncodeRecord(payload, isRtcp, offset)
  {
    FlattenPair(EncodePacketHeader(RecordHeader(payload, isRtcp, offset)), payload);
  }

  /** What a Writer holds: the destination, its call count, the start time once taken. */
  datatype WriterState = WriterState(out: seq<byte>, calls: nat, start: Option<int64>)

  /** writePacket as a function of the writer's state. */
  function WritePacketStep(s: WriterState, faults: map<nat, nat>, payload: seq<byte>, isRtcp: bool,
                           clock: Readings): (r: (WriterState, bool))
    // the start is taken once, by the first call, and kept; every call makes at least one Write
    ensures r.0.start == Some(if s.start.Some? then s.start.value else clock.start)
    ensures r.0.calls > s.calls
  {
    var start := if s.start.Some? then s.start.value else clock.start;
    var header := if s.start.Some? then [] else HeaderChunks(clock.stamp);
    var d := Deliver(s.out, s.calls, faults,
                     header + RecordChunks(payload, isRtcp, OffsetMs(start, clock.now)));
    (WriterState(d.out, d.calls, Some(start)), d.ok)
  }

  /**
   * Whatever the faults, what reaches the destination is a prefix of the file
   * header (first call only) followed by the record, and all of it when no
   * Write fails: nothing is ever lost, reordered or added.
   */
  lemma WritePacketStepPrefix(s: WriterState, faults: map<nat, nat>, payload: seq<byte>, isRtcp: bool,
                              clock: Readings)
    ensures var r := WritePacketStep(s, faults, payload, isRtcp, clock);
            s.out <= r.0.out <= s.out + Intended(s.start, payload, isRtcp, clock) &&
            (r.1 ==> r.0.out == s.out + Intended(s.start, payload, isRtcp, clock))
  {
    var start := if s.start.Some? then s.start.value else clock.start;
    var header := if s.start.Some? then [] else HeaderChunks(clock.stamp);
    var record := RecordChunks(payload, isRtcp, OffsetMs(start, clock.now));
    DeliverPrefix(s.out, s.calls, faults, header + record);
    FlattenAppend(header, record);
    FlattenPair(Preamble, EncodeFileHeader(StartHeader(clock.stamp)));
    RecordChunksFlatten(payload, isRtcp, OffsetMs(start, clock.now));
    assert Flatten(header + record) == Intended(s.start, payload, isRtcp, clock);
  }

  /** The bytes one writePacket means to emit: the preamble and file header on the first call, then the record. */
  function Intended(start: Option<int64>, payload: seq<byte>, isRtcp: bool, clock: Readings): seq<byte> {
    if start.Some? then EncodeRecord(payload, isRtcp, OffsetMs(start.value, clock.now))
    else Preamble + EncodeFileHeader(StartHeader(clock.stamp)) + EncodeRecord(payload, isRtcp, OffsetMs(clock.start, clock.now))
  }

  /**
   * The first packet on a fresh writer, with no fault in its four Write calls:
   * the preamble, the 16-byte file header with no source or port, the record
   * header and the payload follow one another, and the start is the first reading.
   */
  lemma FirstWriteLayout(s: WriterState, faults: map<nat, nat>, payload: seq<byte>, isRtcp: bool,
                         clock: Readings)
    requires s.start.None?
    requires forall k :: s.calls <= k < s.calls + 4 ==> k !in faults
    ensures WritePacketStep(s, faults, payload, isRtcp, clock) ==
              (WriterState(s.out + Preamble + EncodeFileHeader(StartHeader(clock.stamp))
                             + EncodeRecord(payload, isRtcp, OffsetMs(clock.start, clock.now)),
                           s.calls + 4, Some(clock.start)), true)
  {
    var chunks := HeaderChunks(clock.stamp) + RecordChunks(payload, isRtcp, OffsetMs(clock.start, clock.now));
    DeliverNoFaults(s.out, s.calls, faults, chunks);
    FlattenAppend(HeaderChunks(clock.stamp), RecordChunks(payload, isRtcp, OffsetMs(clock.start, clock.now)));
    FlattenPair(Preamble, EncodeFileHeader(StartHeader(clock.stamp)));
    RecordChunksFlatten(payload, isRtcp, OffsetMs(clock.start, clock.now));
    var rec := EncodeRecord(payload, isRtcp, OffsetMs(clock.start, clock.now));
    assert Flatten(chunks) == Preamble + EncodeFileHeader(StartHeader(clock.stamp)) + rec;
    assert s.out + Flatten(chunks) == s.out + Preamble + EncodeFileHeader(StartHeader(clock.stamp)) + rec;
  }

  /**
   * Once the start is taken the header is never written again, even if writing
   * it failed: a later packet emits only its record, timed from that start.
   */
  lemma LaterWriteLayout(s: WriterState, faults: map<nat, nat>, payload: seq<byte>, isRtcp: bool,
                         clock: Readings)
    requires s.start.Some?
    ensures WritePacketStep(s, faults, payload, isRtcp, clock) ==
              var d := Deliver(s.out, s.calls, faults, RecordChunks(payload, isRtcp, OffsetMs(s.start.value, clock.now)));
              (WriterState(d.out, d.calls, s.start), d.ok)
    ensures (forall k :: s.calls <= k < s.calls + 2 ==> k !in faults) ==>
              WritePacketStep(s, faults, payload, isRtcp, clock).0.out ==
                s.out + EncodeRecord(payload, isRtcp, OffsetMs(s.start.value, clock.now))
  {
    assert [] + RecordChunks(payload, isRtcp, OffsetMs(s.start.value, clock.now))
        == RecordChunks(payload, isRtcp, OffsetMs(s.start.value, clock.now));
    if forall k :: s.calls <= k < s.calls + 2 ==> k !in faults {
      DeliverNoFaults(s.out, s.calls, faults, RecordChunks(payload, isRtcp, OffsetMs(s.start.value, clock.now)));
      RecordChunksFlatten(payload, isRtcp, OffsetMs(s.start.value, clock.now));
    }
  }

  /** Without faults, a packet written after the start was taken appends exactly its record. */
  lemma StepAfterStart(s: WriterState, payload: seq<byte>, isRtcp: bool, clock: Readings)
    requires s.start.Some?
    ensures WritePacketStep(s, map[], payload, isRtcp, clock) ==
              (WriterState(s.out + EncodeRecord(payload, isRtcp, OffsetMs(s.start.value, clock.now)),
                           s.calls + 2, s.start), true)
  {
    var chunks := RecordChunks(payload, isRtcp, OffsetMs(s.start.value, clock.now));
    assert [] + chunks == chunks;
    DeliverNoFaults(s.out, s.calls, map[], chunks);
    RecordChunksFlatten(payload, isRtcp, OffsetMs(s.start.value, clock.now));
  }

  /**
   * If a Write of the header fails, writePacket returns the error at once: no
   * record byte reaches the destination, and the start stays taken.
   */
  lemma HeaderFailureSkipsPayload(s: WriterState, faults: map<nat, nat>, payload: seq<byte>, isRtcp: bool,
                                  clock: Readings)
    requires s.start.None?
    requires s.calls in faults || s.calls + 1 in faults
    ensures var (s', ok) := WritePacketStep(s, faults, payload, isRtcp, clock);
            !ok && s'.start == Some(clock.start) &&
            s'.out <= s.out + Preamble + EncodeFileHeader(StartHeader(clock.stamp))
  {
    var header := HeaderChunks(clock.stamp);
    var chunks := header + RecordChunks(payload, isRtcp, OffsetMs(clock.start, clock.now));
    var i := if s.calls in faults then 0 else 1;
    DeliverStopsAtFault(s.out, s.calls, faults, chunks, i);
    assert chunks[..0] == [];
    assert chunks[..1] == [Preamble];
    assert Flatten([Preamble]) == Preamble;
    assert chunks[i] == header[i];
  }

  /**
   * If the Write of a record header fails, writePacket returns the error and
   * the payload is never written: at most the record header's 8 bytes reach
   * the destination in this call.
   */
  lemma RecordHeaderFailureSkipsPayload(s: WriterState, faults: map<nat, nat>, payload: seq<byte>, isRtcp: bool,
                                        clock: Readings)
    requires s.start.Some? && s.calls in faults
    ensures var (s', ok) := WritePacketStep(s, faults, payload, isRtcp, clock);
            !ok && s' == WriterState(s'.out, s.calls + 1, s.start) &&
            s'.out <= s.out + EncodePacketHeader(RecordHeader(payload, isRtcp, OffsetMs(s.start.value, clock.now))) &&
            |s'.out| <= |s.out| + PktHeaderLen
  {
    var chunks := RecordChunks(payload, isRtcp, OffsetMs(s.start.value, clock.now));
    assert [] + chunks == chunks;
    DeliverStopsAtFault(s.out, s.calls, faults, chunks, 0);
    assert chunks[..0] == [];
  }

  /**
   * The same on the first packet: the preamble and the file header went out,
   * the record header's Write fails, and the payload is never written.
   */
  lemma FirstRecordHeaderFailureSkipsPayload(s: WriterState, faults: map<nat, nat>, payload: seq<byte>,
                                             isRtcp: bool, clock: Readings)
    requires s.start.None? && s.calls !in faults && s.calls + 1 !in faults && s.calls + 2 in faults
    ensures var (s', ok) := WritePacketStep(s, faults, payload, isRtcp, clock);
            var header := Preamble + EncodeFileHeader(StartHeader(clock.stamp));
            !ok && s' == WriterState(s'.out, s.calls + 3, Some(clock.start)) &&
            s.out + header <= s'.out <=
              s.out + header + EncodePacketHeader(RecordHeader(payload, isRtcp, OffsetMs(clock.start, clock.now)))
  {
    var chunks := HeaderChunks(clock.stamp) + RecordChunks(payload, isRtcp, OffsetMs(clock.start, clock.now));
    DeliverStopsAtFault(s.out, s.calls, faults, chunks, 2);
    assert chunks[..2] == HeaderChunks(clock.stamp);
    FlattenPair(Preamble, EncodeFileHeader(StartHeader(clock.stamp)));
  }

  class Writer {
    var out: seq<byte>
    var calls: nat
    const faults: map<nat, nat>
    var start: Option<int64>

    function State(): WriterState
      reads this
    {
      WriterState(out, calls, start)
    }

    /** The start is taken exactly when the destination has seen a Write call, and nothing is written before. */
    ghost predicate Valid()
      reads this
    {
      (start.Some? <==> calls > 0) && (start.None? ==> out == [])
    }

    /** NewWriter: nothing written yet and no start time. */
    constructor (faults: map<nat, nat>)
      ensures Valid() && State() == WriterState([], 0, None) && this.faults == faults
    {
      out, calls, start := [], 0, None;
      this.faults := faults;
    }

    /** headerWritten: whether the start time has been taken. */
    function HeaderWritten(): (r: bool)
      reads this
      requires Valid()
      ensures r <==> calls > 0
    {
      start.Some?
    }

    /** One Write call on the destination. */
    method WriteChunk(chunk: seq<byte>) returns (ok: bool)
      modifies this
      ensures start == old(start)
      ensures Delivery(out, calls, ok) == Deliver(old(out), old(calls), faults, [chunk])
    {
      if calls in faults {
        out, ok := out + chunk[..Min(faults[calls], |chunk|)], false;
      } else {
        out, ok := out + chunk, true;
        assert [chunk][1..] == [];
      }
      calls := calls + 1;
    }

    /** writeHeader: take the start, then write the preamble and the file header. */
    method WriteHeader(startReading: int64, stamp: int64) returns (err: Option<WriteError>)
      modifies this
      ensures start == Some(startReading)
      ensures Delivery(out, calls, err.None?) == Deliver(old(out), old(calls), faults, HeaderChunks(stamp))
      ensures err.Some? ==> err.value == WriteFailed
    {
      start := Some(startReading);
      var t := Timestamp(stamp);
      var hdr := FileHeader(t.0, t.1, 0, 0);
      ghost var out0, calls0 := out, calls;
      DeliverAppend(out0, calls0, faults, [Preamble], [EncodeFileHeader(hdr)]);
      var ok := WriteChunk(Preamble);
      if !ok {
        return Some(WriteFailed);
      }
      ok := WriteChunk(EncodeFileHeader(hdr));
      err := if ok then None else Some(WriteFailed);
    }

    /** writePacket: the header first if it was never attempted, then one record. */
    method WritePacket(payload: seq<byte>, isRtcp: bool, clock: Readings) returns (err: Option<WriteError>)
      requires Valid()
      modifies this
      ensures Valid()
      ensures (State(), err.None?) == WritePacketStep(old(State()), faults, payload, isRtcp, clock)
      ensures err.Some? ==> err.value == WriteFailed
    {
      ghost var s0 := State();
      ghost var header := if s0.start.Some? then [] else HeaderChunks(clock.stamp);
      if !HeaderWritten() {
        err := WriteHeader(clock.start, clock.stamp);
        if err.Some? {
          DeliverAppend(s0.out, s0.calls, faults, header,
                        RecordChunks(payload, isRtcp, OffsetMs(clock.start, clock.now)));
          return err;
        }
      }
      var offsetMs := OffsetMs(start.value, clock.now);
      var pLen := Wrap16(|payload|);
      if isRtcp {
        pLen := 0;
      }
      var hdr := PacketHeader(Wrap16(|payload| + PktHeaderLen), pLen, offsetMs);
      ghost var out1, calls1 := out, calls;
      DeliverAppend(s0.out, s0.calls, faults, header, RecordChunks(payload, isRtcp, offsetMs));
      DeliverAppend(out1, calls1, faults, [EncodePacketHeader(hdr)], [payload]);
      var ok := WriteChunk(EncodePacketHeader(hdr));
      if !ok {
        return Some(WriteFailed);
      }
      ok := WriteChunk(payload);
      err := if ok then None else Some(WriteFailed);
    }

    /** WriteRTP: marshal the packet, then write it as an RTP record. */
    method WriteRtp<R>(p: R, marshal: R -> Option<seq<byte>>, clock: Readings) returns (err: Option<WriteError>)
      requires Valid()
      modifies this
      ensures Valid()
      ensures marshal(p).None? ==> err == Some(MarshalFailed) && State() == old(State())
      ensures marshal(p).Some? ==>
                (State(), err.None?) == WritePacketStep(old(State()), faults, marshal(p).value, false, clock)
      ensures marshal(p).Some? && err.Some? ==> err.value == WriteFailed
    {
      var payload := marshal(p);
      if payload.None? {
        return Some(MarshalFailed);
      }
      err := WritePacket(payload.value, false, clock);
    }

    /** WriteRTCP: marshal the packet, then write it as an RTCP record. */
    method WriteRtcp<C>(p: C, marshal: C -> Option<seq<byte>>, clock: Readings) returns (err: Option<WriteError>)
      requires Valid()
      modifies this
      ensures Valid()
      ensures marshal(p).None? ==> err == Some(MarshalFailed) && State() == old(State())
      ensures marshal(p).Some? ==>
                (State(), err.None?) == WritePacketStep(old(State()), faults, marshal(p).value, true, clock)
      ensures marshal(p).Some? && err.Some? ==> err.value == WriteFailed
    {
      var payload := marshal(p);
      if payload.None? {
        return Some(MarshalFailed);
      }
      err := WritePacket(payload.value, true, clock);
    }
  }
}

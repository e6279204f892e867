/**
 * Writer output read back by the reader: the preamble passes the reader's
 * check, the file header comes back with its structured fields, and every
 * record comes back with its payload bytes, offset and tag, in order.
 */
module RoundTrip {
  import opened Wrappers
  import opened RtpDump
  import opened DumpReader
  import opened DumpWriter

  /** The writer's preamble is one line that carries the reader's magic prefix. */
  lemma PreambleAccepted()
    ensures IsLine(Preamble) && HasPrefix(Preamble, Magic)
  {
    assert Preamble[..|Magic|] == Magic;
  }

  /**
   * A reader opened on what the writer emitted first gets back the file header
   * the writer built: start seconds and microseconds, and the zero source and port.
   */
  lemma {:induction false} FileStartRoundTrip(stamp: int64, records: seq<byte>)
    ensures ParseFileStart(Preamble + EncodeFileHeader(StartHeader(stamp)) + records) ==
              Ok(FileStart(ToHeader(StartHeader(stamp)), |Preamble| + FileHeaderLen))
    ensures ToHeader(StartHeader(stamp)).source == [0, 0, 0, 0] && ToHeader(StartHeader(stamp)).port == 0
    ensures 0 <= stamp && stamp / NanosPerSecond < 0x1_0000_0000 ==>
              ToHeader(StartHeader(stamp)).start == stamp - stamp % 1000
  {
    var fixed := EncodeFileHeader(StartHeader(stamp));
    PreambleAccepted();
    assert Preamble + fixed + records == Preamble + (fixed + records);
    ParseFileStartCases(Preamble, fixed + records);
    assert (fixed + records)[..FileHeaderLen] == fixed;
    FileHeaderRoundTrip(StartHeader(stamp));
    var src := ToHeader(StartHeader(stamp)).source;
    BE32OfU32(src);
    assert BE32(0) == [0, 0, 0, 0];
    if 0 <= stamp && stamp / NanosPerSecond < 0x1_0000_0000 {
      TimestampRoundTrip(stamp, 0, 0);
    }
  }

  /**
   * One record read back where the writer put it: Next consumes exactly the
   * record and hands exactly the written payload to the codec of its tag. The
   * tag reads as RTCP for RTCP packets and also for an empty RTP payload.
   */
  lemma {:induction false} RecordRoundTrip<R, C>(pre: seq<byte>, payload: seq<byte>, isRtcp: bool,
                                                 offset: uint32, rest: seq<byte>,
                                                 decodeRtp: seq<byte> -> Option<R>,
                                                 decodeRtcp: seq<byte> -> Option<C>)
    requires |payload| < 0x1_0000
    ensures NextRecord(pre + EncodeRecord(payload, isRtcp, offset) + rest, |pre|, decodeRtp, decodeRtcp) ==
              Step(Dispatch(offset, isRtcp || |payload| == 0, payload, decodeRtp, decodeRtcp),
                   |pre| + PktHeaderLen + |payload|)
  {
    var h := RecordHeader(payload, isRtcp, offset);
    var data := pre + EncodeRecord(payload, isRtcp, offset) + rest;
    assert data[|pre|..|pre| + PktHeaderLen] == EncodePacketHeader(h);
    PacketHeaderRoundTrip(h);
    assert data[|pre| + PktHeaderLen..|pre| + PktHeaderLen + |payload|] == payload;
  }

  /**
   * The limit of the format: a 65536-byte payload gets Length 8, so a reader
   * takes the record header alone and leaves the whole payload unread; an RTP
   * payload of that size is moreover tagged RTCP.
   */
  lemma {:induction false} OversizedRecordMisread<R, C>(pre: seq<byte>, payload: seq<byte>, isRtcp: bool,
                                                        offset: uint32, rest: seq<byte>,
                                                        decodeRtp: seq<byte> -> Option<R>,
                                                        decodeRtcp: seq<byte> -> Option<C>)
    requires |payload| == 0x1_0000
    ensures NextRecord(pre + EncodeRecord(payload, isRtcp, offset) + rest, |pre|, decodeRtp, decodeRtcp) ==
              Step(Dispatch(offset, true, [], decodeRtp, decodeRtcp), |pre| + PktHeaderLen)
  {
    var h := RecordHeader(payload, isRtcp, offset);
    var data := pre + EncodeRecord(payload, isRtcp, offset) + rest;
    assert data[|pre|..|pre| + PktHeaderLen] == EncodePacketHeader(h);
    PacketHeaderRoundTrip(h);
    assert data[|pre| + PktHeaderLen..|pre| + PktHeaderLen] == [];
  }

  // ---------------------------------------------------------------------------
  // Whole sessions
  //
  // The lemmas below are stated over function-valued parameters (a writer step,
  // a record encoding) so that each proof sees one record's bytes at a time.

  /** One call of WriteRTP (isRtcp false) or WriteRTCP (isRtcp true) with its marshalled payload. */
  datatype Outgoing = Outgoing(payload: seq<byte>, isRtcp: bool, clock: Readings)

  function Concat<X>(xs: seq<X>, enc: X -> seq<byte>): seq<byte>
    decreases |xs|
  {
    if xs == [] then [] else enc(xs[0]) + Concat(xs[1..], enc)
  }

  function MapSeq<X, Y>(xs: seq<X>, f: X -> Y): (ys: seq<Y>)
    ensures |ys| == |xs|
    decreases |xs|
  {
    if xs == [] then [] else [f(xs[0])] + MapSeq(xs[1..], f)
  }

  /** Successive calls of a writer step on one writer; `ok` when none of them failed. */
  function Run(s: WriterState, ps: seq<Outgoing>, step: (WriterState, Outgoing) -> (WriterState, bool))
    : (WriterState, bool)
    decreases |ps|
  {
    if ps == [] then (s, true)
    else
      var first := step(s, ps[0]);
      var others := Run(first.0, ps[1..], step);
      (others.0, first.1 && others.1)
  }

  /** writePacket on a writer whose destination has the given fault plan. */
  function WriterStep(faults: map<nat, nat>): (WriterState, Outgoing) -> (WriterState, bool) {
    (s: WriterState, o: Outgoing) => WritePacketStep(s, faults, o.payload, o.isRtcp, o.clock)
  }

  /** A run of WriteRTP/WriteRTCP calls on one writer. */
  function WriteAll(s: WriterState, faults: map<nat, nat>, ps: seq<Outgoing>): (WriterState, bool) {
    Run(s, ps, WriterStep(faults))
  }

  /** The bytes of a packet's record, timed from `start`. */
  function TimedRecord(start: int64): Outgoing -> seq<byte> {
    (o: Outgoing) => EncodeRecord(o.payload, o.isRtcp, OffsetMs(start, o.clock.now))
  }

  /** What a reader makes of a packet's record, timed from `start`. */
  function TimedPacket<R, C>(start: int64, decodeRtp: seq<byte> -> Option<R>, decodeRtcp: seq<byte> -> Option<C>)
    : Outgoing -> Result<Packet<R, C>, ReadError>
  {
    (o: Outgoing) => Dispatch(OffsetMs(start, o.clock.now), o.isRtcp || |o.payload| == 0, o.payload,
                              decodeRtp, decodeRtcp)
  }

  /** Results of successive calls of Next, with the read position after the last. */
  datatype Replay<R, C> = Replay(results: seq<Result<Packet<R, C>, ReadError>>, pos: nat)

  function ReadAll<R, C>(data: seq<byte>, pos: nat, n: nat,
                         decodeRtp: seq<byte> -> Option<R>,
                         decodeRtcp: seq<byte> -> Option<C>): Replay<R, C>
    requires pos <= |data|
    decreases n
  {
    if n == 0 then Replay([], pos)
    else
      var st := NextRecord(data, pos, decodeRtp, decodeRtcp);
      var more := ReadAll(data, st.pos, n - 1, decodeRtp, decodeRtcp);
      Replay([st.result] + more.results, more.pos)
  }

  /** A step that, once the start is taken, appends one encoded record per call, runs to all the records. */
  lemma {:induction false} RunAfterStart(s: WriterState, ps: seq<Outgoing>,
                                         step: (WriterState, Outgoing) -> (WriterState, bool),
                                         enc: Outgoing -> seq<byte>)
    requires s.start.Some?
    requires forall t: WriterState, o: Outgoing :: t.start == s.start ==>
               step(t, o) == (WriterState(t.out + enc(o), t.calls + 2, t.start), true)
    ensures Run(s, ps, step) == (WriterState(s.out + Concat(ps, enc), s.calls + 2 * |ps|, s.start), true)
    decreases |ps|
  {
    if ps == [] {
      assert s.out + [] == s.out;
    } else {
      var s1 := WriterState(s.out + enc(ps[0]), s.calls + 2, s.start);
      RunAfterStart(s1, ps[1..], step, enc);
      assert s1.out + Concat(ps[1..], enc) == s.out + Concat(ps, enc);
    }
  }

  /** The first of the records, read where it lies. */
  lemma ReadFirst<X, R, C>(pre: seq<byte>, xs: seq<X>, tail: seq<byte>,
                           enc: X -> seq<byte>, outcome: X -> Result<Packet<R, C>, ReadError>,
                           decodeRtp: seq<byte> -> Option<R>,
                           decodeRtcp: seq<byte> -> Option<C>)
    requires xs != []
    requires forall p: seq<byte>, x: X, q: seq<byte> :: x in xs ==>
               NextRecord(p + enc(x) + q, |p|, decodeRtp, decodeRtcp) == Step(outcome(x), |p| + |enc(x)|)
    ensures NextRecord(pre + enc(xs[0]) + tail, |pre|, decodeRtp, decodeRtcp) ==
              Step(outcome(xs[0]), |pre| + |enc(xs[0])|)
  {
    assert xs[0] in xs;
  }

  /** Records that each read back as expected read back in order when laid end to end. */
  lemma {:induction false} ReadBack<X, R, C>(pre: seq<byte>, xs: seq<X>, rest: seq<byte>,
                                             enc: X -> seq<byte>, outcome: X -> Result<Packet<R, C>, ReadError>,
                                             decodeRtp: seq<byte> -> Option<R>,
                                             decodeRtcp: seq<byte> -> Option<C>)
    requires forall p: seq<byte>, x: X, q: seq<byte> :: x in xs ==>
               NextRecord(p + enc(x) + q, |p|, decodeRtp, decodeRtcp) == Step(outcome(x), |p| + |enc(x)|)
    ensures ReadAll(pre + Concat(xs, enc) + rest, |pre|, |xs|, decodeRtp, decodeRtcp) ==
              Replay(MapSeq(xs, outcome), |pre| + |Concat(xs, enc)|)
    decreases |xs|
  {
    if xs != [] {
      var head := pre + enc(xs[0]);
      var tail := Concat(xs[1..], enc);
      var data := pre + Concat(xs, enc) + rest;
      assert data == pre + enc(xs[0]) + (tail + rest) == head + tail + rest;
      ReadFirst(pre, xs, tail + rest, enc, outcome, decodeRtp, decodeRtcp);
      var st := NextRecord(data, |pre|, decodeRtp, decodeRtcp);
      assert st == Step(outcome(xs[0]), |head|);
      assert forall x :: x in xs[1..] ==> x in xs;
      ReadBack(head, xs[1..], rest, enc, outcome, decodeRtp, decodeRtcp);
      var more := ReadAll(data, |head|, |xs| - 1, decodeRtp, decodeRtcp);
      assert more == Replay(MapSeq(xs[1..], outcome), |head| + |tail|);
      assert ReadAll(data, |pre|, |xs|, decodeRtp, decodeRtcp) == Replay([st.result] + more.results, more.pos);
      assert MapSeq(xs, outcome) == [outcome(xs[0])] + MapSeq(xs[1..], outcome);
    }
  }

  /** Once the start is taken, a fault-free writer step appends exactly the packet's timed record. */
  lemma WriterStepAfterStart(start: int64)
    ensures forall t: WriterState, o: Outgoing :: t.start == Some(start) ==>
              WriterStep(map[])(t, o) == (WriterState(t.out + TimedRecord(start)(o), t.calls + 2, t.start), true)
  {
    forall t: WriterState, o: Outgoing | t.start == Some(start)
      ensures WriterStep(map[])(t, o) == (WriterState(t.out + TimedRecord(start)(o), t.calls + 2, t.start), true)
    {
      StepAfterStart(t, o.payload, o.isRtcp, o.clock);
    }
  }

  /** After the first packet, a fault-free writer appends one record per packet, all timed from one start. */
  lemma WriteAllAfterStart(s: WriterState, ps: seq<Outgoing>)
    requires s.start.Some?
    ensures WriteAll(s, map[], ps) ==
              (WriterState(s.out + Concat(ps, TimedRecord(s.start.value)), s.calls + 2 * |ps|, s.start), true)
  {
    WriterStepAfterStart(s.start.value);
    RunAfterStart(s, ps, WriterStep(map[]), TimedRecord(s.start.value));
  }

  /**
   * A step that first emits `head` and the first record, and after that one
   * record per call, runs on a fresh writer to `head` and all the records.
   */
  lemma RunFromFresh(ps: seq<Outgoing>, step: (WriterState, Outgoing) -> (WriterState, bool),
                     enc: Outgoing -> seq<byte>, head: seq<byte>, start: int64)
    requires |ps| > 0
    requires step(WriterState([], 0, None), ps[0]) == (WriterState(head + enc(ps[0]), 4, Some(start)), true)
    requires forall t: WriterState, o: Outgoing :: t.start == Some(start) ==>
               step(t, o) == (WriterState(t.out + enc(o), t.calls + 2, t.start), true)
    ensures Run(WriterState([], 0, None), ps, step) ==
              (WriterState(head + Concat(ps, enc), 2 + 2 * |ps|, Some(start)), true)
  {
    var s1 := WriterState(head + enc(ps[0]), 4, Some(start));
    RunAfterStart(s1, ps[1..], step, enc);
    assert s1.out + Concat(ps[1..], enc) == head + Concat(ps, enc);
  }

  /** The first packet on a fresh fault-free writer emits the preamble, the file header and its record. */
  lemma FirstStep(p: Outgoing)
    ensures WriterStep(map[])(WriterState([], 0, None), p) ==
              (WriterState(Preamble + EncodeFileHeader(StartHeader(p.clock.stamp)) + TimedRecord(p.clock.start)(p),
                           4, Some(p.clock.start)), true)
  {
    FirstWriteLayout(WriterState([], 0, None), map[], p.payload, p.isRtcp, p.clock);
    assert [] + Preamble == Preamble;
  }

  /** A fresh fault-free writer emits the preamble, the file header, then the records in order. */
  lemma SessionLayout(ps: seq<Outgoing>)
    requires |ps| > 0
    ensures WriteAll(WriterState([], 0, None), map[], ps) ==
              (WriterState(Preamble + EncodeFileHeader(StartHeader(ps[0].clock.stamp))
                             + Concat(ps, TimedRecord(ps[0].clock.start)),
                           2 + 2 * |ps|, Some(ps[0].clock.start)), true)
  {
    FirstStep(ps[0]);
    WriterStepAfterStart(ps[0].clock.start);
    RunFromFresh(ps, WriterStep(map[]), TimedRecord(ps[0].clock.start),
                 Preamble + EncodeFileHeader(StartHeader(ps[0].clock.stamp)), ps[0].clock.start);
  }

  /** Each written record reads back as its own packet. */
  lemma TimedRecordsReadBack<R, C>(start: int64, ps: seq<Outgoing>,
                                   decodeRtp: seq<byte> -> Option<R>,
                                   decodeRtcp: seq<byte> -> Option<C>)
    requires forall o :: o in ps ==> |o.payload| < 0x1_0000
    ensures forall p: seq<byte>, o: Outgoing, q: seq<byte> :: o in ps ==>
              NextRecord(p + TimedRecord(start)(o) + q, |p|, decodeRtp, decodeRtcp) ==
                Step(TimedPacket(start, decodeRtp, decodeRtcp)(o), |p| + |TimedRecord(start)(o)|)
  {
    forall p: seq<byte>, o: Outgoing, q: seq<byte> | o in ps
      ensures NextRecord(p + TimedRecord(start)(o) + q, |p|, decodeRtp, decodeRtcp) ==
                Step(TimedPacket(start, decodeRtp, decodeRtcp)(o), |p| + |TimedRecord(start)(o)|)
    {
      RecordRoundTrip(p, o.payload, o.isRtcp, OffsetMs(start, o.clock.now), q, decodeRtp, decodeRtcp);
    }
  }

  /**
   * The end-to-end round trip: a fault-free writer's output opens as a file
   * whose header is the writer's, yields every packet with its payload, offset
   * and tag in the order written, and then ends cleanly with io.EOF.
   */
  lemma SessionRoundTrip<R, C>(ps: seq<Outgoing>,
                               decodeRtp: seq<byte> -> Option<R>,
                               decodeRtcp: seq<byte> -> Option<C>)
    requires |ps| > 0 && forall o :: o in ps ==> |o.payload| < 0x1_0000
    ensures var out := WriteAll(WriterState([], 0, None), map[], ps).0.out;
            ParseFileStart(out) == Ok(FileStart(ToHeader(StartHeader(ps[0].clock.stamp)), |Preamble| + FileHeaderLen)) &&
            ReadAll(out, |Preamble| + FileHeaderLen, |ps|, decodeRtp, decodeRtcp) ==
              Replay(MapSeq(ps, TimedPacket(ps[0].clock.start, decodeRtp, decodeRtcp)), |out|) &&
            NextRecord(out, |out|, decodeRtp, decodeRtcp).result == Err(EOF)
  {
    var start := ps[0].clock.start;
    SessionLayout(ps);
    var head := Preamble + EncodeFileHeader(StartHeader(ps[0].clock.stamp));
    var records := Concat(ps, TimedRecord(start));
    FileStartRoundTrip(ps[0].clock.stamp, records);
    TimedRecordsReadBack(start, ps, decodeRtp, decodeRtcp);
    ReadBack(head, ps, [], TimedRecord(start), TimedPacket(start, decodeRtp, decodeRtcp), decodeRtp, decodeRtcp);
    assert head + records + [] == head + records;
  }
}

# RTPdump codec, modelled and verified in Dafny

This project models `pkg/rtpdump`, the reader and writer of a Go media library for the
RTPdump capture format of Columbia's rtptools. An RTPdump file has three parts:

- a text preamble line `#!rtpplay1.0 <address>/<port>\n`;
- a 16-byte big-endian file header that holds the start of recording (seconds and
  microseconds), a network source address, a UDP port and two padding bytes;
- a sequence of records. Each record is an 8-byte big-endian header (`Length`,
  `PacketLength`, `Offset`) followed by the captured packet. `PacketLength == 0`
  marks an RTCP packet.

The model has five modules, one per file:

- `Wrappers` (`wrappers.dfy`): `Option` and `Result`.
- `RtpDump` (`rtpdump.dfy`): the wire layouts and conversions of `rtpdump.go`, as pure functions.
  - Go's fixed-width integers are subset types of `int`.
  - Go's truncating `/` and `%` are written out (`Quo`, `Rem`), and so are its wrapping conversions (`Wrap16`, `Wrap32`).
  - Big-endian encode/decode come with round-trip lemmas in both directions.
- `DumpReader` (`reader.dfy`): `reader.go`.
  - The buffered reader is the class `Stream`: the input bytes plus a read position that each read advances.
  - `Reader` holds that stream and the parsed header.
  - `NewReader` and `Reader.Next` are methods proved equal to the specification functions `ParseFileStart` and `NextRecord`.
  - Lemmas about these functions state the error cases and success cases of the source.
- `DumpWriter` (`writer.dfy`): `writer.go`.
  - The class `Writer` holds the destination's bytes, the number of Write calls made on it and the start time once taken.
  - The destination is given a fixed fault plan: the Write call numbered `k` in `faults` stores only a prefix of its chunk and fails. This makes every early return of the source observable.
  - `Writer.WritePacket` is proved equal to the state function `WritePacketStep`, and lemmas describe that function's output.
- `RoundTrip` (`roundtrip.dfy`): writer output read back by the reader.
  - This covers one record, the file header and a whole fault-free session.
  - The session proofs are stated over function-valued parameters, so that each proof reasons about one record at a time.

The payload codecs (RTP/RTCP marshal and unmarshal) are function-typed parameters of type
`seq<byte> -> Option<_>` or `_ -> Option<seq<byte>>`. The clock is passed in as readings in
nanoseconds (`Readings`):
- `start` and `stamp` are the two `time.Now()` calls of `writeHeader`;
- `now` is the reading behind `time.Since`.

Facts about the code that the model makes explicit:

- The file header is 16 bytes: three `uint32`, a `uint16` and 2 padding bytes (`FileHeaderLen`).
- `io.ReadFull` gives `io.EOF` when a record header that announces a non-empty payload is followed by
  no payload byte, and
  `io.ErrUnexpectedEOF` when only part of the payload is there. `NextRecord` states both cases.
- The writer→reader round trip holds for every payload below 65536 bytes. The writer's `uint16`
  wrap of `Length` is undone by the reader's `uint16` subtraction.
  - An empty RTP payload reads back tagged RTCP.
  - A 65536-byte payload is misread (`OversizedRecordMisread`).

## Model

| member | source | states |
|---|---|---|
| RtpDump.Quo | pkg/rtpdump/rtpdump.go:69-70 | Go's signed division truncates toward zero: the remainder lies in [0, b) for a non-negative dividend and in (-b, 0] for a negative one |
| RtpDump.U16OfBE16 | pkg/rtpdump/rtpdump.go:55-63 | reading back a big-endian uint16 gives the value written |
| RtpDump.BE16OfU16 | pkg/rtpdump/rtpdump.go:55-63 | every 2 bytes are the big-endian form of exactly one uint16 |
| RtpDump.U32OfBE32 | pkg/rtpdump/rtpdump.go:19-29 | reading back a big-endian uint32 gives the value written |
| RtpDump.BE32OfU32 | pkg/rtpdump/rtpdump.go:19-29 | every 4 bytes are the big-endian form of exactly one uint32 |
| RtpDump.EncodeFileHeader | pkg/rtpdump/rtpdump.go:19-29 | the file header is exactly 16 bytes on the wire |
| RtpDump.DecodeFileHeader | pkg/rtpdump/reader.go:36-37 | binary.Read of the file header: the decoded fields encode back to the 14 field bytes read, followed by zero padding |
| RtpDump.FileHeaderRoundTrip | pkg/rtpdump/rtpdump.go:19-29 | decoding an encoded file header gives back StartSec, StartUsec, Source and Port |
| RtpDump.ToHeader | pkg/rtpdump/rtpdump.go:31-44 | Header(): start is StartSec*10^9 + StartUsec*1000 ns; source is 4 octets whose big-endian value is Source; port is Port unchanged |
| RtpDump.OctetsAreBigEndian | pkg/rtpdump/rtpdump.go:33-38 | the octets `byte(x>>24) … byte(x)` are the big-endian encoding of x |
| RtpDump.Timestamp | pkg/rtpdump/rtpdump.go:67-72 | for ns >= 0: sec = (ns / 10^9) mod 2^32, usec = (ns mod 10^9) / 1000 and usec < 10^6 |
| RtpDump.TimestampRoundTrip | pkg/rtpdump/rtpdump.go:67-72 | when the seconds fit in 32 bits, Header() of a header built from timestamp(ns) starts at ns truncated to a whole microsecond |
| RtpDump.EncodePacketHeader | pkg/rtpdump/rtpdump.go:55-65 | a record header is exactly pktHeaderLen = 8 bytes on the wire |
| RtpDump.DecodePacketHeader | pkg/rtpdump/reader.go:48-49 | binary.Read of a record header: the decoded header encodes back to exactly the 8 bytes read |
| RtpDump.PayloadLen | pkg/rtpdump/reader.go:57 | `h.Length-pktHeaderLen` in uint16: Length - 8 when Length >= 8, and Length + 65536 - 8 when the subtraction wraps |
| RtpDump.PacketHeaderRoundTrip | pkg/rtpdump/rtpdump.go:55-65 | decoding an encoded record header gives back Length, PacketLength and Offset |
| DumpReader.MagicText | pkg/rtpdump/reader.go:32 | the magic prefix is the ASCII text `#!rtpplay1.0 ` |
| DumpReader.IndexOf | pkg/rtpdump/reader.go:28 | finds the first occurrence of the delimiter at or after a position, or reports that there is none |
| DumpReader.Stream.constructor | pkg/rtpdump/reader.go:26 | a new buffered reader starts at position 0 of its input |
| DumpReader.ReadStringAtSpec | pkg/rtpdump/reader.go:28-31 | ReadString succeeds exactly when the delimiter occurs: it returns the bytes through its first occurrence and moves past them; otherwise io.EOF with the input consumed |
| DumpReader.ReadFullAtSpec | pkg/rtpdump/reader.go:59-61 | ReadFull succeeds exactly when n bytes are left and then returns those bytes; otherwise io.EOF if none is left and io.ErrUnexpectedEOF if some are, with the input consumed |
| DumpReader.Stream.ReadString | pkg/rtpdump/reader.go:28-31 | ReadString returns the bytes up to and including the delimiter and moves past them, or io.EOF at the end of input when there is no delimiter |
| DumpReader.Stream.ReadFull | pkg/rtpdump/reader.go:59-61 | io.ReadFull returns exactly n bytes and moves past them; too few bytes give io.EOF if none was left and io.ErrUnexpectedEOF otherwise |
| DumpReader.ParseFileStart | pkg/rtpdump/reader.go:25-45 | when NewReader succeeds, the records begin within the input |
| DumpReader.IndexOfFirstLine | pkg/rtpdump/reader.go:28 | the preamble read ends at the first newline |
| DumpReader.ParseFileStartCases | pkg/rtpdump/reader.go:28-44 | for input made of a line and a rest: "invalid header" if the line lacks the prefix (the rest of the line is ignored); an error whose message carries io.EOF or io.ErrUnexpectedEOF if fewer than 16 bytes follow; otherwise the decoded header, with the records starting at line length + 16 |
| DumpReader.NoLineFails | pkg/rtpdump/reader.go:28-31 | input without a newline makes NewReader fail with io.EOF |
| DumpReader.Dispatch | pkg/rtpdump/reader.go:63-80 | the tag selects the codec; success carries the wire offset, the tag and exactly the payload of the tag's kind; a codec failure is that codec's error |
| DumpReader.NextRecord | pkg/rtpdump/reader.go:47-83 | fewer than 8 bytes left give io.EOF (none left) or io.ErrUnexpectedEOF; too short a payload is an error, never a short read; otherwise Next advances by exactly 8 + (Length-8 mod 2^16) and dispatches that payload on PacketLength == 0 |
| DumpReader.Reader.constructor | pkg/rtpdump/reader.go:41-44 | the Reader keeps the stream and the header parsed from its input |
| DumpReader.Reader.Header | pkg/rtpdump/reader.go:21-23 | Header() is the header NewReader parsed from the input, unchanged for the Reader's lifetime |
| DumpReader.Reader.Next | pkg/rtpdump/reader.go:47-83 | Next's result and new read position are those of NextRecord from the old position; the Reader stays valid |
| DumpReader.NewReader | pkg/rtpdump/reader.go:25-45 | NewReader fails exactly with ParseFileStart's error; on success the Reader is positioned right after the 16-byte header, with the parsed header |
| DumpWriter.PreambleText | pkg/rtpdump/writer.go:13 | the writer's preamble is the ASCII text `#!rtpplay1.0 0.0.0.0/0\n` |
| DumpWriter.Deliver | pkg/rtpdump/writer.go:47-51 | every Write call is counted; a non-empty run makes at least one call |
| DumpWriter.DeliverNoFaults | pkg/rtpdump/writer.go:94-100 | with no failing call, a run of writes appends every chunk in order and succeeds |
| DumpWriter.DeliverStopsAtFault | pkg/rtpdump/writer.go:94-100 | the first failing Write ends the run with an error; earlier chunks are whole, none after it is attempted |
| DumpWriter.Clamp64 | pkg/rtpdump/writer.go:81 | time.Since saturates: the duration is the int64 nearest to the exact difference of the readings |
| DumpWriter.OffsetMs | pkg/rtpdump/writer.go:81-82 | Offset = (elapsed ns / 10^6) mod 2^32, truncated milliseconds, and exactly the elapsed milliseconds below 2^32 |
| DumpWriter.OffsetsNonDecreasing | pkg/rtpdump/writer.go:81-82 | with a clock that does not go back and elapsed time below 2^32 ms, successive offsets do not decrease |
| DumpWriter.RecordHeader | pkg/rtpdump/writer.go:84-93 | the payload size a reader computes from Length is len(payload) mod 2^16; PacketLength is 0 for RTCP and len(payload) mod 2^16 for RTP, so it is 0 exactly for RTCP or a length that wraps to 0; Offset is the given offset |
| DumpWriter.StartHeader | pkg/rtpdump/writer.go:39-45 | the written file header has Source 0 and Port 0, and the seconds and microseconds of the second clock reading |
| DumpWriter.EncodeRecord | pkg/rtpdump/writer.go:94-100 | a record is the 8-byte header followed contiguously by the payload, nothing else |
| DumpWriter.RecordChunksFlatten | pkg/rtpdump/writer.go:94-100 | the two Write calls of a record together emit exactly the encoded record |
| DumpWriter.DeliverPrefix | pkg/rtpdump/writer.go:94-100 | the destination only grows, and only with a prefix of the chunks asked for; with all of them when every call succeeds |
| DumpWriter.WritePacketStep | pkg/rtpdump/writer.go:72-103 | writePacket takes the start on the first call only, keeps it afterwards, and makes at least one Write call |
| DumpWriter.WritePacketStepPrefix | pkg/rtpdump/writer.go:72-103 | whatever the faults, writePacket leaves a prefix of the file header (first call only) followed by the record, and all of it when no Write fails |
| DumpWriter.FirstWriteLayout | pkg/rtpdump/writer.go:73-77 | the first fault-free writePacket on a fresh writer emits the preamble, the 16-byte header with Source 0 and Port 0, then the record, and takes the start |
| DumpWriter.LaterWriteLayout | pkg/rtpdump/writer.go:73-77 | once the start is taken the header is never written again, even after a failed header write; the call emits only its record, timed from that start |
| DumpWriter.StepAfterStart | pkg/rtpdump/writer.go:79-102 | a fault-free writePacket after the start appends exactly its record and makes two Write calls |
| DumpWriter.HeaderFailureSkipsPayload | pkg/rtpdump/writer.go:73-77 | if writing the file header fails, the error is returned, no record byte is written and the start stays taken |
| DumpWriter.RecordHeaderFailureSkipsPayload | pkg/rtpdump/writer.go:94-96 | on a packet after the first, if writing the record header fails, the error is returned, the start is kept and at most the 8 header bytes are written; the payload is not |
| DumpWriter.FirstRecordHeaderFailureSkipsPayload | pkg/rtpdump/writer.go:73-96 | on the first packet, after the preamble and file header went out, a failing record-header Write returns the error, leaves the start set and writes at most the 8 header bytes; the payload is not written |
| DumpWriter.Writer.constructor | pkg/rtpdump/writer.go:22-24 | NewWriter: nothing written, no start time |
| DumpWriter.Writer.HeaderWritten | pkg/rtpdump/writer.go:26-31 | headerWritten is true exactly when the destination has seen a Write call |
| DumpWriter.Writer.WriteChunk | pkg/rtpdump/writer.go:47-49 | one Write call on the destination, with its fault |
| DumpWriter.Writer.WriteHeader | pkg/rtpdump/writer.go:33-52 | writeHeader takes the start before writing, then writes the preamble and the file header from the second reading, stopping at the first error |
| DumpWriter.Writer.WritePacket | pkg/rtpdump/writer.go:72-103 | writePacket's new state and error are those of WritePacketStep; the writer invariant is kept |
| DumpWriter.Writer.WriteRtp | pkg/rtpdump/writer.go:54-61 | a marshal error is returned with nothing written; otherwise the payload is written as an RTP record, and any error is the destination's write error |
| DumpWriter.Writer.WriteRtcp | pkg/rtpdump/writer.go:63-70 | a marshal error is returned with nothing written; otherwise the payload is written as an RTCP record, and any error is the destination's write error |
| RoundTrip.PreambleAccepted | pkg/rtpdump/writer.go:13 | the writer's preamble is one line and passes the reader's prefix check |
| RoundTrip.FileStartRoundTrip | pkg/rtpdump/writer.go:37-51 | a reader opened on the writer's output gets the written header back: source 0.0.0.0 and port 0, a start equal to the reading truncated to a microsecond, and records starting right after the header |
| RoundTrip.RecordRoundTrip | pkg/rtpdump/writer.go:84-100 | for a payload below 65536 bytes, Next consumes exactly the written record and hands exactly the written payload, offset and tag to the codec; an empty RTP payload reads back tagged RTCP |
| RoundTrip.OversizedRecordMisread | pkg/rtpdump/writer.go:84-93 | a 65536-byte payload reads back as an empty RTCP record and leaves the payload unread |
| RoundTrip.WriteAllAfterStart | pkg/rtpdump/writer.go:72-103 | after the start is taken, fault-free writes append one record per packet, all timed from one start |
| RoundTrip.SessionLayout | pkg/rtpdump/writer.go:72-103 | a fresh fault-free writer emits the preamble and the file header once, then the records in order |
| RoundTrip.TimedRecordsReadBack | pkg/rtpdump/reader.go:47-83 | each written record reads back as its own packet wherever it lies in a stream |
| RoundTrip.SessionRoundTrip | pkg/rtpdump/reader.go:25-83 | a fault-free session's output opens with the written header, yields every packet with its payload, offset and tag in order, and then ends with io.EOF |

## Left out

- `pkg/rtpdump/player.go` is not part of this model. It paces playback in real time with timers, a channel and a mutex.
- The `startMu` mutex of the writer is not modelled. The writer is single-threaded here, and the mutex serves only concurrent callers.
- The RTP and RTCP codecs are parameters. Their own error values collapse to `RtpDecodeFailed`, `RtcpDecodeFailed` and `MarshalFailed`.
- The reader's input is one in-memory byte sequence, and `bufio` buffering is not modelled. A read error other than the end of the input cannot occur.
- `fmt.Errorf` formatting is not modelled: "failed to read header" carries the underlying error as a value.
- The errors of the destination's Write calls collapse to `WriteFailed`.
- `time.Time` is represented as nanoseconds since the Unix epoch.
  - Go's monotonic clock and wall clock are one domain here.
  - The zero `time.Time`, which `headerWritten` tests for, is the start being absent; `time.Now()` never returns the zero time.
- `net.IP` is represented as its 4 IPv4 octets, not as the 16-byte form `net.IPv4` builds.
- DumpWriter.OffsetMs: the contract says nothing for a clock reading earlier than the start. The body models it: Go's truncating division of a negative duration, then uint32.
- RtpDump.Timestamp: the contract is stated for readings at or after 1970 only. The body models negative readings with Go's truncating `/` and `%`.
- RtpDump.TimestampRoundTrip: it requires the seconds to fit in 32 bits. Past that, the writer's `uint32` conversion loses the high bits.
- DumpReader.ParseFileStart: its own contract only bounds the records' start. Its cases are stated by DumpReader.ParseFileStartCases for input that has a newline, and by DumpReader.NoLineFails for input that has none.
- RoundTrip.SessionRoundTrip: it requires a destination with no failing Write call. Failures are described one call at a time, by DumpWriter.HeaderFailureSkipsPayload, DumpWriter.FirstRecordHeaderFailureSkipsPayload and DumpWriter.RecordHeaderFailureSkipsPayload.

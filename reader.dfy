/**
 * The RTPdump reader (pkg/rtpdump/reader.go): it checks the preamble line,
 * parses the file header once, and then yields one record per call to Next.
 * The input is an in-memory byte sequence; the buffered reader over it is the
 * class Stream, whose read position advances as bytes are consumed.
 */
module DumpReader {
  import opened Wrappers
  import opened RtpDump

  const Newline: byte := 10

  /** The prefix every preamble line must start with: "#!rtpplay1.0 ". */
  const Magic: seq<byte> := [0x23, 0x21, 0x72, 0x74, 0x70, 0x70, 0x6c, 0x61, 0x79, 0x31, 0x2e, 0x30, 0x20]

  lemma MagicText()
    ensures Magic == Ascii("#!rtpplay1.0 ")
  {
  }

  datatype ReadError =
    | EOF                                  // io.EOF: nothing left to read
    | UnexpectedEOF                        // io.ErrUnexpectedEOF: the input ended part way
    | InvalidHeader                        // the preamble line lacks the magic prefix
    | HeaderReadFailed(cause: ReadError)   // "failed to read header: %v"
    | RtpDecodeFailed                      // the RTP codec rejected the payload
    | RtcpDecodeFailed                     // the RTCP codec rejected the payload

  /** What one read from the stream returns, with the read position after it. */
  datatype Taken = Taken(result: Result<seq<byte>, ReadError>, pos: nat)

  /** The first index at or after `from` that holds `c`. */
  function IndexOf(s: seq<byte>, from: nat, c: byte): (r: Option<nat>)
    requires from <= |s|
    ensures r.Some? ==> from <= r.value < |s| && s[r.value] == c
    ensures r.Some? ==> forall k :: from <= k < r.value ==> s[k] != c
    ensures r.None? ==> forall k :: from <= k < |s| ==> s[k] != c
    decreases |s| - from
  {
    if from == |s| then None
    else if s[from] == c then Some(from)
    else IndexOf(s, from + 1, c)
  }

  /** bufio.Reader.ReadString: the bytes up to and including `delim`, or io.EOF without it. */
  function ReadStringAt(data: seq<byte>, pos: nat, delim: byte): Taken
    requires pos <= |data|
  {
    match IndexOf(data, pos, delim)
    case None => Taken(Err(EOF), |data|)
    case Some(i) => Taken(Ok(data[pos..i + 1]), i + 1)
  }

  /** io.ReadFull of n bytes: io.EOF if none were left, io.ErrUnexpectedEOF if too few. */
  function ReadFullAt(data: seq<byte>, pos: nat, n: nat): Taken
    requires pos <= |data|
  {
    if n <= |data| - pos then Taken(Ok(data[pos..pos + n]), pos + n)
    else if pos == |data| then Taken(Err(EOF), |data|)
    else Taken(Err(UnexpectedEOF), |data|)
  }

  /**
   * ReadString succeeds exactly when the delimiter occurs: it returns the bytes
   * through its first occurrence; otherwise io.EOF with the input consumed.
   */
  lemma ReadStringAtSpec(data: seq<byte>, pos: nat, delim: byte)
    requires pos <= |data|
    ensures var r := ReadStringAt(data, pos, delim);
            (r.result.Ok? ==>
               pos < r.pos <= |data| && r.result.value == data[pos..r.pos] &&
               data[r.pos - 1] == delim && forall k :: pos <= k < r.pos - 1 ==> data[k] != delim) &&
            (r.result.Err? ==>
               r.result.error == EOF && r.pos == |data| && forall k :: pos <= k < |data| ==> data[k] != delim)
  {
  }

  /** ReadFull succeeds exactly when n bytes are left; a short read is an error, never a partial result. */
  lemma ReadFullAtSpec(data: seq<byte>, pos: nat, n: nat)
    requires pos <= |data|
    ensures var r := ReadFullAt(data, pos, n);
            (r.result.Ok? <==> n <= |data| - pos) &&
            (r.result.Ok? ==> r.result.value == data[pos..pos + n] && r.pos == pos + n) &&
            (r.result.Err? ==> r.pos == |data| && r.result.error == (if pos == |data| then EOF else UnexpectedEOF))
  {
  }

  function HasPrefix(s: seq<byte>, prefix: seq<byte>): bool {
    |prefix| <= |s| && s[..|prefix|] == prefix
  }

  /** The outcome of NewReader: the parsed header and where the records begin. */
  datatype FileStart = FileStart(header: Header, body: nat)

  /** NewReader on `input`: the preamble line, then the 16-byte file header. */
  function ParseFileStart(input: seq<byte>): (r: Result<FileStart, ReadError>)
    ensures r.Ok? ==> r.value.body <= |input|
  {
    var line := ReadStringAt(input, 0, Newline);
    match line.result
    case Err(e) => Err(e)
    case Ok(preamble) =>
      if !HasPrefix(preamble, Magic) then Err(InvalidHeader)
      else
        var fixed := ReadFullAt(input, line.pos, FileHeaderLen);
        match fixed.result
        case Err(e) => Err(HeaderReadFailed(e))
        case Ok(b) => Ok(FileStart(ToHeader(DecodeFileHeader(b)), fixed.pos))
  }

  /** A line: ends with its only newline. */
  predicate IsLine(line: seq<byte>) {
    |line| > 0 && line[|line| - 1] == Newline &&
    forall k :: 0 <= k < |line| - 1 ==> line[k] != Newline
  }

  lemma {:induction false} IndexOfFirstLine(line: seq<byte>, rest: seq<byte>)
    requires IsLine(line)
    ensures IndexOf(line + rest, 0, Newline) == Some(|line| - 1)
  {
    var s := line + rest;
    assert s[|line| - 1] == Newline;
    assert forall k :: 0 <= k < |line| - 1 ==> s[k] == line[k];
  }

  /**
   * NewReader splits its input at the first newline: the line must carry the
   * magic prefix (the rest of the line is ignored) and at least 16 bytes must
   * follow it; the records begin right after those 16 bytes.
   */
  lemma {:induction false} ParseFileStartCases(line: seq<byte>, rest: seq<byte>)
    requires IsLine(line)
    ensures ParseFileStart(line + rest) ==
              if !HasPrefix(line, Magic) then Err(InvalidHeader)
              else if |rest| < FileHeaderLen then
                Err(HeaderReadFailed(if |rest| == 0 then EOF else UnexpectedEOF))
              else Ok(FileStart(ToHeader(DecodeFileHeader(rest[..FileHeaderLen])), |line| + FileHeaderLen))
  {
    var input := line + rest;
    IndexOfFirstLine(line, rest);
    assert input[..|line|] == line;
    if |rest| >= FileHeaderLen {
      assert input[|line|..|line| + FileHeaderLen] == rest[..FileHeaderLen];
    }
  }

  /** Without a newline there is no preamble line, and NewReader fails with io.EOF. */
  lemma NoLineFails(input: seq<byte>)
    requires forall k :: 0 <= k < |input| ==> input[k] != Newline
    ensures ParseFileStart(input) == Err(EOF)
  {
  }

  /** The RTP/RTCP dispatch of Next: hand the payload to the codec the tag selects. */
  function Dispatch<R, C>(offset: uint32, isRtcp: bool, buf: seq<byte>,
                          decodeRtp: seq<byte> -> Option<R>,
                          decodeRtcp: seq<byte> -> Option<C>): (r: Result<Packet<R, C>, ReadError>)
    ensures r.Ok? ==> r.value.offset == offset && r.value.isRTCP == isRtcp && r.value.WellTagged()
    ensures isRtcp ==> (r.Ok? <==> decodeRtcp(buf).Some?) && (r.Ok? ==> r.value.rtcp == decodeRtcp(buf))
    ensures !isRtcp ==> (r.Ok? <==> decodeRtp(buf).Some?) && (r.Ok? ==> r.value.rtp == decodeRtp(buf))
    ensures r.Err? ==> r.error == (if isRtcp then RtcpDecodeFailed else RtpDecodeFailed)
  {
    if !isRtcp then
      match decodeRtp(buf)
      case None => Err(RtpDecodeFailed)
      case Some(p) => Ok(Packet(offset, false, None, Some(p)))
    else
      match decodeRtcp(buf)
      case None => Err(RtcpDecodeFailed)
      case Some(p) => Ok(Packet(offset, true, Some(p), None))
  }

  /** What one call of Next returns, with the read position after it. */
  datatype Step<R, C> = Step(result: Result<Packet<R, C>, ReadError>, pos: nat)

  /** One call of Next on `data` read from `pos`. */
  function NextRecord<R, C>(data: seq<byte>, pos: nat,
                            decodeRtp: seq<byte> -> Option<R>,
                            decodeRtcp: seq<byte> -> Option<C>): (s: Step<R, C>)
    requires pos <= |data|
    ensures pos <= s.pos <= |data|
    // fewer than 8 bytes left: io.EOF at a clean end, io.ErrUnexpectedEOF otherwise
    ensures |data| - pos < PktHeaderLen ==>
              s == Step(Err(if pos == |data| then EOF else UnexpectedEOF), |data|)
    // a payload shorter than the record header announces is an error, never a short read
    ensures |data| - pos >= PktHeaderLen ==>
              var h := DecodePacketHeader(data[pos..pos + PktHeaderLen]);
              (|data| - pos - PktHeaderLen < PayloadLen(h) ==>
                 s.pos == |data| && s.result.Err? &&
                 s.result.error == (if pos + PktHeaderLen == |data| then EOF else UnexpectedEOF)) &&
              (|data| - pos - PktHeaderLen >= PayloadLen(h) ==>
                 s.pos == pos + PktHeaderLen + PayloadLen(h) &&
                 s.result == Dispatch(h.offset, h.packetLength == 0,
                                      data[pos + PktHeaderLen..s.pos], decodeRtp, decodeRtcp))
    ensures s.result.Ok? ==>
              var h := DecodePacketHeader(data[pos..pos + PktHeaderLen]);
              s.pos == pos + PktHeaderLen + PayloadLen(h) &&
              s.result.value.offset == h.offset &&
              s.result.value.isRTCP == (h.packetLength == 0) &&
              s.result.value.WellTagged()
  {
    var hdr := ReadFullAt(data, pos, PktHeaderLen);
    match hdr.result
    case Err(e) => Step(Err(e), hdr.pos)
    case Ok(b) =>
      var h := DecodePacketHeader(b);
      var body := ReadFullAt(data, hdr.pos, PayloadLen(h));
      match body.result
      case Err(e) => Step(Err(e), body.pos)
      case Ok(buf) => Step(Dispatch(h.offset, h.packetLength == 0, buf, decodeRtp, decodeRtcp), body.pos)
  }

  /** The buffered reader over the input (bufio.Reader): the bytes and the read position. */
  class Stream {
    const data: seq<byte>
    var pos: nat

    ghost predicate Valid()
      reads this
    {
      pos <= |data|
    }

    constructor (data: seq<byte>)
      ensures Valid() && this.data == data && pos == 0
    {
      this.data := data;
      pos := 0;
    }

    method ReadString(delim: byte) returns (res: Result<seq<byte>, ReadError>)
      requires Valid()
      modifies this
      ensures Valid()
      ensures Taken(res, pos) == ReadStringAt(data, old(pos), delim)
    {
      var i := IndexOf(data, pos, delim);
      if i.None? {
        res, pos := Err(EOF), |data|;
      } else {
        res, pos := Ok(data[pos..i.value + 1]), i.value + 1;
      }
    }

    method ReadFull(n: nat) returns (res: Result<seq<byte>, ReadError>)
      requires Valid()
      modifies this
      ensures Valid()
      ensures Taken(res, pos) == ReadFullAt(data, old(pos), n)
    {
      if n <= |data| - pos {
        res, pos := Ok(data[pos..pos + n]), pos + n;
      } else if pos == |data| {
        res := Err(EOF);
      } else {
        res, pos := Err(UnexpectedEOF), |data|;
      }
    }
  }

  class Reader {
    const stream: Stream
    const header: Header
    ghost const body: nat

    /** The header was parsed from the stream's input, and reading has not gone back before the records. */
    ghost predicate Valid()
      reads this, stream
    {
      stream.Valid() &&
      ParseFileStart(stream.data) == Ok(FileStart(header, body)) &&
      body <= stream.pos
    }

    constructor (stream: Stream, header: Header, ghost body: nat)
      requires stream.Valid() && ParseFileStart(stream.data) == Ok(FileStart(header, body))
      requires body <= stream.pos
      ensures Valid()
      ensures this.stream == stream && this.header == header && this.body == body
    {
      this.stream := stream;
      this.header := header;
      this.body := body;
    }

    /** Reader.Header: the header decoded from the start of the input. */
    function Header(): (h: RtpDump.Header)
      reads this, stream
      requires Valid()
      ensures ParseFileStart(stream.data).Ok? && ParseFileStart(stream.data).value.header == h
    {
      header
    }

    /** Reader.Next: consume exactly one record and decode its payload with the codec its tag selects. */
    method Next<R, C>(decodeRtp: seq<byte> -> Option<R>, decodeRtcp: seq<byte> -> Option<C>)
      returns (res: Result<Packet<R, C>, ReadError>)
      requires Valid()
      modifies stream
      ensures Valid()
      ensures Step(res, stream.pos) == NextRecord(stream.data, old(stream.pos), decodeRtp, decodeRtcp)
    {
      var hb := stream.ReadFull(PktHeaderLen);
      if hb.Err? {
        return Err(hb.error);
      }
      var h := DecodePacketHeader(hb.value);
      var buf := stream.ReadFull(PayloadLen(h));
      if buf.Err? {
        return Err(buf.error);
      }
      if h.packetLength > 0 {
        var p := decodeRtp(buf.value);
        if p.None? {
          return Err(RtpDecodeFailed);
        }
        res := Ok(Packet(h.offset, false, None, Some(p.value)));
      } else {
        var p := decodeRtcp(buf.value);
        if p.None? {
          return Err(RtcpDecodeFailed);
        }
        res := Ok(Packet(h.offset, true, Some(p.value), None));
      }
    }
  }

  /** NewReader: check the preamble line and parse the file header, or report why not. */
  method NewReader(input: seq<byte>) returns (res: Result<Reader, ReadError>)
    ensures res.Err? ==> ParseFileStart(input) == Err(res.error)
    ensures res.Ok? ==>
              fresh(res.value) && fresh(res.value.stream) && res.value.Valid() &&
              res.value.stream.data == input &&
              ParseFileStart(input) == Ok(FileStart(res.value.header, res.value.stream.pos))
  {
    var bio := new Stream(input);
    var preamble := bio.ReadString(Newline);
    if preamble.Err? {
      return Err(preamble.error);
    }
    if !HasPrefix(preamble.value, Magic) {
      return Err(InvalidHeader);
    }
    var b := bio.ReadFull(FileHeaderLen);
    if b.Err? {
      return Err(HeaderReadFailed(b.error));
    }
    var r := new Reader(bio, ToHeader(DecodeFileHeader(b.value)), bio.pos);
    return Ok(r);
  }
}

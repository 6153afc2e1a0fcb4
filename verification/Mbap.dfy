/** The TCP and UDP transports with their MBAP header (MODBUS Messaging on TCP/IP V1.0b, section 3.1.3). */
module Mbap {
  import opened Common
  import opened Bytes
  import opened ByteLine

  datatype NetworkError = TimedOutError | OsError

  const UDP_BUFFER := 260

  /** A PDU in its MBAP frame. */
  function Framed(transaction: nat, unitId: Byte, pdu: seq<Byte>): (frame: seq<Byte>)
    requires transaction < 0x10000 && |pdu| + 1 < 0x10000
    ensures |frame| == 7 + |pdu|
  {
    WordBytes(transaction) + [0, 0] + WordBytes(|pdu| + 1) + [unitId] + pdu
  }

  function StopError(stop: Stop): NetworkError {
    if stop.Failed? then OsError else TimedOutError
  }

  /** How long the announced body is; the length field also counts the unit identifier. */
  function BodyLength(header: seq<Byte>): nat
    requires |header| >= 6
  {
    var length := WordOf(header[4..6]);
    if length >= 1 then length - 1 else 0
  }

  /** What the TCP transport makes of the bytes that come back. */
  function Interpret(stream: seq<Byte>, stop: Stop): Result<seq<Byte>, NetworkError> {
    if |stream| < 7 || |stream| < 7 + BodyLength(stream) then Err(StopError(stop))
    else Ok(stream[7..7 + BodyLength(stream)])
  }

  class TcpTransport {
    var transactionId: nat

    ghost predicate Valid()
      reads this
    {
      transactionId < 0x10000
    }

    constructor ()
      ensures Valid() && transactionId == 0
    {
      transactionId := 0;
    }

    /** Sends one request on a fresh connection and reads the answer, however it is chunked. */
    method Exchange(request: Request, connected: bool, sendOk: bool, line: Line)
      returns (r: Result<seq<Byte>, NetworkError>)
      requires Valid() && |request.payload| + 2 < 0x10000
      modifies this, line
      ensures Valid() && transactionId == (old(transactionId) + 1) % 0x10000
      ensures !connected || !sendOk ==> r == Err(OsError)
      ensures connected && sendOk ==>
                line.sent == old(line.sent)
                             + Framed(transactionId, request.unitId, [request.functionCode] + request.payload)
                && r == Interpret(Stream(old(line.incoming)), StopOf(old(line.incoming)))
    {
      transactionId := (transactionId + 1) % 0x10000;
      var pdu := [request.functionCode] + request.payload;
      var adu := WordBytes(transactionId) + [0, 0] + WordBytes(|pdu| + 1) + [request.unitId] + pdu;
      if !connected || !sendOk {
        return Err(OsError);
      }
      line.SendAll(adu);
      r := ReceiveAnswer(line);
    }
  }

  /** Reads the header and then as much as it announces. */
  method ReceiveAnswer(line: Line) returns (r: Result<seq<Byte>, NetworkError>)
    modifies line`incoming
    ensures r == Interpret(Stream(old(line.incoming)), StopOf(old(line.incoming)))
  {
    ghost var stream := Stream(line.incoming);
    var header := ReadExact(line, 7);
    if header.Err? {
      return Err(StopError(header.error));
    }
    assert header.value[4..6] == stream[4..6];
    var length: int := WordOf(header.value[4..6]);
    var body := ReadExact(line, if length - 1 >= 0 then length - 1 else 0);
    if body.Err? {
      return Err(StopError(body.error));
    }
    assert stream[7..][..BodyLength(stream)] == stream[7..7 + BodyLength(stream)];
    r := Ok(body.value);
  }

  /** What the UDP transport makes of one datagram: slicing never fails, it only comes out short. */
  function InterpretDatagram(datagram: seq<Byte>): Result<seq<Byte>, NetworkError> {
    var response := if |datagram| <= UDP_BUFFER then datagram else datagram[..UDP_BUFFER];
    if |response| < 7 then Err(TimedOutError)
    else
      var end := 7 + BodyLength(response);
      Ok(response[7..if end <= |response| then end else |response|])
  }

  class UdpTransport {
    var transactionId: nat

    ghost predicate Valid()
      reads this
    {
      transactionId < 0x10000
    }

    constructor ()
      ensures Valid() && transactionId == 0
    {
      transactionId := 0;
    }

    /** Sends one datagram and interprets the one that comes back, if any. */
    method Exchange(request: Request, answer: Result<seq<Byte>, NetworkError>)
      returns (r: Result<seq<Byte>, NetworkError>, sent: seq<Byte>)
      requires Valid() && |request.payload| + 2 < 0x10000
      modifies this
      ensures Valid() && transactionId == (old(transactionId) + 1) % 0x10000
      ensures sent == Framed(transactionId, request.unitId, [request.functionCode] + request.payload)
      ensures r == if answer.Err? then answer else InterpretDatagram(answer.value)
    {
      transactionId := (transactionId + 1) % 0x10000;
      var pdu := [request.functionCode] + request.payload;
      sent := WordBytes(transactionId) + [0, 0] + WordBytes(|pdu| + 1) + [request.unitId] + pdu;
      if answer.Err? {
        return answer, sent;
      }
      r := SliceDatagram(answer.value);
    }
  }

  /** Cuts the announced body out of a datagram, or as much of it as there is. */
  method SliceDatagram(datagram: seq<Byte>) returns (r: Result<seq<Byte>, NetworkError>)
    ensures r == InterpretDatagram(datagram)
  {
    var response := datagram;
    if |response| > UDP_BUFFER {
      response := response[..UDP_BUFFER];
    }
    if |response| < 7 {
      return Err(TimedOutError);
    }
    var length: int := WordOf(response[4..6]);
    var end := 7 + (if length - 1 >= 0 then length - 1 else 0);
    r := Ok(response[7..if end <= |response| then end else |response|]);
  }

  // ---- The frame and the failures ----

  /** The layout of a frame: transaction identifier, protocol zero, the length of what follows the length field, the unit
      and the PDU; numbers with their more significant byte first. */
  lemma FrameLayout(transaction: nat, unitId: Byte, pdu: seq<Byte>)
    requires transaction < 0x10000 && |pdu| + 1 < 0x10000
    ensures var frame := Framed(transaction, unitId, pdu);
            && Number(frame[0]) * 256 + Number(frame[1]) == transaction
            && frame[2] == 0 && frame[3] == 0
            && Number(frame[4]) * 256 + Number(frame[5]) == |frame| - 6
            && frame[6] == unitId && frame[7..] == pdu
  {
    assert WordOf(WordBytes(transaction)) == transaction;
    assert WordOf(WordBytes(|pdu| + 1)) == |pdu| + 1;
  }

  /** When a TCP exchange fails after sending: the bytes before the first interruption are fewer than the header, or fewer
      than the header and the body it announces. Silence and closing are timeouts, a fault is an error of the system. */
  lemma TcpFailureIff(stream: seq<Byte>, stop: Stop)
    ensures var short := |stream| < 7 ||
                         |stream| - 7 < Number(stream[4]) * 256 + Number(stream[5]) - 1;
            Interpret(stream, stop) == (
              if !short then Ok(stream[7..7 + BodyLength(stream)])
              else match stop
                   case TimedOut => Err(TimedOutError)
                   case ClosedEarly => Err(TimedOutError)
                   case Failed(_) => Err(OsError))
  {
  }

  // ---- Round trips ----

  lemma FramedLength(transaction: nat, unitId: Byte, pdu: seq<Byte>, rest: seq<Byte>)
    requires transaction < 0x10000 && |pdu| + 1 < 0x10000
    ensures var stream := Framed(transaction, unitId, pdu) + rest;
            BodyLength(stream) == |pdu| && stream[7..7 + |pdu|] == pdu && Framed(transaction, unitId, pdu)[7..] == pdu
  {
    var stream := Framed(transaction, unitId, pdu) + rest;
    assert stream[4..6] == WordBytes(|pdu| + 1);
  }

  /** The frame of a PDU, with any identifiers, is at the head of a stream (a length field of zero also announces an
      empty body). */
  ghost predicate Announces(stream: seq<Byte>, pdu: seq<Byte>) {
    && |stream| >= 7 && |pdu| + 1 < 0x10000 && pdu <= stream[7..]
    && (stream[4..6] == WordBytes(|pdu| + 1) || (pdu == [] && stream[4..6] == WordBytes(0)))
  }

  lemma AnnouncedLength(stream: seq<Byte>, n: nat)
    requires |stream| >= 7 && n + 1 < 0x10000
    ensures stream[4..6] == WordBytes(n + 1) || (n == 0 && stream[4..6] == WordBytes(0)) <==> BodyLength(stream) == n
  {
    WordBytesOf(stream[4..6]);
  }

  /** Over TCP the answer is a PDU exactly when its frame is at the head of the stream. */
  lemma TcpRoundTrip(stream: seq<Byte>, stop: Stop, pdu: seq<Byte>)
    ensures Interpret(stream, stop) == Ok(pdu) <==> Announces(stream, pdu)
  {
    AnswerIsBody(stream, stop, pdu);
    if |stream| >= 7 && |pdu| + 1 < 0x10000 {
      AnnouncedLength(stream, |pdu|);
      HeadOfBody(stream, pdu);
    }
  }

  lemma AnswerIsBody(stream: seq<Byte>, stop: Stop, pdu: seq<Byte>)
    ensures Interpret(stream, stop) == Ok(pdu) <==>
            && |stream| >= 7 + |pdu| && |pdu| + 1 < 0x10000
            && BodyLength(stream) == |pdu| && stream[7..7 + |pdu|] == pdu
  {
  }

  lemma HeadOfBody(stream: seq<Byte>, pdu: seq<Byte>)
    requires |stream| >= 7
    ensures pdu <= stream[7..] <==> |stream| >= 7 + |pdu| && stream[7..7 + |pdu|] == pdu
  {
    if |stream| >= 7 + |pdu| {
      assert stream[7..7 + |pdu|] == stream[7..][..|pdu|];
    }
  }

  /** A reply in its frame comes back as its PDU, whatever the chunking and whatever follows. */
  lemma TcpReplyIsAnswered(transaction: nat, unitId: Byte, pdu: seq<Byte>, rest: seq<Byte>, stop: Stop)
    requires transaction < 0x10000 && |pdu| + 1 < 0x10000
    ensures Interpret(Framed(transaction, unitId, pdu) + rest, stop) == Ok(pdu)
  {
    FramedLength(transaction, unitId, pdu, rest);
  }

  lemma CutFrame(frame: seq<Byte>, pdu: seq<Byte>, kept: nat)
    requires 7 <= kept <= |frame| == 7 + |pdu| && frame[7..] == pdu
    ensures frame[..kept][4..6] == frame[4..6]
    ensures frame[..kept][7..] == pdu[..kept - 7]
  {
  }

  /** What is left of a PDU when its frame arrives cut off, but with a whole header. */
  lemma CutIsAnswered(transaction: nat, unitId: Byte, pdu: seq<Byte>, kept: nat)
    requires transaction < 0x10000 && |pdu| + 1 < 0x10000 && 7 <= kept <= 7 + |pdu| && kept <= UDP_BUFFER
    ensures InterpretDatagram(Framed(transaction, unitId, pdu)[..kept]) == Ok(pdu[..kept - 7])
  {
    var frame := Framed(transaction, unitId, pdu);
    FramedLength(transaction, unitId, pdu, []);
    assert frame + [] == frame;
    CutFrame(frame, pdu, kept);
    var datagram := frame[..kept];
    assert BodyLength(datagram) == |pdu|;
    assert datagram[7..|datagram|] == datagram[7..];
  }

  /** Over UDP a frame that was cut off is still answered, with what is left of the PDU: the whole PDU comes back
      exactly when nothing was cut and the frame fits the receive buffer. */
  lemma UdpRoundTrip(transaction: nat, unitId: Byte, pdu: seq<Byte>, kept: nat)
    requires transaction < 0x10000 && |pdu| + 1 < 0x10000 && kept <= 7 + |pdu|
    ensures InterpretDatagram(Framed(transaction, unitId, pdu)[..kept]) == Ok(pdu) <==>
            kept == 7 + |pdu| <= UDP_BUFFER
    ensures 7 <= kept <= UDP_BUFFER ==>
              InterpretDatagram(Framed(transaction, unitId, pdu)[..kept]) == Ok(pdu[..kept - 7])
  {
    var frame := Framed(transaction, unitId, pdu);
    var size := if kept <= UDP_BUFFER then kept else UDP_BUFFER;
    if size >= 7 {
      CutIsAnswered(transaction, unitId, pdu, size);
      BufferCuts(frame[..kept]);
      assert frame[..kept][..size] == frame[..size];
      assert pdu[..size - 7] == pdu <==> size == 7 + |pdu|;
    }
  }

  /** A datagram of fewer than seven bytes counts as a timeout and every other one is answered; an uncut frame brings its
      whole PDU exactly up to 253 bytes of it. */
  lemma UdpLimits(datagram: seq<Byte>, transaction: nat, unitId: Byte, pdu: seq<Byte>)
    requires transaction < 0x10000 && |pdu| + 1 < 0x10000
    ensures |datagram| < 7 ==> InterpretDatagram(datagram) == Err(TimedOutError)
    ensures |datagram| >= 7 ==> InterpretDatagram(datagram).Ok?
    ensures InterpretDatagram(Framed(transaction, unitId, pdu)) == Ok(pdu) <==> |pdu| <= 253
  {
    var frame := Framed(transaction, unitId, pdu);
    UdpRoundTrip(transaction, unitId, pdu, |frame|);
    assert frame[..|frame|] == frame;
  }

  /** Only what fits the receive buffer counts. */
  lemma BufferCuts(datagram: seq<Byte>)
    ensures InterpretDatagram(datagram)
         == InterpretDatagram(if |datagram| <= UDP_BUFFER then datagram else datagram[..UDP_BUFFER])
  {
  }
}

/** What the events on a serial line come to: which attempts are tried again, and what is reported in the end. */
module SerialRetry {
  import opened Common
  import opened Bytes
  import opened Crc
  import opened CrcDetection
  import opened CrcPreset
  import opened ByteLine
  import opened SerialRtu

  // ---- The request on the line ----

  /** A request goes out as unit, function code, payload and the two check bytes, low byte first; that of CrcPreset as the
      eight bytes given there. */
  lemma RequestLayout(request: Request)
    ensures var frame, n := RequestFrame(request), |request.payload|;
            && |frame| == n + 4 && frame[0] == request.unitId && frame[1] == request.functionCode
            && frame[2..n + 2] == request.payload
            && Received(frame[n + 2], frame[n + 3]) == Crc16(frame[..n + 2])
    ensures RequestFrame(Request(1, 3, [0, 0, 0, 1])) == [0x01, 0x03, 0x00, 0x00, 0x00, 0x01, 0x84, 0x0A]
  {
    var body := [request.unitId, request.functionCode] + request.payload;
    assert RequestFrame(request)[..|body|] == body;
    ReceivedOfParts(Crc16(body));
    assert [1, 3] + [0, 0, 0, 1] == REQUEST;
    SealedRequest();
  }

  // ---- What an attempt meets ----

  /** The tty opens and takes the whole request in k writes. */
  ghost predicate Written(a: Attempt, request: Request, k: nat) {
    && a.openFault.None? && k <= |a.outlets|
    && TakeInTurn(a.outlets, k, |RequestFrame(request)|) && Taken(a.outlets, k) >= |RequestFrame(request)|
  }

  /** The bytes that come do not make up the length that they announce, or not even the three that announce it. */
  predicate FallsShort(functionCode: Byte, bytes: seq<Byte>) {
    || |bytes| < 3
    || (if Number(bytes[1]) >= 128 then |bytes| < 5
        else if functionCode in {1, 2, 3, 4} then |bytes| < 5 + Number(bytes[2])
        else functionCode in {5, 6, 15, 16} && |bytes| < 8)
  }

  /** Bytes that fall short come in k chunks, and then nothing more: silence, or the line is closed. */
  ghost predicate DiesAway(a: Attempt, functionCode: Byte, k: nat) {
    && k <= |a.incoming| && BringBytes(a.incoming, k) && FallsShort(functionCode, Brought(a.incoming, k))
    && (k < |a.incoming| ==> a.incoming[k] == Silence || a.incoming[k] == Chunk([]))
  }

  /** Bytes that fall short come in k chunks, and then the system reports a fault. */
  ghost predicate Breaks(a: Attempt, functionCode: Byte, k: nat, busy: bool) {
    && k < |a.incoming| && BringBytes(a.incoming, k) && FallsShort(functionCode, Brought(a.incoming, k))
    && a.incoming[k] == Fault(busy)
  }

  ghost predicate Unanswered(a: Attempt, request: Request) {
    exists w, k :: Written(a, request, w) && DiesAway(a, request.functionCode, k)
  }

  lemma ExceptionBit(b: Byte)
    ensures IsException(b) <==> Number(b) >= 128
  {
  }

  /** Without enough bytes the reason why they stopped decides. */
  lemma ShortIsStopped(functionCode: Byte, stream: seq<Byte>, stop: Stop)
    requires FallsShort(functionCode, stream)
    ensures Interpret(functionCode, stream, stop) ==
            match stop
            case TimedOut => Retryable(NoAnswer)
            case ClosedEarly => Retryable(NoAnswer)
            case Failed(busy) => Retryable(if busy then PortBusy else OsFailure)
  {
  }

  // ---- How an attempt ends ----

  /** An attempt whose answer dies away may be tried again. */
  lemma UnansweredIsRetryable(a: Attempt, request: Request)
    requires Unanswered(a, request)
    ensures AttemptEnding(a, request) == Retryable(NoAnswer)
  {
    var w, k :| Written(a, request, w) && DiesAway(a, request.functionCode, k);
    WriteMeaning(a.outlets, w, |RequestFrame(request)|);
    StreamMeaning(a.incoming, k);
    ShortIsStopped(request.functionCode, Stream(a.incoming), StopOf(a.incoming));
  }

  /** An attempt that breaks may be tried again, and so may one whose tty cannot be opened or fails in a write. */
  lemma FaultIsRetryable(a: Attempt, request: Request, w: nat, k: nat, busy: bool)
    ensures a.openFault == Some(busy) ==> AttemptEnding(a, request) == Retryable(if busy then PortBusy else OsFailure)
    ensures a.openFault.None? && w < |a.outlets| && TakeInTurn(a.outlets, w, |RequestFrame(request)|) &&
            Taken(a.outlets, w) < |RequestFrame(request)| && a.outlets[w] == WriteFault(busy)
            ==> AttemptEnding(a, request) == Retryable(if busy then PortBusy else OsFailure)
    ensures Written(a, request, w) && Breaks(a, request.functionCode, k, busy)
            ==> AttemptEnding(a, request) == Retryable(if busy then PortBusy else OsFailure)
  {
    if w <= |a.outlets| && TakeInTurn(a.outlets, w, |RequestFrame(request)|) {
      WriteMeaning(a.outlets, w, |RequestFrame(request)|);
    }
    if Breaks(a, request.functionCode, k, busy) {
      StreamMeaning(a.incoming, k);
      ShortIsStopped(request.functionCode, Stream(a.incoming), StopOf(a.incoming));
    }
  }

  /** A tty that stops taking bytes is reported busy at once; so is, as unsupported, a reply to a function code whose
      length nobody can tell. */
  lemma FatalEndings(a: Attempt, request: Request, w: nat, k: nat)
    requires a.openFault.None? && w <= |a.outlets| && TakeInTurn(a.outlets, w, |RequestFrame(request)|)
    ensures Taken(a.outlets, w) < |RequestFrame(request)| &&
            (w == |a.outlets| || (a.outlets[w].Takes? && a.outlets[w].count <= 0))
            ==> AttemptEnding(a, request) == Fatal(PortBusy)
    ensures Taken(a.outlets, w) >= |RequestFrame(request)| && k <= |a.incoming| && BringBytes(a.incoming, k) &&
            (k < |a.incoming| ==> !a.incoming[k].Chunk? || a.incoming[k].bytes == []) &&
            |Brought(a.incoming, k)| >= 3 && Number(Brought(a.incoming, k)[1]) < 128 &&
            request.functionCode !in {1, 2, 3, 4, 5, 6, 15, 16}
            ==> AttemptEnding(a, request) == Fatal(UnsupportedFunction)
  {
    WriteMeaning(a.outlets, w, |RequestFrame(request)|);
    if k <= |a.incoming| && BringBytes(a.incoming, k) &&
       (k < |a.incoming| ==> !a.incoming[k].Chunk? || a.incoming[k].bytes == []) && |Brought(a.incoming, k)| >= 3
    {
      StreamMeaning(a.incoming, k);
      ExceptionBit(Brought(a.incoming, k)[1]);
    }
  }

  /** After a written request a well-formed, sealed reply comes in the first k chunks. */
  ghost predicate RepliesWith(a: Attempt, request: Request, unitId: Byte, pdu: seq<Byte>, k: nat) {
    && k <= |a.incoming| && BringBytes(a.incoming, k)
    && (k < |a.incoming| ==> !a.incoming[k].Chunk? || a.incoming[k].bytes == [])
    && WellFormed(request.functionCode, pdu) && Sealed([unitId] + pdu) <= Brought(a.incoming, k)
  }

  ghost predicate Answered(a: Attempt, request: Request, pdu: seq<Byte>) {
    exists w, k, unitId :: Written(a, request, w) && RepliesWith(a, request, unitId, pdu, k)
  }

  /** Such an attempt is answered with the PDU of the reply. */
  lemma AnsweredEnds(a: Attempt, request: Request, pdu: seq<Byte>)
    requires Answered(a, request, pdu)
    ensures AttemptEnding(a, request) == Answer(pdu)
  {
    var w, k, unitId :| Written(a, request, w) && RepliesWith(a, request, unitId, pdu, k);
    WriteMeaning(a.outlets, w, |RequestFrame(request)|);
    ReplyIsInterpreted(a, request, unitId, pdu, k);
  }

  lemma ReplyIsInterpreted(a: Attempt, request: Request, unitId: Byte, pdu: seq<Byte>, k: nat)
    requires RepliesWith(a, request, unitId, pdu, k)
    ensures Interpret(request.functionCode, Stream(a.incoming), StopOf(a.incoming)) == Answer(pdu)
  {
    StreamMeaning(a.incoming, k);
    var reply, stream := Sealed([unitId] + pdu), Stream(a.incoming);
    ReplyIsAnswered(request.functionCode, unitId, pdu, stream[|reply|..], StopOf(a.incoming));
    assert reply + stream[|reply|..] == stream;
  }

  // ---- The whole exchange ----

  /** The loop after trials that leave it running. */
  lemma {:induction false} RetriedSkips(trials: seq<Trial>, k: nat, n: nat, managed: bool)
    requires k < n <= |trials| && forall j :: 0 <= j < k ==> Retries(trials[j], managed)
    ensures Retried(trials, n, managed) == Retried(trials[k..], n - k, managed)
    decreases k
  {
    if k == 0 {
      assert trials[0..] == trials;
    } else {
      assert forall j :: 0 <= j < k - 1 ==> trials[1..][j] == trials[j + 1];
      RetriedSkips(trials[1..], k - 1, n - 1, managed);
      assert trials[1..][k - 1..] == trials[k..];
    }
  }

  /** How failures end the loop: a fatal one as it is, a retryable one whose port cannot be recovered as a matter of
      ownership, and the last retryable one as it is, but for a missing answer, which means that the slave is offline. */
  lemma FailureIsReported(trials: seq<Trial>, k: nat, n: nat, managed: bool, e: TransportError)
    requires k < n <= |trials| && forall j :: 0 <= j < k ==> Retries(trials[j], managed)
    ensures trials[k].ending == Fatal(e) ==> Retried(trials, n, managed) == Err(e)
    ensures trials[k].ending.Retryable? && k < n - 1 && managed && !trials[k].recoverOk ==>
              Retried(trials, n, managed) == Err(PortOwnership)
    ensures k == n - 1 && trials[k].ending == Retryable(e) ==>
              Retried(trials, n, managed) == Err(match e case NoAnswer => SlaveOffline case _ => e)
  {
    RetriedSkips(trials, k, n, managed);
  }

  /** Silence, a closed line or a reply that breaks off is tried again: when the first attempts end so, on a port that
      nobody manages or that is recovered each time, the exchange returns the answer of the next attempt. */
  lemma SilenceIsRetried(attempts: seq<Attempt>, request: Request, retries: int, managed: bool, k: nat, pdu: seq<Byte>)
    requires k <= (if retries >= 0 then retries else 0) < |attempts|
    requires forall j :: 0 <= j < k ==> Unanswered(attempts[j], request) && (managed ==> attempts[j].recoverOk)
    requires Answered(attempts[k], request, pdu)
    ensures Retried(Trials(attempts, request), AttemptCount(retries), managed) == Ok(pdu)
  {
    var trials := Trials(attempts, request);
    forall j | 0 <= j < k ensures Retries(trials[j], managed) {
      UnansweredIsRetryable(attempts[j], request);
    }
    AnsweredEnds(attempts[k], request, pdu);
    AnswerIsReturned(trials, AttemptCount(retries), managed, pdu, k);
  }

  /** When all attempts end so, as many as there are retries and one more, the slave is reported offline. */
  lemma SilenceIsOffline(attempts: seq<Attempt>, request: Request, retries: int, managed: bool)
    requires var last := if retries >= 0 then retries else 0;
             && last < |attempts|
             && (forall j :: 0 <= j <= last ==> Unanswered(attempts[j], request))
             && (forall j :: 0 <= j < last && managed ==> attempts[j].recoverOk)
    ensures Retried(Trials(attempts, request), AttemptCount(retries), managed) == Err(SlaveOffline)
  {
    var trials := Trials(attempts, request);
    var last := if retries >= 0 then retries else 0;
    forall j | 0 <= j <= last ensures trials[j].ending == Retryable(NoAnswer) {
      UnansweredIsRetryable(attempts[j], request);
    }
    FailureIsReported(trials, last, AttemptCount(retries), managed, NoAnswer);
  }
}

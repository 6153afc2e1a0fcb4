/** The serial RTU transport: one exchange, the retry loop and the ownership of the tty. */
module SerialRtu {
  import opened Common
  import opened Bytes
  import opened ShiftRegister
  import opened Crc
  import opened CrcDetection
  import opened CrcDistance
  import opened ByteLine

  datatype TransportError =
    PortBusy | PortOwnership | NoAnswer | BadResponse | SlaveOffline | OsFailure | UnsupportedFunction

  // ---- One exchange ----

  predicate IsException(functionByte: Byte) { functionByte & 0x80 != 0 }

  predicate IsRead(functionCode: Byte) { functionCode in {0x01, 0x02, 0x03, 0x04} }

  predicate IsWrite(functionCode: Byte) { functionCode in {0x05, 0x06, 0x0F, 0x10} }

  /** The length of the whole response, told from its first three bytes. */
  function ExpectedLength(functionCode: Byte, header: seq<Byte>): (n: Option<nat>)
    requires |header| >= 3
    ensures n.Some? ==> n.value >= 5
  {
    if IsException(header[1]) then Some(5)
    else if IsRead(functionCode) then Some(3 + Number(header[2]) + 2)
    else if IsWrite(functionCode) then Some(8)
    else None
  }

  /** How one attempt ends: an answer, a failure that may be retried, or an error that leaves the loop at once. */
  datatype Ending = Answer(pdu: seq<Byte>) | Retryable(error: TransportError) | Fatal(error: TransportError)

  function StopError(stop: Stop): Ending {
    match stop
    case TimedOut => Retryable(NoAnswer)
    case ClosedEarly => Retryable(NoAnswer)
    case Failed(busy) => Retryable(if busy then PortBusy else OsFailure)
  }

  /** What an exchange makes of the bytes that come back. */
  function Interpret(functionCode: Byte, stream: seq<Byte>, stop: Stop): Ending {
    if |stream| < 3 then StopError(stop)
    else
      match ExpectedLength(functionCode, stream[..3])
      case None => Fatal(UnsupportedFunction)
      case Some(n) =>
        if |stream| < n then StopError(stop)
        else Checked(stream[..n])
  }

  /** The PDU of a response whose CRC is right. */
  function Checked(response: seq<Byte>): Ending
    requires |response| >= 5
  {
    if Accepted(response) then Answer(response[1..|response| - 2]) else Retryable(BadResponse)
  }

  method CheckReply(response: seq<Byte>) returns (r: Ending)
    requires |response| >= 5
    ensures r == Checked(response)
  {
    var n := |response| - 2;
    var payload := response[..n];
    var crc := ModbusCrc(payload);
    if Received(response[n], response[n + 1]) != crc {
      return Retryable(BadResponse);
    }
    assert payload[1..] == response[1..n];
    r := Answer(payload[1..]);
  }

  /** Reads the header, then as much as it announces, and checks the CRC. */
  method ReceiveReply(line: Line, functionCode: Byte) returns (r: Ending)
    modifies line`incoming
    ensures r == Interpret(functionCode, Stream(old(line.incoming)), StopOf(old(line.incoming)))
  {
    ghost var stream, stop := Stream(line.incoming), StopOf(line.incoming);
    var header := ReadExact(line, 3);
    if header.Err? {
      return StopError(header.error);
    }
    var expected := ExpectedLength(functionCode, header.value);
    if expected.None? {
      return Fatal(UnsupportedFunction);
    }
    var total := expected.value;
    var rest := ReadExact(line, total - 3);
    if rest.Err? {
      return StopError(rest.error);
    }
    var response := header.value + rest.value;
    assert header.value == stream[..3] && rest.value == stream[3..][..total - 3];
    assert response == stream[..total];
    r := CheckReply(response);
  }

  /** The bytes of a request on the line. */
  function RequestFrame(request: Request): seq<Byte> {
    Sealed([request.unitId, request.functionCode] + request.payload)
  }

  /** How one exchange ends: at the writing of the request, or as the bytes that come back say. */
  function ExchangeEnding(request: Request, incoming: seq<Incoming>, outlets: seq<Outlet>): Ending {
    match WriteEnding(outlets, |RequestFrame(request)|)
    case Err(NoProgress) => Fatal(PortBusy)
    case Err(WriteFailed(busy)) => Retryable(if busy then PortBusy else OsFailure)
    case Ok(_) => Interpret(request.functionCode, Stream(incoming), StopOf(incoming))
  }

  /** One exchange without retry: send the sealed request, read the header, then the rest, and check the CRC. */
  method ExchangeOnce(line: Line, request: Request) returns (r: Ending)
    modifies line
    ensures r == ExchangeEnding(request, old(line.incoming), old(line.outlets))
    ensures exists n :: 0 <= n <= |RequestFrame(request)| && line.sent == old(line.sent) + RequestFrame(request)[..n]
                        && (r.Answer? ==> n == |RequestFrame(request)|)
  {
    var frame := CrcFrame([request.unitId, request.functionCode] + request.payload);
    var written := WriteAll(line, frame);
    if written.Err? {
      match written.error {
        case NoProgress => return Fatal(PortBusy);
        case WriteFailed(busy) => return Retryable(if busy then PortBusy else OsFailure);
      }
    }
    assert frame[..|frame|] == frame;
    r := ReceiveReply(line, request.functionCode);
  }

  // ---- Round trip ----

  /** A reply PDU whose length the transport can tell for this request: an exception, a read with its byte count,
      or the echo of a write. */
  predicate WellFormed(functionCode: Byte, pdu: seq<Byte>) {
    if |pdu| < 2 then false
    else if IsException(pdu[0]) then |pdu| == 2
    else if IsRead(functionCode) then |pdu| == 2 + Number(pdu[1])
    else IsWrite(functionCode) && |pdu| == 5
  }

  /** The transport expects the length of a reply exactly when the reply is well-formed. */
  lemma LengthIsExpected(functionCode: Byte, unitId: Byte, pdu: seq<Byte>)
    requires |pdu| >= 2
    ensures ExpectedLength(functionCode, ([unitId] + pdu)[..3]) == Some(|pdu| + 3) <==> WellFormed(functionCode, pdu)
  {
    var header := ([unitId] + pdu)[..3];
    assert header[1] == pdu[0] && header[2] == pdu[1];
  }

  lemma PartsOfReceived(low: Byte, high: Byte)
    ensures Low(Received(low, high)) == low && High(Received(low, high)) == high
  {
  }

  lemma AcceptedIsSealed(frame: seq<Byte>)
    requires |frame| >= 2
    ensures Accepted(frame) <==> frame == Sealed(frame[..|frame| - 2])
  {
    var n := |frame| - 2;
    if Accepted(frame) {
      PartsOfReceived(frame[n], frame[n + 1]);
      assert frame == frame[..n] + [frame[n], frame[n + 1]];
    }
    SealedIsAccepted(frame[..n]);
  }

  /** A well-formed reply from any unit is answered with exactly its PDU, whatever follows it on the line. */
  lemma ReplyIsAnswered(functionCode: Byte, unitId: Byte, pdu: seq<Byte>, rest: seq<Byte>, stop: Stop)
    requires WellFormed(functionCode, pdu)
    ensures Interpret(functionCode, Sealed([unitId] + pdu) + rest, stop) == Answer(pdu)
  {
    var reply := Sealed([unitId] + pdu);
    var stream := reply + rest;
    assert stream[1] == pdu[0] && stream[2] == pdu[1];
    assert stream[..|reply|] == reply;
    SealedIsAccepted([unitId] + pdu);
    assert stream[1..|reply| - 2] == pdu;
  }

  lemma AnswerFrame(functionCode: Byte, stream: seq<Byte>, stop: Stop, pdu: seq<Byte>) returns (frame: seq<Byte>)
    requires Interpret(functionCode, stream, stop) == Answer(pdu)
    ensures 5 <= |frame| && frame <= stream && Accepted(frame) && pdu == frame[1..|frame| - 2]
    ensures ExpectedLength(functionCode, frame[..3]) == Some(|frame|)
  {
    var n := ExpectedLength(functionCode, stream[..3]).value;
    frame := stream[..n];
    assert frame[..3] == stream[..3];
  }

  /** Only such a reply is answered: an answer is the PDU of a well-formed, correctly sealed frame at the head of what
      was received. */
  lemma AnswerIsReply(functionCode: Byte, stream: seq<Byte>, stop: Stop, pdu: seq<Byte>)
    requires Interpret(functionCode, stream, stop) == Answer(pdu)
    ensures WellFormed(functionCode, pdu) && stream != [] && Sealed([stream[0]] + pdu) <= stream
  {
    var frame := AnswerFrame(functionCode, stream, stop, pdu);
    AnswerIsWellFormed(functionCode, frame);
    AnswerIsSealed(frame);
  }

  lemma AnswerIsSealed(frame: seq<Byte>)
    requires |frame| >= 5 && Accepted(frame)
    ensures frame == Sealed([frame[0]] + frame[1..|frame| - 2])
  {
    AcceptedIsSealed(frame);
    assert frame[..|frame| - 2] == [frame[0]] + frame[1..|frame| - 2];
  }

  lemma AnswerIsWellFormed(functionCode: Byte, frame: seq<Byte>)
    requires |frame| >= 5 && ExpectedLength(functionCode, frame[..3]) == Some(|frame|)
    ensures WellFormed(functionCode, frame[1..|frame| - 2])
  {
    var pdu := frame[1..|frame| - 2];
    assert pdu[0] == frame[..3][1] && pdu[1] == frame[..3][2];
  }

  /** A reply damaged without changing its apparent length is never answered when the damage is a burst of at most
      sixteen bits, an odd number of flips or up to three flips anywhere. */
  lemma DamagedReplyIsRejected(functionCode: Byte, reply: seq<Byte>, error: seq<Byte>, rest: seq<Byte>, stop: Stop)
    requires Accepted(reply) && |error| == |reply| && |reply| >= 3
    requires IsBurst(FrameBits(error)) || OddOnes(FrameBits(error)) || 1 <= Ones(FrameBits(error)) <= 3
    requires ExpectedLength(functionCode, Distorted(reply, error)[..3]) == Some(|reply|)
    ensures Interpret(functionCode, Distorted(reply, error) + rest, stop) == Retryable(BadResponse)
  {
    var damaged := Distorted(reply, error);
    if IsBurst(FrameBits(error)) {
      BurstsDetected(reply, error);
    } else if 1 <= Ones(FrameBits(error)) <= 3 {
      FewFlipsDetected(reply, error);
    } else {
      OddErrorsDetected(reply, error);
    }
    assert (damaged + rest)[..3] == damaged[..3];
    assert (damaged + rest)[..|reply|] == damaged;
  }

  // ---- Ownership of the tty ----

  datatype PortAction = Stopped | Started | Used

  /** Whether the port is ours after some actions: after the last successful stop and before any start. */
  predicate OwnedAfter(log: seq<PortAction>) {
    log != [] &&
    match log[|log| - 1]
    case Stopped => true
    case Started => false
    case Used => OwnedAfter(log[..|log| - 1])
  }

  predicate UsedWhileOwned(log: seq<PortAction>, k: nat)
    requires k < |log|
  {
    log[k] == Used ==> OwnedAfter(log[..k])
  }

  /** Every use of the tty happens while the port is ours. */
  ghost predicate OnlyUsedWhileOwned(log: seq<PortAction>) {
    forall k :: 0 <= k < |log| ==> UsedWhileOwned(log, k)
  }

  lemma LogAppend(log: seq<PortAction>, a: PortAction)
    requires OnlyUsedWhileOwned(log) && (a == Used ==> OwnedAfter(log))
    ensures OnlyUsedWhileOwned(log + [a])
    ensures OwnedAfter(log + [a]) <==> a == Stopped || (a == Used && OwnedAfter(log))
  {
    assert (log + [a])[..|log|] == log;
    forall k | 0 <= k < |log| + 1
      ensures UsedWhileOwned(log + [a], k)
    {
      if k < |log| {
        assert UsedWhileOwned(log, k);
        assert (log + [a])[..k] == log[..k];
      }
    }
  }

  class PortOwner {
    const hasStartCommand: bool
    var owned: bool
    var releaseRegistered: bool
    ghost var log: seq<PortAction>

    ghost predicate Valid()
      reads this
    {
      && owned == OwnedAfter(log) && OnlyUsedWhileOwned(log)
      && (owned && hasStartCommand ==> releaseRegistered)
    }

    constructor (hasStartCommand: bool)
      ensures Valid() && !owned && log == [] && this.hasStartCommand == hasStartCommand
    {
      this.hasStartCommand := hasStartCommand;
      owned, releaseRegistered, log := false, false, [];
    }

    /** Runs the stop command unless the port is already ours. */
    method EnsureOwned(commandOk: bool) returns (ok: bool)
      requires Valid()
      modifies this
      ensures Valid() && ok == owned == (old(owned) || commandOk)
      ensures log == if !old(owned) && commandOk then old(log) + [Stopped] else old(log)
    {
      if owned {
        return true;
      }
      if !commandOk {
        return false;
      }
      LogAppend(log, Stopped);
      owned, log := true, log + [Stopped];
      if hasStartCommand && !releaseRegistered {
        releaseRegistered := true;
      }
      ok := true;
    }

    /** Runs the stop command again after a failed exchange. */
    method Recover(commandOk: bool) returns (ok: bool)
      requires Valid()
      modifies this`log
      ensures Valid() && ok == (!owned || commandOk)
      ensures log == if owned && commandOk then old(log) + [Stopped] else old(log)
    {
      if owned {
        if !commandOk {
          return false;
        }
        LogAppend(log, Stopped);
        log := log + [Stopped];
      }
      ok := true;
    }

    /** Gives the port back; when the start command fails it stays ours. */
    method Release(commandOk: bool)
      requires Valid()
      modifies this
      ensures Valid()
      ensures var given := old(owned) && hasStartCommand && commandOk;
              owned == (old(owned) && !given) && log == if given then old(log) + [Started] else old(log)
    {
      if !owned || !hasStartCommand {
        return;
      }
      if !commandOk {
        return;
      }
      LogAppend(log, Started);
      owned, log := false, log + [Started];
    }

    ghost method Use()
      requires Valid() && owned
      modifies this`log
      ensures Valid() && log == old(log) + [Used]
    {
      LogAppend(log, Used);
      log := log + [Used];
    }
  }

  // ---- The retry loop ----

  /** What the world does in one attempt: the stop command, opening the tty, the exchange, the recovery. */
  datatype Attempt = Attempt(claimOk: bool, openFault: Option<bool>, incoming: seq<Incoming>, outlets: seq<Outlet>,
                             recoverOk: bool)

  function AttemptCount(retries: int): (n: nat)
    ensures n >= 1
  {
    if retries + 1 >= 1 then retries + 1 else 1
  }

  function FinalError(e: TransportError): TransportError {
    if e == NoAnswer then SlaveOffline else e
  }

  function AttemptEnding(a: Attempt, request: Request): Ending {
    if a.openFault.Some? then Retryable(if a.openFault.value then PortBusy else OsFailure)
    else ExchangeEnding(request, a.incoming, a.outlets)
  }

  /** One attempt on the tty, which has to be ours when it is managed: opening it is what counts as a use. */
  method ExchangeAttempt(owner: PortOwner?, a: Attempt, request: Request) returns (r: Ending)
    requires owner != null ==> owner.Valid() && owner.owned
    modifies owner
    ensures r == AttemptEnding(a, request)
    ensures owner != null ==> owner.Valid() && owner.owned && owner.log == old(owner.log) + [Used]
  {
    if owner != null {
      owner.Use();
    }
    if a.openFault.Some? {
      return Retryable(if a.openFault.value then PortBusy else OsFailure);
    }
    var line := new Line(a.incoming, a.outlets);
    r := ExchangeOnce(line, request);
  }

  /** What an attempt comes to: how it ends and whether the port can be recovered after it. */
  datatype Trial = Trial(ending: Ending, recoverOk: bool)

  function Trials(attempts: seq<Attempt>, request: Request): (trials: seq<Trial>)
    ensures |trials| == |attempts|
  {
    seq(|attempts|, i requires 0 <= i < |attempts| =>
      Trial(AttemptEnding(attempts[i], request), attempts[i].recoverOk))
  }

  /** Whether the loop ends with a trial or goes on to the next. */
  datatype Course = Done(result: Result<seq<Byte>, TransportError>) | GoOn(error: TransportError)

  function AfterTrial(t: Trial, exhausted: bool, managed: bool): Course {
    match t.ending
    case Answer(pdu) => Done(Ok(pdu))
    case Fatal(e) => Done(Err(e))
    case Retryable(e) => if !exhausted && managed && !t.recoverOk then Done(Err(PortOwnership)) else GoOn(e)
  }

  /** The result of at most n trials on a port that is ours, or that nobody manages. */
  function Retried(trials: seq<Trial>, n: nat, managed: bool): Result<seq<Byte>, TransportError>
    requires 0 < n <= |trials|
    decreases n
  {
    match AfterTrial(trials[0], n == 1, managed)
    case Done(result) => result
    case GoOn(e) => if n == 1 then Err(FinalError(e)) else Retried(trials[1..], n - 1, managed)
  }

  /** The trial leaves the loop running. */
  predicate Retries(t: Trial, managed: bool) {
    t.ending.Retryable? && (managed ==> t.recoverOk)
  }

  /** Trial k answers, and every trial before it failed retryably and was recovered from. */
  ghost predicate AnsweredAt(trials: seq<Trial>, k: nat, managed: bool, pdu: seq<Byte>)
    requires k < |trials|
  {
    trials[k].ending == Answer(pdu) && forall j :: 0 <= j < k ==> Retries(trials[j], managed)
  }

  lemma {:induction false} AnswerIsReturned(trials: seq<Trial>, n: nat, managed: bool, pdu: seq<Byte>, k: nat)
    requires k < n <= |trials| && AnsweredAt(trials, k, managed, pdu)
    ensures Retried(trials, n, managed) == Ok(pdu)
    decreases n
  {
    if k > 0 {
      assert Retries(trials[0], managed);
      assert forall j :: 0 <= j < k ==> trials[1..][j] == trials[j + 1];
      AnswerIsReturned(trials[1..], n - 1, managed, pdu, k - 1);
    }
  }

  lemma {:induction false} ReturnedIsAnswer(trials: seq<Trial>, n: nat, managed: bool, pdu: seq<Byte>) returns (k: nat)
    requires 0 < n <= |trials| && Retried(trials, n, managed) == Ok(pdu)
    ensures k < n && AnsweredAt(trials, k, managed, pdu)
    decreases n
  {
    if trials[0].ending.Answer? {
      k := 0;
    } else {
      var before := ReturnedIsAnswer(trials[1..], n - 1, managed, pdu);
      k := before + 1;
      forall j | 0 <= j < k
        ensures Retries(trials[j], managed)
      {
        assert j > 0 ==> trials[j] == trials[1..][j - 1];
      }
    }
  }

  /** The result is a PDU exactly when some trial within the limit answers it after retryable failures only: the first
      answer counts. */
  lemma FirstAnswerCounts(trials: seq<Trial>, n: nat, managed: bool, pdu: seq<Byte>)
    requires 0 < n <= |trials|
    ensures Retried(trials, n, managed) == Ok(pdu) <==> exists k :: 0 <= k < n && AnsweredAt(trials, k, managed, pdu)
  {
    if Retried(trials, n, managed) == Ok(pdu) {
      var k := ReturnedIsAnswer(trials, n, managed, pdu);
    }
    if k :| 0 <= k < n && AnsweredAt(trials, k, managed, pdu) {
      AnswerIsReturned(trials, n, managed, pdu, k);
    }
  }

  /** How often the tty has been used. */
  function Uses(log: seq<PortAction>): nat {
    if log == [] then 0 else Uses(log[..|log| - 1]) + if log[|log| - 1] == Used then 1 else 0
  }

  lemma UsesAppend(log: seq<PortAction>, a: PortAction)
    ensures Uses(log + [a]) == Uses(log) + if a == Used then 1 else 0
  {
    assert (log + [a])[..|log|] == log;
  }

  /** Claims a managed tty. */
  method ClaimPort(owner: PortOwner?, commandOk: bool) returns (ok: bool)
    requires owner != null ==> owner.Valid()
    modifies owner
    ensures ok == (owner == null || old(owner.owned) || commandOk)
    ensures owner != null ==> owner.Valid() && owner.owned == ok && Uses(owner.log) == Uses(old(owner.log))
  {
    if owner == null {
      return true;
    }
    UsesAppend(owner.log, Stopped);
    ok := owner.EnsureOwned(commandOk);
  }

  /** Prepares a managed tty for another attempt. */
  method RecoverPort(owner: PortOwner?, commandOk: bool) returns (ok: bool)
    requires owner != null ==> owner.Valid() && owner.owned
    modifies owner
    ensures ok == (owner == null || commandOk)
    ensures owner != null ==> owner.Valid() && owner.owned && Uses(owner.log) == Uses(old(owner.log))
  {
    if owner == null {
      return true;
    }
    UsesAppend(owner.log, Stopped);
    ok := owner.Recover(commandOk);
  }

  lemma RetriedStep(trials: seq<Trial>, k: nat, n: nat, managed: bool)
    requires k < n <= |trials|
    ensures Retried(trials[k..], n - k, managed) ==
            match AfterTrial(trials[k], k == n - 1, managed)
            case Done(result) => result
            case GoOn(e) => if k == n - 1 then Err(FinalError(e)) else Retried(trials[k + 1..], n - (k + 1), managed)
  {
    assert trials[k..][1..] == trials[k + 1..];
  }

  /** One attempt, with the recovery that another one needs. */
  method AttemptWithRecovery(owner: PortOwner?, request: Request, a: Attempt, exhausted: bool) returns (course: Course)
    requires owner != null ==> owner.Valid()
    modifies owner
    ensures course == if owner == null || old(owner.owned) || a.claimOk
                      then AfterTrial(Trial(AttemptEnding(a, request), a.recoverOk), exhausted, owner != null)
                      else Done(Err(PortOwnership))
    ensures owner != null ==>
              && owner.Valid()
              && Uses(owner.log) == Uses(old(owner.log)) + (if old(owner.owned) || a.claimOk then 1 else 0)
              && (course.GoOn? ==> owner.owned)
  {
    var claimed := ClaimPort(owner, a.claimOk);
    if !claimed {
      return Done(Err(PortOwnership));
    }
    if owner != null {
      UsesAppend(owner.log, Used);
    }
    var ending := ExchangeAttempt(owner, a, request);
    match ending {
      case Answer(pdu) => return Done(Ok(pdu));
      case Fatal(e) => return Done(Err(e));
      case Retryable(e) =>
        if !exhausted {
          var recovered := RecoverPort(owner, a.recoverOk);
          if !recovered {
            return Done(Err(PortOwnership));
          }
        }
        return GoOn(e);
    }
  }

  /** The exchange with retries: at most max(1, retries + 1) attempts, and a managed tty is touched only while it is
      ours, as the validity of its owner says. */
  method Exchange(owner: PortOwner?, retries: int, request: Request, attempts: seq<Attempt>)
    returns (r: Result<seq<Byte>, TransportError>)
    requires |attempts| >= AttemptCount(retries)
    requires owner != null ==> owner.Valid()
    modifies owner
    ensures owner != null ==> owner.Valid() && Uses(owner.log) <= Uses(old(owner.log)) + AttemptCount(retries)
    ensures r == if owner != null && !old(owner.owned) && !attempts[0].claimOk then Err(PortOwnership)
                 else Retried(Trials(attempts, request), AttemptCount(retries), owner != null)
  {
    var n := AttemptCount(retries);
    ghost var trials := Trials(attempts, request);
    var lastError: Option<TransportError> := None;
    assert trials[0..] == trials;
    for k := 0 to n
      invariant owner != null ==> owner.Valid() && Uses(owner.log) <= Uses(old(owner.log)) + k
      invariant owner != null ==> if k == 0 then owner.owned == old(owner.owned) else owner.owned
      invariant owner != null && k > 0 ==> old(owner.owned) || attempts[0].claimOk
      invariant k < n ==> Retried(trials[k..], n - k, owner != null) == Retried(trials, n, owner != null)
      invariant k == n ==> lastError.Some? && Retried(trials, n, owner != null) == Err(FinalError(lastError.value))
    {
      RetriedStep(trials, k, n, owner != null);
      var course := AttemptWithRecovery(owner, request, attempts[k], k >= n - 1);
      if course.Done? {
        return course.result;
      }
      lastError := Some(course.error);
    }
    r := Err(FinalError(lastError.value));
  }
}

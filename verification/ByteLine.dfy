/** A connection that delivers bytes in chunks of any size, interrupted by silence, closing or faults. */
module ByteLine {
  import opened Common
  import opened Bytes

  /** A Modbus request, whatever carries it. */
  datatype Request = Request(unitId: Byte, functionCode: Byte, payload: seq<Byte>)

  /** What the next read meets. A read never returns more than one chunk, nor more than it asked for. */
  datatype Incoming = Chunk(bytes: seq<Byte>) | Silence | Fault(busy: bool)

  /** What the next write meets: how many bytes go out at most, or a fault. */
  datatype Outlet = Takes(count: int) | WriteFault(busy: bool)

  /** Why the bytes stopped: nothing came in time, the other side closed, or the operating system failed. */
  datatype Stop = TimedOut | ClosedEarly | Failed(busy: bool)

  /** The bytes that arrive before the first interruption. An empty chunk means that the line was closed. */
  function Stream(events: seq<Incoming>): seq<Byte> {
    if events == [] || !events[0].Chunk? || events[0].bytes == [] then []
    else events[0].bytes + Stream(events[1..])
  }

  function StopOf(events: seq<Incoming>): Stop {
    if events == [] || events[0].Silence? then TimedOut
    else if events[0].Fault? then Failed(events[0].busy)
    else if events[0].bytes == [] then ClosedEarly
    else StopOf(events[1..])
  }

  /** The first k events bring bytes. */
  ghost predicate BringBytes(events: seq<Incoming>, k: nat)
    requires k <= |events|
  {
    forall j :: 0 <= j < k ==> events[j].Chunk? && events[j].bytes != []
  }

  /** The bytes of the first k events. */
  function Brought(events: seq<Incoming>, k: nat): seq<Byte>
    requires k <= |events|
  {
    if k == 0 then [] else (if events[0].Chunk? then events[0].bytes else []) + Brought(events[1..], k - 1)
  }

  /** The stream is what the events before the first interruption bring; a missing event or silence is a timeout, an
      empty chunk a closed line and a fault what it is. */
  lemma {:induction false} StreamMeaning(events: seq<Incoming>, k: nat)
    requires k <= |events| && BringBytes(events, k)
    requires k < |events| ==> !events[k].Chunk? || events[k].bytes == []
    ensures Stream(events) == Brought(events, k)
    ensures StopOf(events) == if k == |events| then TimedOut
                              else match events[k]
                                   case Silence => TimedOut
                                   case Chunk(_) => ClosedEarly
                                   case Fault(busy) => Failed(busy)
    decreases k
  {
    if k > 0 {
      assert forall j :: 0 <= j < k - 1 ==> events[1..][j] == events[j + 1];
      StreamMeaning(events[1..], k - 1);
    }
  }

  class Line {
    var incoming: seq<Incoming>
    var outlets: seq<Outlet>
    var sent: seq<Byte>

    constructor (incoming: seq<Incoming>, outlets: seq<Outlet>)
      ensures this.incoming == incoming && this.outlets == outlets && sent == []
    {
      this.incoming, this.outlets, sent := incoming, outlets, [];
    }

    /** One wait-and-read: at most size bytes of the next chunk; the rest of the chunk stays for the next read. */
    method Read(size: nat) returns (r: Result<seq<Byte>, Stop>)
      requires size > 0
      modifies this`incoming
      ensures r.Ok? ==> 0 < |r.value| <= size && Stream(old(incoming)) == r.value + Stream(incoming)
                        && StopOf(incoming) == StopOf(old(incoming))
      ensures r.Err? ==> Stream(old(incoming)) == [] && r.error == StopOf(old(incoming)) && incoming == old(incoming)
    {
      if incoming == [] || incoming[0].Silence? {
        return Err(TimedOut);
      }
      if incoming[0].Fault? {
        return Err(Failed(incoming[0].busy));
      }
      var bytes := incoming[0].bytes;
      if bytes == [] {
        return Err(ClosedEarly);
      }
      if |bytes| <= size {
        incoming := incoming[1..];
        return Ok(bytes);
      }
      ghost var rest := incoming[1..];
      incoming := [Chunk(bytes[size..])] + incoming[1..];
      assert incoming[1..] == rest;
      assert bytes + Stream(rest) == bytes[..size] + (bytes[size..] + Stream(rest));
      return Ok(bytes[..size]);
    }

    /** sendall: everything goes out. */
    method SendAll(data: seq<Byte>)
      modifies this`sent
      ensures sent == old(sent) + data
    {
      sent := sent + data;
    }

    /** One write: how many of the offered bytes went out. */
    method Write(data: seq<Byte>) returns (r: Result<int, bool>)
      modifies this`outlets, this`sent
      ensures r == if old(outlets) == [] then Ok(0) else Accepting(old(outlets)[0], |data|)
      ensures outlets == if old(outlets) == [] then [] else old(outlets)[1..]
      ensures r.Ok? ==> r.value <= |data| && sent == old(sent) + (if r.value > 0 then data[..r.value] else [])
      ensures r.Err? ==> sent == old(sent)
    {
      if outlets == [] {
        return Ok(0);
      }
      var next := outlets[0];
      outlets := outlets[1..];
      if next.WriteFault? {
        return Err(next.busy);
      }
      var count := if next.count <= |data| then next.count else |data|;
      if count > 0 {
        sent := sent + data[..count];
      }
      return Ok(count);
    }
  }

  /** How many of the offered bytes an outlet takes. */
  function Accepting(outlet: Outlet, offered: nat): Result<int, bool> {
    match outlet
    case WriteFault(busy) => Err(busy)
    case Takes(count) => Ok(if count <= offered then count else offered)
  }

  /** Reads exactly size bytes, whatever the chunking, or reports why they did not all come. */
  method ReadExact(line: Line, size: nat) returns (r: Result<seq<Byte>, Stop>)
    modifies line`incoming
    ensures |Stream(old(line.incoming))| >= size ==>
              r == Ok(Stream(old(line.incoming))[..size]) &&
              Stream(line.incoming) == Stream(old(line.incoming))[size..] &&
              StopOf(line.incoming) == StopOf(old(line.incoming))
    ensures |Stream(old(line.incoming))| < size ==> r == Err(StopOf(old(line.incoming)))
  {
    var chunks: seq<Byte> := [];
    ghost var all := Stream(line.incoming);
    while |chunks| < size
      invariant |chunks| <= size
      invariant all == chunks + Stream(line.incoming)
      invariant StopOf(line.incoming) == StopOf(old(line.incoming))
      decreases size - |chunks|
    {
      var chunk := line.Read(size - |chunks|);
      if chunk.Err? {
        return Err(chunk.error);
      }
      chunks := chunks + chunk.value;
    }
    r := Ok(chunks);
  }

  /** A write that made no progress. */
  datatype WriteStop = NoProgress | WriteFailed(busy: bool)

  /** How writing a number of bytes ends: with all of them taken, or at the first write that takes none or fails. */
  function WriteEnding(outlets: seq<Outlet>, size: nat): Result<(), WriteStop> {
    if size == 0 then Ok(())
    else if outlets == [] then Err(NoProgress)
    else
      match Accepting(outlets[0], size)
      case Err(busy) => Err(WriteFailed(busy))
      case Ok(count) => if count <= 0 then Err(NoProgress) else WriteEnding(outlets[1..], size - count)
  }

  /** What the first k outlets take when each takes something. */
  function Taken(outlets: seq<Outlet>, k: nat): int
    requires k <= |outlets|
  {
    if k == 0 then 0 else Taken(outlets, k - 1) + if outlets[k - 1].Takes? then outlets[k - 1].count else 0
  }

  /** Every one of the first k outlets takes something, and before the last one not everything has been taken. */
  ghost predicate TakeInTurn(outlets: seq<Outlet>, k: nat, size: nat)
    requires k <= |outlets|
  {
    forall j :: 0 <= j < k ==> outlets[j].Takes? && outlets[j].count > 0 && Taken(outlets, j) < size
  }

  lemma {:induction false} TakenFirst(outlets: seq<Outlet>, k: nat)
    requires 0 < k <= |outlets|
    ensures Taken(outlets, k) == Taken(outlets[1..], k - 1) + if outlets[0].Takes? then outlets[0].count else 0
    decreases k
  {
    if k > 1 {
      TakenFirst(outlets, k - 1);
      assert outlets[1..][k - 2] == outlets[k - 1];
    }
  }

  /** Where writing ends: when the outlets of some turns have taken everything; else the next outlet decides, a missing
      one or one that takes nothing as no progress. */
  lemma {:induction false} WriteMeaning(outlets: seq<Outlet>, k: nat, size: nat)
    requires k <= |outlets| && TakeInTurn(outlets, k, size)
    ensures Taken(outlets, k) >= size ==> WriteEnding(outlets, size) == Ok(())
    ensures Taken(outlets, k) < size && (k == |outlets| || (outlets[k].Takes? && outlets[k].count <= 0)) ==>
              WriteEnding(outlets, size) == Err(NoProgress)
    ensures Taken(outlets, k) < size && k < |outlets| && outlets[k].WriteFault? ==>
              WriteEnding(outlets, size) == Err(WriteFailed(outlets[k].busy))
    decreases k
  {
    if k > 0 {
      assert Taken(outlets, 0) < size;
      TakenFirst(outlets, k);
      var count := outlets[0].count;
      assert Taken(outlets, 1) == Taken(outlets, 0) + count;
      assert k > 1 ==> Taken(outlets, 1) < size;
      if count < size {
        forall j | 0 <= j < k - 1
          ensures outlets[1..][j].Takes? && outlets[1..][j].count > 0 && Taken(outlets[1..], j) < size - count
        {
          assert outlets[1..][j] == outlets[j + 1];
          TakenFirst(outlets, j + 1);
        }
        WriteMeaning(outlets[1..], k - 1, size - count);
      }
    }
  }

  /** Writes a whole frame in as many pieces as the line takes. */
  method WriteAll(line: Line, frame: seq<Byte>) returns (r: Result<(), WriteStop>)
    modifies line`outlets, line`sent
    ensures r == WriteEnding(old(line.outlets), |frame|)
    ensures r.Ok? ==> line.sent == old(line.sent) + frame
    ensures r.Err? ==> exists n :: 0 <= n < |frame| && line.sent == old(line.sent) + frame[..n]
  {
    var total := 0;
    while total < |frame|
      invariant 0 <= total <= |frame|
      invariant line.sent == old(line.sent) + frame[..total]
      invariant WriteEnding(line.outlets, |frame| - total) == WriteEnding(old(line.outlets), |frame|)
      decreases |frame| - total
    {
      var written := line.Write(frame[total..]);
      if written.Err? {
        return Err(WriteFailed(written.error));
      }
      if written.value <= 0 {
        return Err(NoProgress);
      }
      assert frame[..total] + frame[total..][..written.value] == frame[..total + written.value];
      total := total + written.value;
    }
    assert frame[..total] == frame;
    r := Ok(());
  }
}

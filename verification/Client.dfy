/** The Modbus client on top of a transport: request payloads, response checks, and a register value's way from the
    device to the caller and back (MODBUS Application Protocol V1.1b3, sections 6.1, 6.3, 6.6, 6.12 and 7). */
module Client {
  import opened Common
  import opened Bytes
  import opened Registers
  import Crc
  import SerialRtu
  import ByteLine

  datatype ClientError =
    | EmptyResponse
    | DeviceException(code: int)
    | UnexpectedFunction
    | MissingCount
    | Incomplete
    | BitMissing
    | UnexpectedLength
    | TooLarge
    | Codec(error: CodecError)

  // ---- Response checks ----

  /** What follows the function code of a regular response. */
  function ResponseData(functionCode: Byte, pdu: seq<Byte>): Result<seq<Byte>, ClientError> {
    if pdu == [] then Err(EmptyResponse)
    else if pdu[0] == functionCode | 0x80 then Err(DeviceException(if |pdu| > 1 then Number(pdu[1]) else -1))
    else if pdu[0] != functionCode then Err(UnexpectedFunction)
    else Ok(pdu[1..])
  }

  lemma ExceptionCodeDiffers(functionCode: Byte)
    requires functionCode & 0x80 == 0
    ensures functionCode | 0x80 != functionCode
    ensures (functionCode | 0x80) & 0x80 != 0
  {
  }

  /** A regular function code accepts data exactly in its own response, and an exception response always surfaces with
      the code of the device. */
  lemma ResponseMeaning(functionCode: Byte, pdu: seq<Byte>, data: seq<Byte>)
    requires functionCode & 0x80 == 0
    ensures ResponseData(functionCode, pdu) == Ok(data) <==> pdu == [functionCode] + data
    ensures forall code: Byte :: pdu == [functionCode | 0x80, code] ==>
              ResponseData(functionCode, pdu) == Err(DeviceException(Number(code)))
  {
    ExceptionCodeDiffers(functionCode);
    if pdu != [] && pdu[0] == functionCode {
      assert pdu == [functionCode] + pdu[1..];
    }
  }

  // ---- Registers ----

  function WordsOf(bytes: seq<Byte>): (words: seq<Word>)
    requires |bytes| % 2 == 0
    ensures |words| == |bytes| / 2
  {
    if bytes == [] then [] else [WordOf(bytes[..2])] + WordsOf(bytes[2..])
  }

  function BytesOf(words: seq<Word>): (bytes: seq<Byte>)
    ensures |bytes| == 2 * |words|
  {
    if words == [] then [] else WordBytes(words[0]) + BytesOf(words[1..])
  }

  lemma {:induction false} WordsOfBytesOf(words: seq<Word>)
    ensures WordsOf(BytesOf(words)) == words
  {
    if words != [] {
      var bytes := BytesOf(words);
      assert bytes[..2] == WordBytes(words[0]);
      assert bytes[2..] == BytesOf(words[1..]);
      WordsOfBytesOf(words[1..]);
      assert words == [words[0]] + words[1..];
    }
  }

  lemma {:induction false} BytesOfWordsOf(bytes: seq<Byte>)
    requires |bytes| % 2 == 0
    ensures BytesOf(WordsOf(bytes)) == bytes
  {
    if bytes != [] {
      BytesOfWordsOf(bytes[2..]);
      WordBytesOf(bytes[..2]);
      assert WordsOf(bytes)[1..] == WordsOf(bytes[2..]);
      assert bytes == bytes[..2] + bytes[2..];
    }
  }

  /** The payload of the register codec and the bytes on the line are the same big-endian bytes. */
  function Numbers(bytes: seq<Byte>): (octets: seq<Octet>)
    ensures |octets| == |bytes|
  {
    seq(|bytes|, i requires 0 <= i < |bytes| => Number(bytes[i]))
  }

  lemma WordBytesAgree(word: Word)
    ensures Numbers(WordBytes(word)) == RegisterBytes(word)
  {
    assert ToBytes(word / 256, 1) == ToBytes(word / 256 / 256, 0) + [word / 256 % 256];
    assert ToBytes(word, 2) == ToBytes(word / 256, 1) + [word % 256];
  }

  lemma {:induction false} PayloadsAgree(words: seq<Word>)
    ensures Numbers(BytesOf(words)) == Payload(words)
  {
    if words != [] {
      PayloadsAgree(words[1..]);
      WordBytesAgree(words[0]);
      assert Numbers(WordBytes(words[0]) + BytesOf(words[1..]))
          == Numbers(WordBytes(words[0])) + Numbers(BytesOf(words[1..]));
    }
  }

  /** The words that a read takes from the line join again, in the codec, to the bytes that were on the line. */
  lemma ReadPayloadAgrees(bytes: seq<Byte>)
    requires |bytes| % 2 == 0
    ensures Payload(WordsOf(bytes)) == Numbers(bytes)
  {
    BytesOfWordsOf(bytes);
    PayloadsAgree(WordsOf(bytes));
  }

  /** The words of a register response, or what is wrong with it. */
  function ReadRegisters(functionCode: Byte, count: nat, pdu: seq<Byte>): Result<seq<Word>, ClientError> {
    var response := ResponseData(functionCode, pdu);
    if response.Err? then Err(response.error)
    else
      var data := response.value;
      if data == [] then Err(MissingCount)
      else
        var byteCount := Number(data[0]);
        if |data| != 1 + byteCount || byteCount != count * 2 then Err(Incomplete)
        else Ok(WordsOf(data[1..]))
  }

  /** A response that announces its own length. */
  function Counted(functionCode: Byte, data: seq<Byte>): (pdu: seq<Byte>)
    requires |data| < 256
    ensures |pdu| == 2 + |data|
  {
    [functionCode, ByteOf(|data|)] + data
  }

  /** The response of a device to a register read. */
  function RegisterReply(functionCode: Byte, words: seq<Word>): (pdu: seq<Byte>)
    requires |words| < 128
    ensures |pdu| == 2 + 2 * |words|
  {
    Counted(functionCode, BytesOf(words))
  }

  lemma CountedData(functionCode: Byte, data: seq<Byte>)
    requires functionCode & 0x80 == 0 && |data| < 256
    ensures var response := ResponseData(functionCode, Counted(functionCode, data));
            && response.Ok? && |response.value| == 1 + |data|
            && Number(response.value[0]) == |data| && response.value[1..] == data
  {
    var body := [ByteOf(|data|)] + data;
    assert Counted(functionCode, data) == [functionCode] + body;
    ResponseMeaning(functionCode, Counted(functionCode, data), body);
    assert body[1..] == data;
  }

  lemma ReplyIsRead(functionCode: Byte, words: seq<Word>)
    requires functionCode & 0x80 == 0 && |words| < 128
    ensures ReadRegisters(functionCode, |words|, RegisterReply(functionCode, words)) == Ok(words)
  {
    CountedData(functionCode, BytesOf(words));
    WordsOfBytesOf(words);
  }

  lemma ReadIsReply(functionCode: Byte, count: nat, pdu: seq<Byte>)
    requires functionCode & 0x80 == 0 && ReadRegisters(functionCode, count, pdu).Ok?
    ensures count < 128 && |ReadRegisters(functionCode, count, pdu).value| == count
    ensures pdu == RegisterReply(functionCode, ReadRegisters(functionCode, count, pdu).value)
  {
    var data := ResponseData(functionCode, pdu).value;
    BytesOfWordsOf(data[1..]);
    ByteWithNumber(data[0], 2 * count);
    assert pdu == [pdu[0], data[0]] + data[1..];
  }

  /** A register read succeeds with some words exactly on the one response that carries them. */
  lemma ReadRegistersMeaning(functionCode: Byte, count: nat, pdu: seq<Byte>, words: seq<Word>)
    requires functionCode & 0x80 == 0
    ensures ReadRegisters(functionCode, count, pdu) == Ok(words)
            <==> |words| == count && count < 128 && pdu == RegisterReply(functionCode, words)
  {
    if ReadRegisters(functionCode, count, pdu) == Ok(words) {
      ReadIsReply(functionCode, count, pdu);
    }
    if |words| == count && count < 128 {
      ReplyIsRead(functionCode, words);
    }
  }

  /** What is wrong with every other response: nothing at all, an exception without a code, a foreign function, no count of
      bytes, or a count that is not that of the words asked for or of the bytes that follow. */
  lemma ResponseErrors(functionCode: Byte, count: nat, pdu: seq<Byte>)
    requires functionCode & 0x80 == 0
    ensures var r := ReadRegisters(functionCode, count, pdu);
            && (pdu == [] ==> r == Err(EmptyResponse))
            && (pdu == [functionCode | 0x80] ==> r == Err(DeviceException(-1)))
            && (pdu != [] && pdu[0] != functionCode && pdu[0] != functionCode | 0x80 ==> r == Err(UnexpectedFunction))
            && (pdu == [functionCode] ==> r == Err(MissingCount))
            && (|pdu| >= 2 && pdu[0] == functionCode ==>
                  (r == Err(Incomplete) <==> Number(pdu[1]) != |pdu| - 2 || |pdu| - 2 != 2 * count) &&
                  (r.Ok? <==> Number(pdu[1]) == |pdu| - 2 == 2 * count))
  {
    ExceptionCodeDiffers(functionCode);
  }

  // ---- Bits ----

  /** Bit k of a byte, lowest first: shifting right k times leaves it at the bottom. */
  predicate BitAt(b: Byte, k: nat) {
    if k == 0 then b & 1 != 0 else BitAt(b >> 1, k - 1)
  }

  /** The weight of a bit: 0x01 for the first, twice that for every next one. */
  function Weight(k: nat): Byte {
    if k == 0 then 1 else Weight(k - 1) << 1
  }

  lemma Weights()
    ensures Weight(0) == 0x01 && Weight(1) == 0x02 && Weight(2) == 0x04 && Weight(3) == 0x08
    ensures Weight(4) == 0x10 && Weight(5) == 0x20 && Weight(6) == 0x40 && Weight(7) == 0x80
  {
    assert Weight(1) == 0x02;
    assert Weight(2) == 0x04;
    assert Weight(3) == 0x08;
    assert Weight(4) == 0x10;
    assert Weight(5) == 0x20;
    assert Weight(6) == 0x40;
  }

  lemma ShiftedBit(b: Byte, m: Byte)
    requires m < 0x80
    ensures (b >> 1) & m != 0 <==> b & (m << 1) != 0
  {
  }

  /** The bits of a byte by their weights. */
  lemma {:induction false} BitWeights(b: Byte, k: nat)
    requires k < 8
    ensures BitAt(b, k) <==> b & Weight(k) != 0
  {
    if k > 0 {
      Weights();
      BitWeights(b >> 1, k - 1);
      ShiftedBit(b, Weight(k - 1));
    }
  }

  /** No bit at or above position n. */
  predicate ClearFrom(b: Byte, n: nat) {
    if n == 0 then b == 0 else ClearFrom(b >> 1, n - 1)
  }

  lemma {:induction false} ClearFurther(b: Byte, n: nat, m: nat)
    requires ClearFrom(b, n) && n <= m
    ensures ClearFrom(b, m)
    decreases m
  {
    if n > 0 {
      ClearFurther(b >> 1, n - 1, m - 1);
    } else if m > 0 {
      ClearFurther(0, 0, m - 1);
    }
  }

  lemma SevenBits(b: Byte)
    requires b >> 1 >> 1 >> 1 >> 1 >> 1 >> 1 >> 1 == 0
    ensures b < 0x80
  {
  }

  lemma ClearTop(b: Byte, n: nat)
    requires ClearFrom(b, n) && n <= 7
    ensures b < 0x80
  {
    ClearFurther(b, n, 7);
    assert ClearFrom(b >> 1, 6);
    assert ClearFrom(b >> 1 >> 1, 5);
    assert ClearFrom(b >> 1 >> 1 >> 1, 4);
    assert ClearFrom(b >> 1 >> 1 >> 1 >> 1, 3);
    assert ClearFrom(b >> 1 >> 1 >> 1 >> 1 >> 1, 2);
    assert ClearFrom(b >> 1 >> 1 >> 1 >> 1 >> 1 >> 1, 1);
    assert ClearFrom(b >> 1 >> 1 >> 1 >> 1 >> 1 >> 1 >> 1, 0);
    SevenBits(b);
  }

  /** A bit put in below the others. */
  function PushBit(high: Byte, bit: bool): (b: Byte)
    requires high < 0x80
    ensures b >> 1 == high && (b & 1 != 0 <==> bit)
  {
    (high << 1) | (if bit then 1 else 0)
  }

  /** A byte made of at most eight bits, lowest first; the missing ones are zero. */
  function PackedByte(bits: seq<bool>): (b: Byte)
    requires |bits| <= 8
    ensures ClearFrom(b, |bits|)
  {
    if bits == [] then 0
    else
      var high := PackedByte(bits[1..]);
      ClearTop(high, |bits| - 1);
      PushBit(high, bits[0])
  }

  lemma {:induction false} PackedBitAt(bits: seq<bool>, k: nat)
    requires k < |bits| <= 8
    ensures BitAt(PackedByte(bits), k) == bits[k]
  {
    ClearTop(PackedByte(bits[1..]), |bits| - 1);
    if k > 0 {
      PackedBitAt(bits[1..], k - 1);
    }
  }

  /** The data of a bit response: eight bits to a byte. */
  function PackedBits(bits: seq<bool>): (data: seq<Byte>)
    ensures |data| == (|bits| + 7) / 8
  {
    if |bits| <= 8 then (if bits == [] then [] else [PackedByte(bits)])
    else [PackedByte(bits[..8])] + PackedBits(bits[8..])
  }

  lemma {:induction false} PackedBitsAt(bits: seq<bool>, k: nat)
    requires k < |bits|
    ensures k / 8 < |PackedBits(bits)| && BitAt(PackedBits(bits)[k / 8], k % 8) == bits[k]
  {
    if k < 8 {
      PackedBitAt(if |bits| <= 8 then bits else bits[..8], k);
    } else {
      PackedBitsAt(bits[8..], k - 8);
      assert (k - 8) / 8 == k / 8 - 1 && (k - 8) % 8 == k % 8;
    }
  }

  /** The first count bits of some data. */
  function Unpacked(data: seq<Byte>, count: nat): (bits: seq<bool>)
    requires count <= 8 * |data|
    ensures |bits| == count
  {
    seq(count, k requires 0 <= k < count => BitAt(data[k / 8], k % 8))
  }

  lemma UnpackedPacked(bits: seq<bool>)
    ensures |bits| <= 8 * |PackedBits(bits)| && Unpacked(PackedBits(bits), |bits|) == bits
  {
    forall k | 0 <= k < |bits|
      ensures k / 8 < |PackedBits(bits)| && BitAt(PackedBits(bits)[k / 8], k % 8) == bits[k]
    {
      PackedBitsAt(bits, k);
    }
  }

  /** The first count bits of a response. A response with too few bytes for them raises an index error. */
  method ReadBits(functionCode: Byte, count: nat, pdu: seq<Byte>) returns (r: Result<seq<bool>, ClientError>)
    ensures r == BitsOf(functionCode, count, pdu)
  {
    var response := ResponseData(functionCode, pdu);
    if response.Err? {
      return Err(response.error);
    }
    var data := response.value;
    if data == [] {
      return Err(MissingCount);
    }
    var byteCount := Number(data[0]);
    if |data| != 1 + byteCount {
      return Err(Incomplete);
    }
    var raw := data[1..];
    var values: seq<bool> := [];
    for index := 0 to count
      invariant index <= 8 * |raw|
      invariant |values| == index
      invariant forall k :: 0 <= k < index ==> values[k] == BitAt(raw[k / 8], k % 8)
    {
      var byteIndex, bitIndex := index / 8, index % 8;
      if byteIndex >= |raw| {
        assert count > 8 * |raw|;
        return Err(BitMissing);
      }
      values := values + [BitAt(raw[byteIndex], bitIndex)];
    }
    assert values == Unpacked(raw, count);
    r := Ok(values);
  }

  /** The bits that a bit response carries. */
  function BitsOf(functionCode: Byte, count: nat, pdu: seq<Byte>): Result<seq<bool>, ClientError> {
    var response := ResponseData(functionCode, pdu);
    if response.Err? then Err(response.error)
    else if response.value == [] then Err(MissingCount)
    else if |response.value| != 1 + Number(response.value[0]) then Err(Incomplete)
    else if count > 8 * (|response.value| - 1) then Err(BitMissing)
    else Ok(Unpacked(response.value[1..], count))
  }

  /** Where the bits of a response are: bit k is bit k % 8, lowest first, of byte k / 8 after function code and count. */
  lemma BitPositions(functionCode: Byte, count: nat, pdu: seq<Byte>, k: nat)
    requires BitsOf(functionCode, count, pdu).Ok? && k < count
    ensures var bits := BitsOf(functionCode, count, pdu).value;
            |bits| == count && 2 + k / 8 < |pdu| && bits[k] == BitAt(pdu[2 + k / 8], k % 8)
  {
  }

  /** The response of a device to a bit read. */
  function BitReply(functionCode: Byte, bits: seq<bool>): (pdu: seq<Byte>)
    requires |bits| <= 2040
  {
    Counted(functionCode, PackedBits(bits))
  }

  /** Packed bits come back unpacked, for every count that a response can hold. */
  lemma BitsRoundTrip(functionCode: Byte, bits: seq<bool>)
    requires functionCode & 0x80 == 0 && |bits| <= 2040
    ensures BitsOf(functionCode, |bits|, BitReply(functionCode, bits)) == Ok(bits)
  {
    CountedData(functionCode, PackedBits(bits));
    UnpackedPacked(bits);
  }

  // ---- Scalars ----

  datatype Space = Coil | Discrete | Holding | Input

  function ReadFunction(space: Space): Byte {
    match space
    case Coil => 0x01
    case Discrete => 0x02
    case Holding => 0x03
    case Input => 0x04
  }

  /** The scalar that a response carries; a bool counts as 0 or 1. */
  function ReadScalar(space: Space, t: DataType, order: WordOrder, pdu: seq<Byte>): Result<int, ClientError> {
    if space == Coil || space == Discrete then
      var bits := BitsOf(ReadFunction(space), 1, pdu);
      if bits.Err? then Err(bits.error) else Ok(if bits.value[0] then 1 else 0)
    else
      var words := ReadRegisters(ReadFunction(space), RegisterCount(t), pdu);
      if words.Err? then Err(words.error)
      else
        var value := Decode(words.value, t, order);
        if value.Err? then Err(Codec(value.error)) else Ok(value.value)
  }

  /** From a device's registers over a serial line to the caller: the response of any unit that carries the encoded
      value is answered by the transport and read as the same value, whatever follows it on the line. */
  lemma ValueTravels(value: int, space: Space, t: DataType, order: WordOrder, unitId: Byte, rest: seq<Byte>,
                     stop: ByteLine.Stop)
    requires Fits(t, value) && (space == Holding || space == Input)
    ensures Encode(value, t, order).Ok? && |Encode(value, t, order).value| == RegisterCount(t)
    ensures var pdu := RegisterReply(ReadFunction(space), Encode(value, t, order).value);
            && SerialRtu.Interpret(ReadFunction(space), Crc.Sealed([unitId] + pdu) + rest, stop) == SerialRtu.Answer(pdu)
            && ReadScalar(space, t, order, pdu) == Ok(value)
  {
    DecodeAfterEncode(value, t, order);
    var words := Encode(value, t, order).value;
    var pdu := RegisterReply(ReadFunction(space), words);
    SerialRtu.ReplyIsAnswered(ReadFunction(space), unitId, pdu, rest, stop);
    ReplyIsRead(ReadFunction(space), words);
  }

  // ---- Writes ----

  datatype WriteRequest = WriteRequest(functionCode: Byte, payload: seq<Byte>)

  function WriteSingle(address: nat, value: int): Result<WriteRequest, ClientError> {
    if address >= 0x10000 then Err(TooLarge)
    else Ok(WriteRequest(0x06, WordBytes(address) + WordBytes(value % 0x10000)))
  }

  function WriteMultiple(address: nat, values: seq<int>): Result<WriteRequest, ClientError> {
    if address >= 0x10000 || |values| >= 128 then Err(TooLarge)
    else Ok(WriteRequest(0x10, MultiplePayload(address, LowWords(values))))
  }

  function MultiplePayload(address: nat, words: seq<Word>): seq<Byte>
    requires address < 0x10000 && |words| < 128
  {
    WordBytes(address) + WordBytes(|words|) + [ByteOf(2 * |words|)] + BytesOf(words)
  }

  function LowWords(values: seq<int>): (words: seq<Word>)
    ensures |words| == |values|
  {
    seq(|values|, i requires 0 <= i < |values| => values[i] % 0x10000)
  }

  function WriteWords(address: nat, words: seq<Word>): Result<WriteRequest, ClientError> {
    if |words| == 1 then WriteSingle(address, words[0]) else WriteMultiple(address, words)
  }

  /** The request of a numeric write: scaled, rounded, encoded, and put into one or several registers. */
  function WriteNumeric(value: real, t: DataType, scale: real, order: WordOrder, address: nat)
    : Result<WriteRequest, ClientError>
  {
    var words := Encode(RawOf(value, scale), t, order);
    if words.Err? then Err(Codec(words.error))
    else WriteWords(address, words.value)
  }

  const ILLEGAL_FUNCTION := 1
  const ILLEGAL_ADDRESS := 2
  const ILLEGAL_VALUE := 3

  /** What a device does with a write request: its new registers, or the code of the exception with which it refuses
      (sections 6.6, 6.12 and 7). */
  function Applied(registers: map<nat, Word>, request: WriteRequest): Result<map<nat, Word>, int> {
    if request.functionCode == 0x06 then AppliedSingle(registers, request.payload)
    else if request.functionCode == 0x10 then AppliedMultiple(registers, request.payload)
    else Err(ILLEGAL_FUNCTION)
  }

  function AppliedSingle(registers: map<nat, Word>, payload: seq<Byte>): Result<map<nat, Word>, int> {
    if |payload| != 4 then Err(ILLEGAL_VALUE) else Ok(Stored(registers, WordOf(payload[..2]), [WordOf(payload[2..])]))
  }

  /** A device takes between 1 and 123 registers at once, all of them below address 65536. */
  function AppliedMultiple(registers: map<nat, Word>, payload: seq<Byte>): Result<map<nat, Word>, int> {
    if |payload| < 5 || |payload| - 5 != Number(payload[4]) || |payload| - 5 != 2 * WordOf(payload[2..4])
    then Err(ILLEGAL_VALUE)
    else MultipleStored(registers, WordOf(payload[..2]), WordsOf(payload[5..]))
  }

  function MultipleStored(registers: map<nat, Word>, address: nat, words: seq<Word>): Result<map<nat, Word>, int> {
    if !(1 <= |words| <= 123) then Err(ILLEGAL_VALUE)
    else if address + |words| > 0x10000 then Err(ILLEGAL_ADDRESS)
    else Ok(Stored(registers, address, words))
  }

  function Stored(registers: map<nat, Word>, address: nat, words: seq<Word>): map<nat, Word>
    decreases |words|
  {
    if words == [] then registers else Stored(registers[address := words[0]], address + 1, words[1..])
  }

  /** The words in a run of registers that all exist. */
  function Run(registers: map<nat, Word>, address: nat, count: nat): (words: seq<Word>)
    requires forall i :: address <= i < address + count ==> i in registers
    ensures |words| == count
  {
    seq(count, i requires 0 <= i < count => registers[address + i])
  }

  /** Outside a run of registers nothing differs. */
  ghost predicate SameOutside(before: map<nat, Word>, after: map<nat, Word>, address: nat, count: nat) {
    forall i: nat :: !(address <= i < address + count) ==>
      (i in after <==> i in before) && (i in before ==> after[i] == before[i])
  }

  ghost predicate Holds(registers: map<nat, Word>, address: nat, words: seq<Word>) {
    forall i :: address <= i < address + |words| ==> i in registers && registers[i] == words[i - address]
  }

  lemma {:induction false} RunOfStored(registers: map<nat, Word>, address: nat, words: seq<Word>)
    ensures var after := Stored(registers, address, words);
            && Holds(after, address, words)
            && SameOutside(registers, after, address, |words|)
    decreases |words|
  {
    if words != [] {
      RunOfStored(registers[address := words[0]], address + 1, words[1..]);
    }
  }

  lemma WordRemainder(word: Word)
    ensures word % 0x10000 == word
  {
  }

  lemma SingleIsStored(registers: map<nat, Word>, address: nat, word: Word)
    requires address < 0x10000
    ensures AppliedSingle(registers, WordBytes(address) + WordBytes(word)) == Ok(Stored(registers, address, [word]))
  {
    var payload := WordBytes(address) + WordBytes(word);
    assert payload[..2] == WordBytes(address) && payload[2..] == WordBytes(word);
  }

  lemma MultipleIsStored(registers: map<nat, Word>, address: nat, words: seq<Word>)
    requires address < 0x10000 && |words| < 128
    ensures AppliedMultiple(registers, MultiplePayload(address, words)) == MultipleStored(registers, address, words)
  {
    var payload := MultiplePayload(address, words);
    assert payload[..2] == WordBytes(address) && payload[2..4] == WordBytes(|words|);
    assert payload[5..] == BytesOf(words);
    WordsOfBytesOf(words);
  }

  /** A write request makes a device store exactly the encoded words, at their addresses and nowhere else, unless they are
      too many for one request or reach past the last address: then it refuses. */
  lemma WriteIsStored(registers: map<nat, Word>, address: nat, words: seq<Word>)
    requires address < 0x10000 && 1 <= |words| < 128
    ensures var request := WriteWords(address, words);
            request.Ok? && Applied(registers, request.value) == MultipleStored(registers, address, words)
  {
    if |words| == 1 {
      WordRemainder(words[0]);
      SingleIsStored(registers, address, words[0]);
      assert [words[0]] == words;
    } else {
      forall i | 0 <= i < |words|
        ensures LowWords(words)[i] == words[i]
      {
        WordRemainder(words[i]);
      }
      assert LowWords(words) == words;
      MultipleIsStored(registers, address, words);
    }
  }

  /** A scaled read of a device's registers, by way of the response that carries them. */
  function ReadNumeric(registers: map<nat, Word>, t: DataType, scale: real, order: WordOrder, address: nat)
    : Result<real, ClientError>
  {
    if !(forall i :: address <= i < address + RegisterCount(t) ==> i in registers) then Err(Incomplete)
    else
      var raw := ReadScalar(Holding, t, order, RegisterReply(0x03, Run(registers, address, RegisterCount(t))));
      if raw.Err? then Err(raw.error) else Ok(ScaledRead(raw.value, scale))
  }

  /** What the caller gets when it writes a numeric value, the device stores it, and the caller reads the same
      registers back. */
  function WrittenAndRead(registers: map<nat, Word>, value: real, t: DataType, scale: real, order: WordOrder,
                          address: nat): Result<real, ClientError>
  {
    var request := WriteNumeric(value, t, scale, order, address);
    if request.Err? then Err(request.error)
    else
      var after := Applied(registers, request.value);
      if after.Err? then Err(DeviceException(after.error)) else ReadNumeric(after.value, t, scale, order, address)
  }

  lemma ReadOfHeld(registers: map<nat, Word>, t: DataType, scale: real, order: WordOrder, address: nat, words: seq<Word>)
    requires |words| == RegisterCount(t) && Holds(registers, address, words) && Decode(words, t, order).Ok?
    ensures ReadNumeric(registers, t, scale, order, address) == Ok(ScaledRead(Decode(words, t, order).value, scale))
  {
    assert Run(registers, address, |words|) == words;
    ReplyIsRead(0x03, words);
  }

  lemma NumericPath(registers: map<nat, Word>, value: real, t: DataType, scale: real, order: WordOrder, address: nat)
    requires Encode(RawOf(value, scale), t, order).Ok? && address < 0x10000
    ensures var r := WrittenAndRead(registers, value, t, scale, order, address);
            if address + RegisterCount(t) <= 0x10000 then r.Ok? && WriteThenRead(value, t, scale, order) == Ok(r.value)
            else r == Err(DeviceException(ILLEGAL_ADDRESS))
    ensures var request := WriteNumeric(value, t, scale, order, address);
            && request.Ok?
            && (Applied(registers, request.value).Ok? ==>
                  SameOutside(registers, Applied(registers, request.value).value, address, RegisterCount(t)))
  {
    var raw := RawOf(value, scale);
    DecodeAfterEncode(raw, t, order);
    var words := Encode(raw, t, order).value;
    WriteIsStored(registers, address, words);
    if address + |words| <= 0x10000 {
      RunOfStored(registers, address, words);
      ReadOfHeld(Stored(registers, address, words), t, scale, order, address, words);
    }
  }

  /** Through client, device and back: a numeric value returns within half a raw step exactly when its rounded raw value
      fits the integer type and its registers fit the address space, and no other register of the device changes. */
  lemma NumericRoundTrip(registers: map<nat, Word>, value: real, t: DataType, scale: real, order: WordOrder,
                         address: nat)
    requires t != BoolType
    ensures var r := WrittenAndRead(registers, value, t, scale, order, address);
            r.Ok? && WithinHalfStep(r.value, value, scale) <==>
            Fits(t, RawOf(value, scale)) && address + RegisterCount(t) <= 0x10000
    ensures var request := WriteNumeric(value, t, scale, order, address);
            request.Ok? && Applied(registers, request.value).Ok? ==>
              SameOutside(registers, Applied(registers, request.value).value, address, RegisterCount(t))
  {
    ScaledRoundTrip(value, t, scale, order);
    if Encode(RawOf(value, scale), t, order).Ok? && address < 0x10000 {
      NumericPath(registers, value, t, scale, order, address);
    }
  }

  // ---- The bytes of requests and responses ----

  /** Coils are read with function 1 and discrete inputs with function 2, and one bit comes back as 0 or 1, by way of a
      serial line too, whatever type and order the field has. */
  lemma BitTravels(bit: bool, t: DataType, order: WordOrder, unitId: Byte, rest: seq<Byte>, stop: ByteLine.Stop)
    ensures forall space, code: Byte :: (space, code) in {(Coil, 1), (Discrete, 2)} ==>
              var pdu := [code, 1, if bit then 1 else 0];
              && SerialRtu.Interpret(code, Crc.Sealed([unitId] + pdu) + rest, stop) == SerialRtu.Answer(pdu)
              && ReadScalar(space, t, order, pdu) == Ok(if bit then 1 else 0)
  {
    forall space, code: Byte | (space, code) in {(Coil, 1), (Discrete, 2)}
      ensures var pdu := [code, 1, if bit then 1 else 0];
              && SerialRtu.Interpret(code, Crc.Sealed([unitId] + pdu) + rest, stop) == SerialRtu.Answer(pdu)
              && ReadScalar(space, t, order, pdu) == Ok(if bit then 1 else 0)
    {
      var pdu: seq<Byte> := [code, 1, if bit then 1 else 0];
      OneBit(space, code, bit);
      SerialRtu.ReplyIsAnswered(code, unitId, pdu, rest, stop);
    }
  }

  lemma OneBit(space: Space, code: Byte, bit: bool)
    requires (space == Coil && code == 1) || (space == Discrete && code == 2)
    ensures BitsOf(ReadFunction(space), 1, [code, 1, if bit then 1 else 0]) == Ok([bit])
  {
    var pdu: seq<Byte> := [code, 1, if bit then 1 else 0];
    var data := [1, if bit then 1 else 0];
    assert pdu == [code] + data;
    ResponseMeaning(code, pdu, data);
    assert Unpacked(data[1..], 1) == [bit];
  }

  /** Holding registers are read with function 3 and input registers with function 4: the bytes of a response and the
      number that is read from it. */
  lemma ScalarBytes(space: Space, code: Byte, a: Byte, b: Byte, c: Byte, d: Byte)
    requires (space == Holding && code == 3) || (space == Input && code == 4)
    ensures var high, low := 256 * Number(a) + Number(b), 256 * Number(c) + Number(d);
            && ReadScalar(space, Uint16, BigFirst, [code, 2, a, b]) == Ok(high)
            && ReadScalar(space, Uint32, BigFirst, [code, 4, a, b, c, d]) == Ok(65536 * high + low)
            && ReadScalar(space, Uint32, LittleFirst, [code, 4, a, b, c, d]) == Ok(65536 * low + high)
  {
    OneWordBytes(space, code, a, b);
    TwoWordBytes(space, code, BigFirst, a, b, c, d);
    TwoWordBytes(space, code, LittleFirst, a, b, c, d);
  }

  lemma OneWordBytes(space: Space, code: Byte, a: Byte, b: Byte)
    requires (space == Holding && code == 3) || (space == Input && code == 4)
    ensures ReadScalar(space, Uint16, BigFirst, [code, 2, a, b]) == Ok(256 * Number(a) + Number(b))
  {
    OneRegister(code, a, b);
    WordsMeaning(WordOf([a, b]), 0, BigFirst);
    RegistersRead(space, code, Uint16, BigFirst, [code, 2, a, b], [WordOf([a, b])]);
  }

  lemma TwoWordBytes(space: Space, code: Byte, order: WordOrder, a: Byte, b: Byte, c: Byte, d: Byte)
    requires (space == Holding && code == 3) || (space == Input && code == 4)
    ensures var first, second := 256 * Number(a) + Number(b), 256 * Number(c) + Number(d);
            ReadScalar(space, Uint32, order, [code, 4, a, b, c, d]) ==
            Ok(if order == BigFirst then 65536 * first + second else 65536 * second + first)
  {
    TwoRegisters(code, a, b, c, d);
    TwoWordsRead(space, code, order, [code, 4, a, b, c, d], WordOf([a, b]), WordOf([c, d]));
  }

  lemma TwoWordsRead(space: Space, code: Byte, order: WordOrder, pdu: seq<Byte>, first: Word, second: Word)
    requires (space == Holding && code == 3) || (space == Input && code == 4)
    requires ReadRegisters(code, 2, pdu) == Ok([first, second])
    ensures ReadScalar(space, Uint32, order, pdu) ==
            Ok(if order == BigFirst then 65536 * first + second else 65536 * second + first)
  {
    WordsMeaning(first, second, order);
    RegistersRead(space, code, Uint32, order, pdu, [first, second]);
  }

  lemma RegistersRead(space: Space, code: Byte, t: DataType, order: WordOrder, pdu: seq<Byte>, words: seq<Word>)
    requires (space == Holding && code == 3) || (space == Input && code == 4)
    requires ReadRegisters(code, RegisterCount(t), pdu) == Ok(words)
    ensures Decode(words, t, order).Ok? ==> ReadScalar(space, t, order, pdu) == Ok(Decode(words, t, order).value)
  {
  }

  lemma OneRegister(code: Byte, a: Byte, b: Byte)
    requires code == 3 || code == 4
    ensures ReadRegisters(code, 1, [code, 2, a, b]) == Ok([WordOf([a, b])])
  {
    var words: seq<Word> := [WordOf([a, b])];
    WordBytesOf([a, b]);
    assert BytesOf(words) == [a, b];
    ReplyIsRead(code, words);
    ByteWithNumber(2, 2);
    assert RegisterReply(code, words) == [code, 2, a, b];
  }

  lemma TwoRegisters(code: Byte, a: Byte, b: Byte, c: Byte, d: Byte)
    requires code == 3 || code == 4
    ensures ReadRegisters(code, 2, [code, 4, a, b, c, d]) == Ok([WordOf([a, b]), WordOf([c, d])])
  {
    var words: seq<Word> := [WordOf([a, b]), WordOf([c, d])];
    WordBytesOf([a, b]);
    WordBytesOf([c, d]);
    assert words[1..] == [WordOf([c, d])] && words[1..][1..] == [];
    assert BytesOf(words[1..]) == [c, d];
    assert BytesOf(words) == [a, b] + [c, d];
    ReplyIsRead(code, words);
    ByteWithNumber(4, 4);
    assert RegisterReply(code, words) == [code, 4, a, b, c, d];
  }

  /** The bytes of a write request: one register goes out with function 6 as address and word, several with function 16 as
      address, count, number of bytes and words; each number with its more significant byte first. */
  lemma WriteBytes(address: nat, words: seq<Word>, k: nat)
    requires address < 0x10000 && 1 <= |words| < 128 && k < |words|
    ensures var request := WriteWords(address, words);
            request.Ok? &&
            var payload := request.value.payload;
            if |words| == 1 then
              && request.value.functionCode == 6 && |payload| == 4
              && Number(payload[0]) * 256 + Number(payload[1]) == address
              && Number(payload[2]) * 256 + Number(payload[3]) == words[0]
            else
              && request.value.functionCode == 16 && |payload| == 5 + 2 * |words|
              && Number(payload[0]) * 256 + Number(payload[1]) == address
              && Number(payload[2]) * 256 + Number(payload[3]) == |words|
              && Number(payload[4]) == 2 * |words|
              && Number(payload[5 + 2 * k]) * 256 + Number(payload[6 + 2 * k]) == words[k]
  {
    if |words| > 1 {
      MultipleBytes(address, LowWords(words), k);
      WordRemainder(words[k]);
    } else {
      WordRemainder(words[0]);
      assert WordOf(WordBytes(address)) == address && WordOf(WordBytes(words[0])) == words[0];
    }
  }

  /** A write is refused before anything is sent exactly when the address needs more than sixteen bits or the words more
      than 255 bytes. */
  lemma WriteRefusedIff(address: nat, words: seq<Word>)
    ensures WriteWords(address, words).Err? <==> address > 65535 || 2 * |words| > 255
    ensures WriteWords(address, words).Err? ==> WriteWords(address, words) == Err(TooLarge)
  {
  }

  lemma MultipleBytes(address: nat, words: seq<Word>, k: nat)
    requires address < 0x10000 && |words| < 128 && k < |words|
    ensures var payload := MultiplePayload(address, words);
            && |payload| == 5 + 2 * |words|
            && Number(payload[0]) * 256 + Number(payload[1]) == address
            && Number(payload[2]) * 256 + Number(payload[3]) == |words|
            && Number(payload[4]) == 2 * |words|
            && Number(payload[5 + 2 * k]) * 256 + Number(payload[6 + 2 * k]) == words[k]
  {
    BytesOfAt(words, k);
    assert WordOf(WordBytes(address)) == address && WordOf(WordBytes(|words|)) == |words|;
    assert MultiplePayload(address, words)[5..] == BytesOf(words);
  }

  lemma {:induction false} BytesOfAt(words: seq<Word>, k: nat)
    requires k < |words|
    ensures Number(BytesOf(words)[2 * k]) * 256 + Number(BytesOf(words)[2 * k + 1]) == words[k]
  {
    assert WordOf(WordBytes(words[0])) == words[0];
    if k > 0 {
      BytesOfAt(words[1..], k - 1);
    }
  }
}

/** The CRC-16 of Modbus RTU frames (MODBUS over Serial Line V1.02, sections 2.5.1.2 and 6.2.2): a shift register
    fed with the bits of a frame in the order in which they travel, and the loop over bytes that computes it. */
module Crc {
  import opened Bytes
  import opened ShiftRegister

  const INIT: bv16 := 0xFFFF

  // ---- The register, bit by bit ----

  function Xor(a: bv16, b: bv16): bv16 { a ^ b }

  function Half(v: bv16): bv16 { v >> 1 }

  predicate Odd(v: bv16) { v & 1 != 0 }

  /** One shift of the register. The bit that falls out is fed back at the taps 15, 13 and 0 of the polynomial. */
  function Shift(crc: bv16): bv16 {
    (crc >> 1) ^ ((crc & 1) << 15) ^ ((crc & 1) << 13) ^ (crc & 1)
  }

  function BitOf(bit: bool): bv16 { if bit then 1 else 0 }

  function BitStep(crc: bv16, bit: bool): bv16 {
    Shift(Xor(crc, BitOf(bit)))
  }

  /** The register after some bits, from any initial value. */
  function Register(crc: bv16, bits: seq<bool>): bv16 {
    Feed(BitStep, crc, bits)
  }

  function Wide(b: Byte): bv16 { b as bv16 }

  function WordBits(v: bv16, n: nat): seq<bool> {
    LowBits(Odd, Half, v, n)
  }

  /** The bits of a byte in the order in which a serial line sends them: lowest first. */
  function Bits(b: Byte): seq<bool> {
    WordBits(Wide(b), 8)
  }

  function FrameBits(frame: seq<Byte>): seq<bool> {
    Joined(Bits, frame)
  }

  /** The CRC of a frame. */
  function Crc16(frame: seq<Byte>): bv16 {
    Register(INIT, FrameBits(frame))
  }

  // ---- The implementation ----

  /** The two branches of the bit loop are the two cases of the feedback. */
  method ShiftBit(crc: bv16) returns (next: bv16)
    ensures next == Shift(crc)
  {
    if crc & 0x0001 != 0 {
      next := (crc >> 1) ^ 0xA001;
    } else {
      next := crc >> 1;
    }
  }

  /** The inner loop: eight shifts after the byte has been added to the register. */
  method EightShifts(start: bv16) returns (crc: bv16)
    ensures crc == Iterate(Shift, start, 8)
  {
    crc := start;
    for j := 0 to 8
      invariant Iterate(Shift, crc, 8 - j) == Iterate(Shift, start, 8)
    {
      crc := ShiftBit(crc);
    }
  }

  /** The loop over the bytes of a frame computes the bit-serial CRC. */
  method ModbusCrc(frame: seq<Byte>) returns (crc: bv16)
    ensures crc == Crc16(frame)
  {
    crc := INIT;
    for k := 0 to |frame|
      invariant crc == Crc16(frame[..k])
    {
      assert frame[..k + 1][..k] == frame[..k];
      ByteFeedsBits(crc, frame[k]);
      FeedAppend(BitStep, INIT, FrameBits(frame[..k]), Bits(frame[k]));
      crc := EightShifts(Xor(crc, Wide(frame[k])));
    }
    assert frame[..|frame|] == frame;
  }

  lemma FeedOneBit(r: bv16, v: bv16)
    ensures Shift(Xor(r, v)) == Xor(BitStep(r, Odd(v)), Half(v))
  {
    if Odd(v) {
      FeedOne(r, v);
    } else {
      FeedZero(r, v);
    }
  }

  lemma FeedOne(r: bv16, v: bv16)
    requires v & 1 != 0
    ensures Shift(r ^ v) == Shift(r ^ 1) ^ (v >> 1)
  {
  }

  lemma FeedZero(r: bv16, v: bv16)
    requires v & 1 == 0
    ensures Shift(r ^ v) == Shift(r ^ 0) ^ (v >> 1)
  {
  }

  lemma WordFeedsBits(crc: bv16, v: bv16, n: nat)
    ensures Iterate(Shift, Xor(crc, v), n) == Xor(Register(crc, WordBits(v, n)), Iterate(Half, v, n))
  {
    forall a, b
      ensures Shift(Xor(a, b)) == Xor(BitStep(a, Odd(b)), Half(b))
    {
      FeedOneBit(a, b);
    }
    FeedWord(Xor, Shift, BitStep, Odd, Half, crc, v, n);
  }

  lemma NothingAboveByte(b: Byte)
    ensures Iterate(Half, Wide(b), 8) == 0
  {
    var w := Wide(b);
    assert Iterate(Half, w, 8) == Iterate(Half, w >> 1, 7);
  }

  /** Adding a byte and shifting eight times is feeding its eight bits. */
  lemma ByteFeedsBits(crc: bv16, b: Byte)
    ensures Iterate(Shift, Xor(crc, Wide(b)), 8) == Register(crc, Bits(b))
  {
    NothingAboveByte(b);
    WordFeedsBits(crc, Wide(b), 8);
  }

  function Low(crc: bv16): Byte { (crc & 0xFF) as bv8 }

  function High(crc: bv16): Byte { (crc >> 8) as bv8 }

  /** A frame with its CRC appended, low byte first. */
  function Sealed(frame: seq<Byte>): seq<Byte> {
    frame + [Low(Crc16(frame)), High(Crc16(frame))]
  }

  method CrcFrame(frame: seq<Byte>) returns (whole: seq<Byte>)
    ensures whole == Sealed(frame)
  {
    var crc := ModbusCrc(frame);
    whole := frame + [Low(crc), High(crc)];
  }

  function Received(low: Byte, high: Byte): bv16 { Wide(low) | (Wide(high) << 8) }

  /** The receiver's check: the last two bytes are the CRC of the bytes before them. */
  predicate Accepted(frame: seq<Byte>) {
    |frame| >= 2 && Received(frame[|frame| - 2], frame[|frame| - 1]) == Crc16(frame[..|frame| - 2])
  }
}

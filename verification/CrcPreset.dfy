/** The preset of the register (MODBUS over Serial Line V1.02, section 6.2.2): what starting from all ones means. */
module CrcPreset {
  import opened Bytes
  import opened ShiftRegister
  import opened Crc
  import opened CrcDetection
  import opened CrcDistance

  // ---- All ones in the register are ones in the frame ----

  /** The frame with its first sixteen bits complemented. */
  function Complemented(frame: seq<Byte>): seq<Byte>
    requires |frame| >= 2
  {
    [ByteXor(frame[0], 0xFF), ByteXor(frame[1], 0xFF)] + frame[2..]
  }

  /** Two bytes fed to a register are sixteen shifts of their word added to it. */
  lemma TwoBytesFed(crc: bv16, low: Byte, high: Byte)
    ensures Register(crc, FrameBits([low, high])) == Iterate(Shift, Xor(crc, Received(low, high)), 16)
  {
    var v := Received(low, high);
    JoinedLastTwo(Bits, [low, high]);
    assert [low, high][..0] == [];
    assert FrameBits([low, high]) == Bits(low) + Bits(high);
    CheckBytesAreWord(low, high);
    WordFeedsBits(crc, v, 16);
    XorZero(Register(crc, WordBits(v, 16)), 0);
  }

  /** Sixteen ones cancel the preset. */
  lemma OnesCancelPreset()
    ensures Register(INIT, FrameBits([0xFF, 0xFF])) == 0
  {
    TwoBytesFed(INIT, 0xFF, 0xFF);
    assert Received(0xFF, 0xFF) == 0xFFFF;
    XorZero(0xFFFF, 0xFFFF);
    ZeroStays(16);
  }

  lemma RegistersAdd(x: bv16, y: bv16, a: seq<bool>, b: seq<bool>)
    requires |a| == |b|
    ensures Register(Xor(x, y), Added(a, b)) == Xor(Register(x, a), Register(y, b))
  {
    forall x, y, p, q
      ensures BitStep(Xor(x, y), p != q) == Xor(BitStep(x, p), BitStep(y, q))
    {
      StepLinear(x, y, p, q);
    }
    FeedLinear(Xor, BitStep, x, y, a, b);
  }

  lemma PresetOfTwo(low: Byte, high: Byte)
    ensures Crc16([low, high]) == Register(0, FrameBits([ByteXor(low, 0xFF), ByteXor(high, 0xFF)]))
  {
    OnesCancelPreset();
    BitsOfDistorted([low, high], [0xFF, 0xFF]);
    assert Distorted([low, high], [0xFF, 0xFF]) == [ByteXor(low, 0xFF), ByteXor(high, 0xFF)];
    CancelledPreset(FrameBits([low, high]), FrameBits([0xFF, 0xFF]));
  }

  lemma CancelledPreset(bits: seq<bool>, ones: seq<bool>)
    requires |bits| == |ones| && Register(INIT, ones) == 0
    ensures Register(INIT, bits) == Register(0, Added(bits, ones))
  {
    RegistersAdd(INIT, INIT, bits, ones);
    XorZero(INIT, INIT);
    XorZero(Register(INIT, bits), 0);
  }

  /** For every frame of at least two bytes the CRC is what a register preset to zero holds after the frame with its
      first sixteen bits complemented. */
  lemma {:induction false} PresetComplementsHead(frame: seq<Byte>)
    requires |frame| >= 2
    ensures Crc16(frame) == Register(0, FrameBits(Complemented(frame)))
    decreases |frame|
  {
    if |frame| == 2 {
      assert frame == [frame[0], frame[1]];
      PresetOfTwo(frame[0], frame[1]);
      assert Complemented(frame) == [ByteXor(frame[0], 0xFF), ByteXor(frame[1], 0xFF)];
    } else {
      var earlier, last := frame[..|frame| - 1], frame[|frame| - 1];
      PresetComplementsHead(earlier);
      assert frame == earlier + [last];
      assert Complemented(frame) == Complemented(earlier) + [last];
      FeedByte(INIT, earlier, last);
      FeedByte(0, Complemented(earlier), last);
    }
  }

  // ---- Leading zeros count ----

  lemma StepInjective(x: bv16, y: bv16, bit: bool)
    requires BitStep(x, bit) == BitStep(y, bit)
    ensures x == y
  {
    UnshiftShift(Xor(x, BitOf(bit)));
    UnshiftShift(Xor(y, BitOf(bit)));
    XorCancels(x, y, BitOf(bit));
  }

  lemma XorCancels(x: bv16, y: bv16, z: bv16)
    requires Xor(x, z) == Xor(y, z)
    ensures x == y
  {
    XorCancelsBits(x, y, z);
  }

  lemma XorCancelsBits(x: bv16, y: bv16, z: bv16)
    ensures x ^ z == y ^ z ==> x == y
  {
  }

  lemma {:induction false} FramesKeepApart(x: bv16, y: bv16, bits: seq<bool>)
    requires x != y
    ensures Register(x, bits) != Register(y, bits)
    decreases |bits|
  {
    if bits != [] {
      if BitStep(x, bits[0]) == BitStep(y, bits[0]) {
        StepInjective(x, y, bits[0]);
      }
      FramesKeepApart(BitStep(x, bits[0]), BitStep(y, bits[0]), bits[1..]);
    }
  }

  lemma {:induction false} FirstByteFed(crc: bv16, b: Byte, frame: seq<Byte>)
    ensures Register(crc, FrameBits([b] + frame)) == Register(Register(crc, Bits(b)), FrameBits(frame))
    decreases |frame|
  {
    if frame == [] {
      assert [b] + frame == [] + [b];
      FeedByte(crc, [], b);
      ByteFeedsBits(crc, b);
    } else {
      var earlier, last := frame[..|frame| - 1], frame[|frame| - 1];
      FirstByteFed(crc, b, earlier);
      assert frame == earlier + [last];
      assert [b] + frame == [b] + earlier + [last];
      FeedByte(crc, [b] + earlier, last);
      FeedByte(Register(crc, Bits(b)), earlier, last);
    }
  }

  lemma ZeroByteFed()
    ensures Iterate(Shift, 0xFFFF, 8) == 0x40BF
  {
    assert Shift(0xFFFF) == 0xDFFE && Shift(0xDFFE) == 0x6FFF && Shift(0x6FFF) == 0x97FE && Shift(0x97FE) == 0x4BFF;
    assert Shift(0x4BFF) == 0x85FE && Shift(0x85FE) == 0x42FF && Shift(0x42FF) == 0x817E && Shift(0x817E) == 0x40BF;
    assert Iterate(Shift, 0xFFFF, 8) == Iterate(Shift, 0x6FFF, 6) == Iterate(Shift, 0x4BFF, 4);
    assert Iterate(Shift, 0x4BFF, 4) == Iterate(Shift, 0x42FF, 2);
  }

  /** A leading zero byte always changes the CRC, which it would not in a register preset to zero. */
  lemma LeadingZeroCounts(frame: seq<Byte>)
    ensures Crc16([0] + frame) != Crc16(frame)
    ensures Register(0, FrameBits([0] + frame)) == Register(0, FrameBits(frame))
  {
    FirstByteFed(INIT, 0, frame);
    FirstByteFed(0, 0, frame);
    ByteFeedsBits(INIT, 0);
    ByteFeedsBits(0, 0);
    assert Wide(0) == 0;
    XorZero(INIT, 0);
    XorZero(0, 0);
    ZeroByteFed();
    ZeroStays(8);
    FramesKeepApart(Register(INIT, Bits(0)), INIT, FrameBits(frame));
  }

  // ---- A frame on the line ----

  lemma FirstByte()
    ensures Xor(0xFFFF, Wide(0x01)) == 0xFFFE && Iterate(Shift, 0xFFFE, 8) == 0x807E
  {
    assert Shift(0xFFFE) == 0x7FFF && Shift(0x7FFF) == 0x9FFE && Shift(0x9FFE) == 0x4FFF && Shift(0x4FFF) == 0x87FE;
    assert Shift(0x87FE) == 0x43FF && Shift(0x43FF) == 0x81FE && Shift(0x81FE) == 0x40FF && Shift(0x40FF) == 0x807E;
    assert Iterate(Shift, 0xFFFE, 8) == Iterate(Shift, 0x9FFE, 6) == Iterate(Shift, 0x87FE, 4);
    assert Iterate(Shift, 0x87FE, 4) == Iterate(Shift, 0x81FE, 2);
  }

  lemma SecondByte()
    ensures Xor(0x807E, Wide(0x03)) == 0x807D && Iterate(Shift, 0x807D, 8) == 0x2140
  {
    assert Shift(0x807D) == 0xE03F && Shift(0xE03F) == 0xD01E && Shift(0xD01E) == 0x680F && Shift(0x680F) == 0x9406;
    assert Shift(0x9406) == 0x4A03 && Shift(0x4A03) == 0x8500 && Shift(0x8500) == 0x4280 && Shift(0x4280) == 0x2140;
    assert Iterate(Shift, 0x807D, 8) == Iterate(Shift, 0xD01E, 6) == Iterate(Shift, 0x9406, 4);
    assert Iterate(Shift, 0x9406, 4) == Iterate(Shift, 0x8500, 2);
  }

  lemma ThirdByte()
    ensures Xor(0x2140, Wide(0x00)) == 0x2140 && Iterate(Shift, 0x2140, 8) == 0xF020
  {
    assert Shift(0x2140) == 0x10A0 && Shift(0x10A0) == 0x0850 && Shift(0x0850) == 0x0428 && Shift(0x0428) == 0x0214;
    assert Shift(0x0214) == 0x010A && Shift(0x010A) == 0x0085 && Shift(0x0085) == 0xA043 && Shift(0xA043) == 0xF020;
    assert Iterate(Shift, 0x2140, 8) == Iterate(Shift, 0x0850, 6) == Iterate(Shift, 0x0214, 4);
    assert Iterate(Shift, 0x0214, 4) == Iterate(Shift, 0x0085, 2);
  }

  lemma FourthByte()
    ensures Xor(0xF020, Wide(0x00)) == 0xF020 && Iterate(Shift, 0xF020, 8) == 0xD8F1
  {
    assert Shift(0xF020) == 0x7810 && Shift(0x7810) == 0x3C08 && Shift(0x3C08) == 0x1E04 && Shift(0x1E04) == 0x0F02;
    assert Shift(0x0F02) == 0x0781 && Shift(0x0781) == 0xA3C1 && Shift(0xA3C1) == 0xF1E1 && Shift(0xF1E1) == 0xD8F1;
    assert Iterate(Shift, 0xF020, 8) == Iterate(Shift, 0x3C08, 6) == Iterate(Shift, 0x0F02, 4);
    assert Iterate(Shift, 0x0F02, 4) == Iterate(Shift, 0xA3C1, 2);
  }

  lemma FifthByte()
    ensures Xor(0xD8F1, Wide(0x00)) == 0xD8F1 && Iterate(Shift, 0xD8F1, 8) == 0x8419
  {
    assert Shift(0xD8F1) == 0xCC79 && Shift(0xCC79) == 0xC63D && Shift(0xC63D) == 0xC31F && Shift(0xC31F) == 0xC18E;
    assert Shift(0xC18E) == 0x60C7 && Shift(0x60C7) == 0x9062 && Shift(0x9062) == 0x4831 && Shift(0x4831) == 0x8419;
    assert Iterate(Shift, 0xD8F1, 8) == Iterate(Shift, 0xC63D, 6) == Iterate(Shift, 0xC18E, 4);
    assert Iterate(Shift, 0xC18E, 4) == Iterate(Shift, 0x9062, 2);
  }

  lemma SixthByte()
    ensures Xor(0x8419, Wide(0x01)) == 0x8418 && Iterate(Shift, 0x8418, 8) == 0x0A84
  {
    assert Shift(0x8418) == 0x420C && Shift(0x420C) == 0x2106 && Shift(0x2106) == 0x1083 && Shift(0x1083) == 0xA840;
    assert Shift(0xA840) == 0x5420 && Shift(0x5420) == 0x2A10 && Shift(0x2A10) == 0x1508 && Shift(0x1508) == 0x0A84;
    assert Iterate(Shift, 0x8418, 8) == Iterate(Shift, 0x2106, 6) == Iterate(Shift, 0xA840, 4);
    assert Iterate(Shift, 0xA840, 4) == Iterate(Shift, 0x2A10, 2);
  }

  lemma NextByte(frame: seq<Byte>, b: Byte, crc: bv16, added: bv16, next: bv16)
    requires Crc16(frame) == crc && Xor(crc, Wide(b)) == added && Iterate(Shift, added, 8) == next
    ensures Crc16(frame + [b]) == next
  {
    FeedByte(INIT, frame, b);
  }

  lemma RequestCrc()
    ensures Crc16(REQUEST) == 0x0A84
  {
    FirstByte();
    NextByte(REQUEST[..0], 0x01, 0xFFFF, 0xFFFE, 0x807E);
    assert REQUEST[..0] + [0x01] == REQUEST[..1];
    SecondByte();
    NextByte(REQUEST[..1], 0x03, 0x807E, 0x807D, 0x2140);
    assert REQUEST[..1] + [0x03] == REQUEST[..2];
    ThirdByte();
    NextByte(REQUEST[..2], 0x00, 0x2140, 0x2140, 0xF020);
    assert REQUEST[..2] + [0x00] == REQUEST[..3];
    FourthByte();
    NextByte(REQUEST[..3], 0x00, 0xF020, 0xF020, 0xD8F1);
    assert REQUEST[..3] + [0x00] == REQUEST[..4];
    FifthByte();
    NextByte(REQUEST[..4], 0x00, 0xD8F1, 0xD8F1, 0x8419);
    assert REQUEST[..4] + [0x00] == REQUEST[..5];
    SixthByte();
    NextByte(REQUEST[..5], 0x01, 0x8419, 0x8418, 0x0A84);
    assert REQUEST[..5] + [0x01] == REQUEST[..6];
    assert REQUEST[..6] == REQUEST;
  }

  /** The request to read one holding register at address zero of unit 1. */
  const REQUEST: seq<Byte> := [0x01, 0x03, 0x00, 0x00, 0x00, 0x01]

  /** It goes out with the check bytes 84 0A. */
  lemma SealedRequest()
    ensures Sealed(REQUEST) == [0x01, 0x03, 0x00, 0x00, 0x00, 0x01, 0x84, 0x0A]
  {
    RequestCrc();
    assert Low(0x0A84) == 0x84 && High(0x0A84) == 0x0A;
  }
}

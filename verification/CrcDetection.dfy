/** Which transmission errors the Modbus CRC detects, for frames of every length. */
module CrcDetection {
  import opened Bytes
  import opened ShiftRegister
  import opened Crc

  // ---- Acceptance is a zero register ----

  lemma ShiftFixesZero(x: bv16)
    ensures Shift(x) == 0 <==> x == 0
  {
  }

  lemma ShiftsFixZero(x: bv16, n: nat)
    ensures Iterate(Shift, x, n) == 0 <==> x == 0
  {
    forall y
      ensures Shift(y) == 0 <==> y == 0
    {
      ShiftFixesZero(y);
    }
    IterateFixes(Shift, 0, x, n);
  }

  lemma XorZeroBits(x: bv16, y: bv16)
    ensures x ^ y == 0 <==> x == y
    ensures x ^ 0 == x && 0 ^ y == y
  {
  }

  lemma XorZero(x: bv16, y: bv16)
    ensures Xor(x, y) == 0 <==> x == y
    ensures Xor(x, 0) == x && Xor(0, y) == y
  {
    XorZeroBits(x, y);
  }

  /** Feeding a register the n bits of an n-bit word ends in zero exactly when the register held that word. */
  lemma OwnBitsClear(crc: bv16, v: bv16, n: nat)
    requires Iterate(Half, v, n) == 0
    ensures Register(crc, WordBits(v, n)) == 0 <==> crc == v
  {
    WordFeedsBits(crc, v, n);
    ShiftsFixZero(Xor(crc, v), n);
    XorZero(crc, v);
    XorZero(Register(crc, WordBits(v, n)), 0);
  }

  lemma HalvedEight(v: bv16)
    ensures Iterate(Half, v, 8) == v >> 8
  {
    HalvedFour(v);
    HalvedFour(v >> 4);
    IterateSplit(v);
  }

  lemma IterateSplit(v: bv16)
    ensures Iterate(Half, v, 8) == Iterate(Half, Iterate(Half, v, 4), 4)
  {
    assert Iterate(Half, v, 8) == Iterate(Half, Half(v), 7);
    assert Iterate(Half, Half(v), 7) == Iterate(Half, Half(Half(v)), 6);
    assert Iterate(Half, Half(Half(v)), 6) == Iterate(Half, Half(Half(Half(v))), 5);
  }

  lemma HalvedFour(v: bv16)
    ensures Iterate(Half, v, 4) == v >> 4
  {
    assert Iterate(Half, v, 4) == Half(Half(Half(Half(v))));
  }

  /** Two words with the same low byte have the same eight lowest bits. */
  lemma {:induction false} SameLowBits(v: bv16, w: bv16, n: nat, mask: bv16)
    requires v & mask == w & mask
    requires MaskCovers(mask, n)
    ensures WordBits(v, n) == WordBits(w, n)
    decreases n
  {
    if n > 0 {
      MaskStep(v, w, mask);
      SameLowBits(v >> 1, w >> 1, n - 1, mask >> 1);
    }
  }

  predicate MaskCovers(mask: bv16, n: nat)
    decreases n
  {
    n == 0 || (mask & 1 == 1 && MaskCovers(mask >> 1, n - 1))
  }

  lemma MaskStep(v: bv16, w: bv16, mask: bv16)
    requires v & mask == w & mask && mask & 1 == 1
    ensures Odd(v) == Odd(w)
    ensures (v >> 1) & (mask >> 1) == (w >> 1) & (mask >> 1)
  {
  }

  lemma ReceivedParts(low: Byte, high: Byte)
    ensures Received(low, high) >> 8 == Wide(high)
    ensures Received(low, high) & 0xFF == Wide(low) & 0xFF
    ensures (Received(low, high) >> 8) >> 8 == 0
  {
  }

  /** The two check bytes, sent low byte first, are the sixteen bits of the received word. */
  lemma CheckBytesAreWord(low: Byte, high: Byte)
    ensures WordBits(Received(low, high), 16) == Bits(low) + Bits(high)
    ensures Iterate(Half, Received(low, high), 16) == 0
  {
    var v := Received(low, high);
    ReceivedParts(low, high);
    HalvedEight(v);
    LowBitsSplit(Odd, Half, v, 8, 8);
    assert MaskCovers(0xFF, 8);
    SameLowBits(v, Wide(low), 8, 0xFF);
    HalvedEight(v >> 8);
    IterateMore(v);
  }

  lemma IterateMore(v: bv16)
    ensures Iterate(Half, v, 16) == Iterate(Half, Iterate(Half, v, 8), 8)
  {
    IterateAppend(v, 8, 8);
  }

  lemma {:induction false} IterateAppend(v: bv16, m: nat, n: nat)
    ensures Iterate(Half, v, m + n) == Iterate(Half, Iterate(Half, v, m), n)
    decreases m
  {
    if m > 0 {
      IterateAppend(Half(v), m - 1, n);
    }
  }

  lemma CheckBytesClear(body: seq<bool>, low: Byte, high: Byte)
    ensures Register(INIT, body + (Bits(low) + Bits(high))) == 0 <==> Received(low, high) == Register(INIT, body)
  {
    CheckBytesAreWord(low, high);
    FeedAppend(BitStep, INIT, body, Bits(low) + Bits(high));
    OwnBitsClear(Register(INIT, body), Received(low, high), 16);
  }

  /** A frame of at least two bytes is accepted exactly when the register after all of it, check bytes included, is
      zero. */
  lemma AcceptedIffZeroRegister(frame: seq<Byte>)
    requires |frame| >= 2
    ensures Accepted(frame) <==> Crc16(frame) == 0
  {
    var n := |frame| - 2;
    JoinedLastTwo(Bits, frame);
    CheckBytesClear(FrameBits(frame[..n]), frame[n], frame[n + 1]);
  }

  lemma ReceivedOfParts(crc: bv16)
    ensures Received(Low(crc), High(crc)) == crc
  {
  }

  /** What a sender seals, a receiver accepts. */
  lemma SealedIsAccepted(frame: seq<Byte>)
    ensures Accepted(Sealed(frame))
  {
    assert Sealed(frame)[..|frame|] == frame;
    ReceivedOfParts(Crc16(frame));
  }

  // ---- Errors act on the register alone ----

  function ByteXor(a: Byte, b: Byte): Byte { a ^ b }

  /** A frame whose bits are flipped where the error pattern has ones. */
  function Distorted(frame: seq<Byte>, error: seq<Byte>): seq<Byte>
    requires |frame| == |error|
  {
    Combined(ByteXor, frame, error)
  }

  lemma WideXor(a: Byte, b: Byte)
    ensures Wide(ByteXor(a, b)) == Xor(Wide(a), Wide(b))
  {
  }

  lemma WordXor(a: bv16, b: bv16)
    ensures Odd(Xor(a, b)) == (Odd(a) != Odd(b)) && Half(Xor(a, b)) == Xor(Half(a), Half(b))
  {
  }

  lemma WordBitsOfXor(v: bv16, w: bv16, n: nat)
    ensures WordBits(Xor(v, w), n) == Added(WordBits(v, n), WordBits(w, n))
  {
    forall a, b
      ensures Odd(Xor(a, b)) == (Odd(a) != Odd(b)) && Half(Xor(a, b)) == Xor(Half(a), Half(b))
    {
      WordXor(a, b);
    }
    LowBitsLinear(Xor, Odd, Half, v, w, n);
  }

  lemma BitsOfXor(a: Byte, b: Byte)
    ensures Bits(ByteXor(a, b)) == Added(Bits(a), Bits(b))
  {
    WideXor(a, b);
    WordBitsOfXor(Wide(a), Wide(b), 8);
  }

  lemma BitsOfDistorted(frame: seq<Byte>, error: seq<Byte>)
    requires |frame| == |error|
    ensures |FrameBits(frame)| == |FrameBits(error)|
    ensures FrameBits(Distorted(frame, error)) == Added(FrameBits(frame), FrameBits(error))
  {
    forall a, b
      ensures |Bits(a)| == |Bits(b)| && Bits(ByteXor(a, b)) == Added(Bits(a), Bits(b))
    {
      BitsOfXor(a, b);
    }
    JoinedLinear(Bits, ByteXor, frame, error);
  }

  lemma ShiftLinearBits(x: bv16, y: bv16)
    ensures Shift(x ^ y) == Shift(x) ^ Shift(y)
  {
  }

  lemma ShiftLinear(x: bv16, y: bv16)
    ensures Shift(Xor(x, y)) == Xor(Shift(x), Shift(y))
  {
    ShiftLinearBits(x, y);
  }

  lemma FlipBits(p: bool, q: bool)
    ensures BitOf(p != q) == Xor(BitOf(p), BitOf(q))
  {
  }

  lemma XorGroup(x: bv16, y: bv16, z: bv16)
    ensures Xor(Xor(x, y), z) == Xor(x, Xor(y, z)) && Xor(x, y) == Xor(y, x)
  {
    XorGroupBits(x, y, z);
  }

  lemma XorGroupBits(x: bv16, y: bv16, z: bv16)
    ensures (x ^ y) ^ z == x ^ (y ^ z) && x ^ y == y ^ x
  {
  }

  lemma XorSwap(x: bv16, y: bv16, p: bv16, q: bv16)
    ensures Xor(Xor(x, y), Xor(p, q)) == Xor(Xor(x, p), Xor(y, q))
  {
    XorGroup(x, y, Xor(p, q));
    XorGroup(y, p, q);
    XorGroup(p, y, q);
    XorGroup(x, p, Xor(y, q));
  }

  lemma StepOfSum(x: bv16, y: bv16, p: bv16, q: bv16)
    ensures Shift(Xor(Xor(x, y), Xor(p, q))) == Xor(Shift(Xor(x, p)), Shift(Xor(y, q)))
  {
    XorSwap(x, y, p, q);
    ShiftLinear(Xor(x, p), Xor(y, q));
  }

  lemma StepLinear(x: bv16, y: bv16, p: bool, q: bool)
    ensures BitStep(Xor(x, y), p != q) == Xor(BitStep(x, p), BitStep(y, q))
  {
    FlipBits(p, q);
    StepOfSum(x, y, BitOf(p), BitOf(q));
  }

  /** An accepted frame hit by an error is still accepted exactly when the error alone leaves a zero register clear:
      detection does not depend on the frame. */
  lemma UndetectedIff(frame: seq<Byte>, error: seq<Byte>)
    requires Accepted(frame) && |error| == |frame|
    ensures Accepted(Distorted(frame, error)) <==> Register(0, FrameBits(error)) == 0
  {
    AcceptedIffZeroRegister(frame);
    AcceptedIffZeroRegister(Distorted(frame, error));
    BitsOfDistorted(frame, error);
    forall x, y, p, q
      ensures BitStep(Xor(x, y), p != q) == Xor(BitStep(x, p), BitStep(y, q))
    {
      StepLinear(x, y, p, q);
    }
    FeedLinear(Xor, BitStep, INIT, 0, FrameBits(frame), FrameBits(error));
    XorZero(INIT, 0);
    XorZero(0, Register(0, FrameBits(error)));
  }

  // ---- Parity: every accepted frame has an even number of ones ----

  /** The register holds an odd number of ones. */
  predicate Parity(x: bv16) { OddOnes(WordBits(x, 16)) }

  lemma ParityOfXor(x: bv16, y: bv16)
    ensures Parity(Xor(x, y)) == (Parity(x) != Parity(y))
  {
    WordBitsOfXor(x, y, 16);
    AddedParity(WordBits(x, 16), WordBits(y, 16));
  }

  lemma ParityOfHalf(x: bv16)
    ensures Parity(Half(x)) == (Parity(x) != Odd(x))
  {
    NothingAboveWord(x);
    HalfBits(x, 15);
  }

  lemma NothingAboveWord(x: bv16)
    ensures Iterate(Half, Half(x), 15) == 0
  {
    var v := Half(x);
    HalvedEight(v);
    IterateAppend(v, 8, 7);
    HalvedSeven(v >> 8);
    AllShiftedOut(x);
  }

  lemma HalvedSeven(v: bv16)
    ensures Iterate(Half, v, 7) == v >> 7
  {
    HalvedFour(v);
    IterateAppend(v, 4, 3);
    assert Iterate(Half, v >> 4, 3) == Half(Half(Half(v >> 4)));
  }

  lemma AllShiftedOut(x: bv16)
    ensures ((x >> 1) >> 8) >> 7 == 0
  {
  }

  lemma HalfBits(x: bv16, n: nat)
    requires Iterate(Half, Half(x), n) == 0
    ensures OddOnes(WordBits(Half(x), n + 1)) == (OddOnes(WordBits(x, n + 1)) != Odd(x))
  {
    var rest := WordBits(Half(x), n);
    LowBitsSplit(Odd, Half, Half(x), n, 1);
    assert WordBits(Half(x), n + 1) == rest + [false];
    OnesAppendFalse(rest);
    assert WordBits(x, n + 1)[1..] == rest;
  }

  lemma {:induction false} OnesAppendFalse(bits: seq<bool>)
    ensures Ones(bits + [false]) == Ones(bits)
  {
    if bits != [] {
      assert (bits + [false])[1..] == bits[1..] + [false];
      OnesAppendFalse(bits[1..]);
    }
  }

  lemma ShiftCases(x: bv16)
    ensures Shift(x) == if Odd(x) then Xor(Half(x), 0xA001) else Half(x)
  {
    ShiftCasesBits(x);
  }

  lemma ShiftCasesBits(x: bv16)
    ensures (x >> 1) ^ ((x & 1) << 15) ^ ((x & 1) << 13) ^ (x & 1) == if x & 1 != 0 then (x >> 1) ^ 0xA001 else x >> 1
  {
    if x & 1 != 0 {
      assert x & 1 == 1;
    } else {
      assert x & 1 == 0;
    }
  }

  lemma ParityOfGray(x: bv16)
    ensures Parity(Xor(x, Half(x))) == Odd(x)
  {
    ParityOfHalf(x);
    ParityOfXor(x, Half(x));
  }

  lemma ParityOfConstants()
    ensures Parity(0xA001) && Parity(1) && !Parity(0) && !Parity(INIT)
  {
    ParityOfGray(0xC001);
    ParityOfGray(1);
    ParityOfGray(0);
    ParityOfGray(0xAAAA);
  }

  lemma ParityOfShift(x: bv16)
    ensures Parity(Shift(x)) == Parity(x)
  {
    ShiftCases(x);
    ParityOfHalf(x);
    ParityOfXor(Half(x), 0xA001);
    ParityOfConstants();
  }

  lemma ParityOfStep(x: bv16, bit: bool)
    ensures Parity(BitStep(x, bit)) == (Parity(x) != bit)
  {
    ParityOfShift(Xor(x, BitOf(bit)));
    ParityOfXor(x, BitOf(bit));
    ParityOfConstants();
  }

  lemma AcceptedHasEvenOnes(frame: seq<Byte>)
    requires Accepted(frame)
    ensures Ones(FrameBits(frame)) % 2 == 0
  {
    AcceptedIffZeroRegister(frame);
    forall x, b
      ensures Parity(BitStep(x, b)) == (Parity(x) != b)
    {
      ParityOfStep(x, b);
    }
    FeedParity(BitStep, Parity, INIT, FrameBits(frame));
    ParityOfConstants();
  }

  /** No odd number of bit flips goes undetected. */
  lemma OddErrorsDetected(frame: seq<Byte>, error: seq<Byte>)
    requires Accepted(frame) && |error| == |frame| && OddOnes(FrameBits(error))
    ensures !Accepted(Distorted(frame, error))
  {
    AcceptedHasEvenOnes(frame);
    BitsOfDistorted(frame, error);
    AddedParity(FrameBits(frame), FrameBits(error));
    if Accepted(Distorted(frame, error)) {
      AcceptedHasEvenOnes(Distorted(frame, error));
    }
  }

  // ---- Bursts ----

  /** The bits that n shifts can have moved a top bit to. */
  function Reach(n: nat): bv16
    decreases n
  {
    if n == 0 then 0x8000 else Reach(n - 1) | (Reach(n - 1) >> 1)
  }

  predicate Reached(x: bv16, n: nat) { x & Reach(n) != 0 }

  lemma ReachStep(x: bv16, m: bv16, bit: bool)
    requires x & m != 0 && m & 0x8000 != 0 && m & 1 == 0
    ensures BitStep(x, bit) & (m | (m >> 1)) != 0
  {
    MaskIgnoresLowest(x, m);
    ReachShift(Xor(x, BitOf(bit)), m);
  }

  lemma MaskIgnoresLowest(x: bv16, m: bv16)
    requires m & 1 == 0
    ensures (x ^ 1) & m == x & m && (x ^ 0) & m == x & m
  {
  }

  lemma ReachShift(x: bv16, m: bv16)
    requires x & m != 0 && m & 0x8000 != 0 && m & 1 == 0
    ensures Shift(x) & (m | (m >> 1)) != 0
  {
  }

  lemma {:induction false} ReachMask(n: nat)
    requires n < 15
    ensures Reach(n) & 0x8000 != 0 && Reach(n) & 1 == 0
    ensures Reach(n) == 0xFFFF << (15 - n)
    decreases n
  {
    if n > 0 {
      ReachMask(n - 1);
      ReachLiteral(n);
    }
  }

  lemma ReachLiteral(n: nat)
    requires 0 < n < 15 && Reach(n - 1) == 0xFFFF << (15 - (n - 1))
    ensures Reach(n) & 0x8000 != 0 && Reach(n) & 1 == 0
    ensures Reach(n) == 0xFFFF << (15 - n)
  {
  }

  /** The error pattern is not empty and lies within sixteen consecutive transmitted bits. */
  ghost predicate IsBurst(bits: seq<bool>) {
    (exists k :: 0 <= k < |bits| && bits[k]) && exists a: nat :: WithinSixteen(bits, a)
  }

  ghost predicate WithinSixteen(bits: seq<bool>, a: nat) {
    forall k :: 0 <= k < |bits| && bits[k] ==> a <= k < a + 16
  }

  /** No nonempty error within sixteen consecutive bits goes undetected. */
  lemma BurstsDetected(frame: seq<Byte>, error: seq<Byte>)
    requires Accepted(frame) && |error| == |frame| && IsBurst(FrameBits(error))
    ensures !Accepted(Distorted(frame, error))
  {
    UndetectedIff(frame, error);
    BurstLeavesTrace(FrameBits(error));
  }

  lemma {:induction false} FirstOne(bits: seq<bool>) returns (p: nat)
    requires exists k :: 0 <= k < |bits| && bits[k]
    ensures p < |bits| && bits[p] && forall k :: 0 <= k < p ==> !bits[k]
  {
    if bits[0] {
      p := 0;
    } else {
      var k :| 0 <= k < |bits| && bits[k];
      assert bits[1..][k - 1];
      p := FirstOne(bits[1..]);
      p := p + 1;
    }
  }

  lemma BurstLeavesTrace(bits: seq<bool>)
    requires IsBurst(bits)
    ensures Register(0, bits) != 0
  {
    var p := FirstOne(bits);
    assert bits == bits[..p] + bits[p..];
    FeedAppend(BitStep, 0, bits[..p], bits[p..]);
    StepProperties();
    FeedFalse(BitStep, 0, 0, bits[..p]);
    FirstStep();
    assert bits[p..][1..] == bits[p + 1..];
    FeedBurst(BitStep, 0, Reached, 16, BitStep(0, true), bits[p + 1..], 0);
  }

  lemma FirstStep()
    ensures Reached(BitStep(0, true), 0)
  {
  }

  lemma StepFalse(x: bv16)
    ensures BitStep(x, false) == 0 <==> x == 0
  {
    XorZero(x, 0);
    assert BitStep(x, false) == Shift(Xor(x, 0));
    ShiftFixesZero(x);
  }

  lemma StepReached(x: bv16, n: nat, b: bool)
    requires Reached(x, n) && n + 1 < 16
    ensures Reached(BitStep(x, b), n + 1)
  {
    ReachMask(n);
    ReachStep(x, Reach(n), b);
  }

  lemma ReachedIsNonzero(x: bv16, n: nat)
    requires Reached(x, n)
    ensures x != 0
  {
    MaskOfZero(Reach(n));
  }

  lemma MaskOfZero(m: bv16)
    ensures 0 & m == 0
  {
  }

  lemma StepProperties()
    ensures forall x :: BitStep(x, false) == 0 <==> x == 0
    ensures forall x, n: nat :: Reached(x, n) ==> x != 0
    ensures forall x, n: nat, b :: Reached(x, n) && n + 1 < 16 ==> Reached(BitStep(x, b), n + 1)
  {
    forall x ensures BitStep(x, false) == 0 <==> x == 0 { StepFalse(x); }
    forall x, n: nat | Reached(x, n) ensures x != 0 { ReachedIsNonzero(x, n); }
    forall x, n: nat, b | Reached(x, n) && n + 1 < 16 ensures Reached(BitStep(x, b), n + 1) { StepReached(x, n, b); }
  }

  /** Sixteen is the limit: the seventeen-bit pattern of the polynomial itself leaves no trace, wherever it falls. */
  lemma SeventeenBitsCanHide(before: seq<bool>, after: seq<bool>)
    requires forall k :: 0 <= k < |before| ==> !before[k]
    requires forall k :: 0 <= k < |after| ==> !after[k]
    ensures Register(0, before + ([true] + (WordBits(0xA001, 16) + after))) == 0
  {
    var pattern := WordBits(0xA001, 16);
    StepProperties();
    FeedAppend(BitStep, 0, before, [true] + (pattern + after));
    FeedFalse(BitStep, 0, 0, before);
    assert ([true] + (pattern + after))[1..] == pattern + after;
    FirstStepWord();
    FeedAppend(BitStep, 0xA001, pattern, after);
    NothingAboveSixteen(0xA001);
    OwnBitsClear(0xA001, 0xA001, 16);
    FeedFalse(BitStep, 0, 0, after);
  }

  lemma FirstStepWord()
    ensures BitStep(0, true) == 0xA001
  {
  }

  lemma NothingAboveSixteen(x: bv16)
    ensures Iterate(Half, x, 16) == 0
  {
    NothingAboveWord(x);
    assert Iterate(Half, x, 16) == Iterate(Half, Half(x), 15);
  }

  // ---- An error that hides in a frame ----

  function ZeroBytes(n: nat): (zeros: seq<Byte>)
    ensures |zeros| == n
  {
    seq(n, i => 0)
  }

  /** Four flipped bits within seventeen consecutive ones: the pattern of the polynomial. */
  const HIDING: seq<Byte> := [0x03, 0x40, 0x01]

  lemma FeedByte(crc: bv16, frame: seq<Byte>, b: Byte)
    ensures Register(crc, FrameBits(frame + [b])) == Iterate(Shift, Xor(Register(crc, FrameBits(frame)), Wide(b)), 8)
  {
    assert (frame + [b])[..|frame|] == frame;
    FeedAppend(BitStep, crc, FrameBits(frame), Bits(b));
    ByteFeedsBits(Register(crc, FrameBits(frame)), b);
  }

  lemma {:induction false} ZeroStays(n: nat)
    ensures Iterate(Shift, 0, n) == 0
  {
    if n > 0 {
      assert Shift(0) == 0;
      ZeroStays(n - 1);
    }
  }

  /** Zero bytes leave a zero register as it is. */
  lemma {:induction false} ZeroBytesStay(frame: seq<Byte>, n: nat)
    requires Register(0, FrameBits(frame)) == 0
    ensures Register(0, FrameBits(frame + ZeroBytes(n))) == 0
    decreases n
  {
    if n == 0 {
      assert frame + ZeroBytes(0) == frame;
    } else {
      ZeroBytesStay(frame, n - 1);
      assert frame + ZeroBytes(n) == frame + ZeroBytes(n - 1) + [0];
      FeedByte(0, frame + ZeroBytes(n - 1), 0);
      ZeroStays(8);
    }
  }

  lemma FirstHidingByte()
    ensures Iterate(Shift, 0x0003, 8) == 0x0140
  {
    assert Shift(0x0003) == 0xA000 && Shift(0xA000) == 0x5000 && Shift(0x5000) == 0x2800 && Shift(0x2800) == 0x1400;
    assert Shift(0x1400) == 0x0A00 && Shift(0x0A00) == 0x0500 && Shift(0x0500) == 0x0280 && Shift(0x0280) == 0x0140;
    assert Iterate(Shift, 0x0003, 8) == Iterate(Shift, 0x5000, 6) == Iterate(Shift, 0x1400, 4) == Iterate(Shift, 0x0500, 2);
  }

  lemma SecondHidingByte()
    ensures Iterate(Shift, 0x0100, 8) == 0x0001
  {
    assert Shift(0x0100) == 0x0080 && Shift(0x0080) == 0x0040 && Shift(0x0040) == 0x0020 && Shift(0x0020) == 0x0010;
    assert Shift(0x0010) == 0x0008 && Shift(0x0008) == 0x0004 && Shift(0x0004) == 0x0002 && Shift(0x0002) == 0x0001;
    assert Iterate(Shift, 0x0100, 8) == Iterate(Shift, 0x0040, 6) == Iterate(Shift, 0x0010, 4) == Iterate(Shift, 0x0004, 2);
  }

  lemma AfterFirst(frame: seq<Byte>)
    requires Register(0, FrameBits(frame)) == 0
    ensures Register(0, FrameBits(frame + [0x03])) == 0x0140
  {
    FeedByte(0, frame, 0x03);
    assert Xor(0, Wide(0x03)) == 0x0003;
    FirstHidingByte();
  }

  lemma AfterSecond(frame: seq<Byte>)
    requires Register(0, FrameBits(frame)) == 0x0140
    ensures Register(0, FrameBits(frame + [0x40])) == 0x0001
  {
    FeedByte(0, frame, 0x40);
    assert Xor(0x0140, Wide(0x40)) == 0x0100;
    SecondHidingByte();
  }

  lemma AfterThird(frame: seq<Byte>)
    requires Register(0, FrameBits(frame)) == 0x0001
    ensures Register(0, FrameBits(frame + [0x01])) == 0
  {
    FeedByte(0, frame, 0x01);
    assert Xor(0x0001, Wide(0x01)) == 0;
    ZeroStays(8);
  }

  lemma HidingInPieces(zeros: seq<Byte>)
    ensures zeros + HIDING == zeros + [0x03] + [0x40] + [0x01]
  {
  }

  lemma HidingAfter(zeros: seq<Byte>)
    requires Register(0, FrameBits(zeros)) == 0
    ensures Register(0, FrameBits(zeros + [0x03] + [0x40] + [0x01])) == 0
  {
    AfterFirst(zeros);
    AfterSecond(zeros + [0x03]);
    AfterThird(zeros + [0x03] + [0x40]);
  }

  lemma HidingLeavesNoTrace(p: nat)
    ensures Register(0, FrameBits(ZeroBytes(p) + HIDING)) == 0
  {
    ZeroBytesStay([], p);
    assert [] + ZeroBytes(p) == ZeroBytes(p);
    HidingAfter(ZeroBytes(p));
    HidingInPieces(ZeroBytes(p));
  }

  /** The hiding bytes at position p of an otherwise empty error pattern. */
  function HidingError(size: nat, p: nat): (error: seq<Byte>)
    requires p + 3 <= size
    ensures |error| == size
  {
    ZeroBytes(p) + HIDING + ZeroBytes(size - p - 3)
  }

  lemma HidingErrorLeavesNoTrace(size: nat, p: nat)
    requires p + 3 <= size
    ensures Register(0, FrameBits(HidingError(size, p))) == 0
  {
    HidingLeavesNoTrace(p);
    ZeroBytesStay(ZeroBytes(p) + HIDING, size - p - 3);
  }

  /** Sixteen is the limit in frames, too: in every accepted frame of at least three bytes, at every position, the error
      bytes 0x03, 0x40, 0x01 go undetected. */
  lemma HidingErrorAccepted(frame: seq<Byte>, p: nat)
    requires Accepted(frame) && p + 3 <= |frame|
    ensures Accepted(Distorted(frame, HidingError(|frame|, p)))
  {
    var error := HidingError(|frame|, p);
    HidingErrorLeavesNoTrace(|frame|, p);
    UndetectedIff(frame, error);
  }
}

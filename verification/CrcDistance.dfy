/** How far apart two flipped bits must be to hide from the CRC-16: the order of its shift register. */
module CrcDistance {
  import opened Bytes
  import opened ShiftRegister
  import opened Crc
  import opened CrcDetection

  // ---- Shifting back ----

  /** The shift of the register undone. */
  function Unshift(w: bv16): bv16 {
    (w << 1) ^ ((w >> 15) << 14) ^ ((w >> 15) << 1) ^ (w >> 15)
  }

  lemma ShiftUnshift(w: bv16)
    ensures Shift(Unshift(w)) == w
  {
  }

  lemma UnshiftShift(w: bv16)
    ensures Unshift(Shift(w)) == w
  {
  }

  lemma UnshiftLinear(a: bv16, b: bv16)
    ensures Unshift(Xor(a, b)) == Xor(Unshift(a), Unshift(b))
  {
    ShiftUnshift(a);
    ShiftUnshift(b);
    ShiftLinear(Unshift(a), Unshift(b));
    UnshiftShift(Xor(Unshift(a), Unshift(b)));
  }

  lemma {:induction false} BackLinear(a: bv16, b: bv16, k: nat)
    ensures Iterate(Unshift, Xor(a, b), k) == Xor(Iterate(Unshift, a, k), Iterate(Unshift, b, k))
    decreases k
  {
    if k > 0 {
      UnshiftLinear(a, b);
      BackLinear(Unshift(a), Unshift(b), k - 1);
    }
  }

  // ---- Products of registers ----

  function Pick(b: bool, w: bv16): bv16 { if b then w else 0 }

  /** The product of two registers as polynomials modulo that of the CRC, from the lowest n bits of the first. */
  function Product(v: bv16, w: bv16, n: nat): bv16 {
    if n == 0 then 0 else Xor(Pick(Odd(v), w), Unshift(Product(Half(v), w, n - 1)))
  }

  lemma HalfLinear(a: bv16, b: bv16)
    ensures Half(Xor(a, b)) == Xor(Half(a), Half(b))
  {
  }

  lemma PickLinear(a: bv16, b: bv16, w: bv16)
    ensures Pick(Odd(Xor(a, b)), w) == Xor(Pick(Odd(a), w), Pick(Odd(b), w))
  {
  }

  lemma {:induction false} ProductLinear(a: bv16, b: bv16, w: bv16, n: nat)
    ensures Product(Xor(a, b), w, n) == Xor(Product(a, w, n), Product(b, w, n))
    decreases n
  {
    if n > 0 {
      HalfLinear(a, b);
      PickLinear(a, b, w);
      ProductLinear(Half(a), Half(b), w, n - 1);
      UnshiftLinear(Product(Half(a), w, n - 1), Product(Half(b), w, n - 1));
      XorSwap(Pick(Odd(a), w), Pick(Odd(b), w), Unshift(Product(Half(a), w, n - 1)), Unshift(Product(Half(b), w, n - 1)));
    }
  }

  lemma UnshiftZero()
    ensures Unshift(0) == 0 && Half(0) == 0 && !Odd(0)
  {
  }

  lemma {:induction false} ProductOfZero(w: bv16, n: nat)
    ensures Product(0, w, n) == 0
    decreases n
  {
    if n > 0 {
      UnshiftZero();
      ProductOfZero(w, n - 1);
      XorZero(0, 0);
    }
  }

  /** Bits of the first factor beyond its length do not matter. */
  lemma {:induction false} ProductClear(v: bv16, w: bv16, n: nat)
    requires Iterate(Half, v, n) == 0
    ensures Product(v, w, n + 1) == Product(v, w, n)
    decreases n
  {
    if n == 0 {
      ProductOfZero(w, 1);
    } else {
      ProductClear(Half(v), w, n - 1);
    }
  }

  lemma EvenStep(v: bv16, w: bv16, n: nat)
    requires !Odd(v)
    ensures Product(v, w, n + 1) == Unshift(Product(Half(v), w, n))
  {
    XorZero(0, Unshift(Product(Half(v), w, n)));
  }

  predicate LowZero(v: bv16, k: nat) {
    k == 0 || (!Odd(v) && LowZero(Half(v), k - 1))
  }

  lemma {:induction false} EvenRun(v: bv16, w: bv16, k: nat, n: nat)
    requires LowZero(v, k)
    ensures Product(v, w, k + n) == Iterate(Unshift, Product(Iterate(Half, v, k), w, n), k)
    decreases k
  {
    if k > 0 {
      EvenStep(v, w, k - 1 + n);
      EvenRun(Half(v), w, k - 1, n);
      IterateLast(Unshift, Product(Iterate(Half, v, k), w, n), k - 1);
    }
  }

  // ---- The polynomial of the register ----

  /** The taps of the shift, expressed by shifting back: bits 0, 13 and 15. */
  function Taps(w: bv16): bv16 {
    Xor(w, Xor(Iterate(Unshift, w, 13), Iterate(Unshift, w, 15)))
  }

  lemma TapsLinear(a: bv16, b: bv16)
    ensures Taps(Xor(a, b)) == Xor(Taps(a), Taps(b))
  {
    BackLinear(a, b, 13);
    BackLinear(a, b, 15);
    var a13, b13 := Iterate(Unshift, a, 13), Iterate(Unshift, b, 13);
    var a15, b15 := Iterate(Unshift, a, 15), Iterate(Unshift, b, 15);
    XorSwap(a13, b13, a15, b15);
    XorSwap(a, b, Xor(a13, a15), Xor(b13, b15));
  }

  lemma TapsUnshift(w: bv16)
    ensures Taps(Unshift(w)) == Unshift(Taps(w))
  {
    var w13, w15 := Iterate(Unshift, w, 13), Iterate(Unshift, w, 15);
    IterateLast(Unshift, w, 13);
    IterateLast(Unshift, w, 15);
    UnshiftLinear(w13, w15);
    UnshiftLinear(w, Xor(w13, w15));
  }

  lemma TapsOfOne()
    ensures Taps(0x0001) == Shift(0x0001)
  {
    assert Unshift(0x0001) == 0x0002 && Unshift(0x0002) == 0x0004 && Unshift(0x0004) == 0x0008;
    assert Unshift(0x0008) == 0x0010 && Unshift(0x0010) == 0x0020 && Unshift(0x0020) == 0x0040;
    assert Unshift(0x0040) == 0x0080 && Unshift(0x0080) == 0x0100 && Unshift(0x0100) == 0x0200;
    assert Unshift(0x0200) == 0x0400 && Unshift(0x0400) == 0x0800 && Unshift(0x0800) == 0x1000;
    assert Unshift(0x1000) == 0x2000 && Unshift(0x2000) == 0x4000 && Unshift(0x4000) == 0x8000;
    assert Iterate(Unshift, 0x0001, 13) == Iterate(Unshift, 0x0010, 9) == Iterate(Unshift, 0x0200, 4) == 0x2000;
    IterateSum(Unshift, 0x0001, 13, 2);
    assert Iterate(Unshift, 0x2000, 2) == 0x8000;
  }

  lemma {:induction false} BackFixesZero(k: nat)
    ensures Iterate(Unshift, 0, k) == 0
  {
    if k > 0 {
      UnshiftZero();
      BackFixesZero(k - 1);
    }
  }

  lemma TapsOfZero()
    ensures Taps(0) == Shift(0)
  {
    BackFixesZero(13);
    BackFixesZero(15);
  }

  lemma TapsOfBit(b: bool)
    ensures Taps(Pick(b, 1)) == Shift(Pick(b, 1))
  {
    if b {
      TapsOfOne();
    } else {
      TapsOfZero();
    }
  }

  lemma {:induction false} TapsOfProduct(v: bv16, n: nat)
    ensures Taps(Product(v, 1, n)) == Shift(Product(v, 1, n))
    decreases n
  {
    if n == 0 {
      TapsOfZero();
    } else {
      var bit, rest := Pick(Odd(v), 1), Product(Half(v), 1, n - 1);
      TapsOfBit(Odd(v));
      TapsOfProduct(Half(v), n - 1);
      TapsLinear(bit, Unshift(rest));
      TapsUnshift(rest);
      UnshiftShift(rest);
      ShiftUnshift(rest);
      ShiftLinear(bit, Unshift(rest));
    }
  }

  lemma BitAndRest(v: bv16)
    ensures Xor(Pick(Odd(v), 1), Unshift(Half(v))) == v
  {
  }

  /** One is neutral. */
  lemma {:induction false} ProductWithOne(v: bv16, n: nat)
    requires Iterate(Half, v, n) == 0
    ensures Product(v, 1, n) == v
    decreases n
  {
    if n > 0 {
      ProductWithOne(Half(v), n - 1);
      BitAndRest(v);
    }
  }

  lemma TapsAreShift(w: bv16)
    ensures Taps(w) == Shift(w)
  {
    NothingAboveSixteen(w);
    ProductWithOne(w, 16);
    TapsOfProduct(w, 16);
  }

  lemma ProductOfFive(w: bv16)
    ensures Product(5, w, 3) == Xor(w, Unshift(Unshift(w)))
  {
    assert Odd(5) && Half(5) == 2 && !Odd(2) && Half(2) == 1 && Odd(1) && Half(1) == 0;
    ProductOfZero(w, 0);
    UnshiftZero();
    XorZero(w, 0);
    assert Product(1, w, 1) == w;
    EvenStep(2, w, 1);
    assert Product(5, w, 3) == Xor(w, Unshift(Product(2, w, 2)));
  }

  lemma LowZeros()
    ensures LowZero(0x5000, 12) && Iterate(Half, 0x5000, 12) == 5
  {
    assert Half(0x5000) == 0x2800 && Half(0x2800) == 0x1400 && Half(0x1400) == 0x0A00 && Half(0x0A00) == 0x0500;
    assert Half(0x0500) == 0x0280 && Half(0x0280) == 0x0140 && Half(0x0140) == 0x00A0 && Half(0x00A0) == 0x0050;
    assert Half(0x0050) == 0x0028 && Half(0x0028) == 0x0014 && Half(0x0014) == 0x000A && Half(0x000A) == 5;
    assert LowZero(5, 0) && LowZero(0x000A, 1) && LowZero(0x0028, 3) && LowZero(0x0050, 4) && LowZero(0x0140, 6);
    assert LowZero(0x0500, 8) && LowZero(0x1400, 10);
    assert Iterate(Half, 0x0050, 4) == 5;
    assert Iterate(Half, 0x0500, 8) == Iterate(Half, 0x0050, 4);
  }

  /** The product with the taps is the shift. */
  lemma ProductOfTaps(w: bv16)
    ensures Product(0xA001, w, 16) == Shift(w)
  {
    assert Odd(0xA001) && Half(0xA001) == 0x5000;
    var inner := Xor(w, Iterate(Unshift, w, 2));
    LowZeros();
    EvenRun(0x5000, w, 12, 3);
    ProductOfFive(w);
    assert Iterate(Unshift, w, 2) == Unshift(Unshift(w));
    assert Product(0xA001, w, 16) == Xor(w, Unshift(Iterate(Unshift, inner, 12)));
    IterateLast(Unshift, inner, 12);
    BackLinear(w, Iterate(Unshift, w, 2), 13);
    IterateSum(Unshift, w, 2, 13);
    TapsAreShift(w);
  }

  lemma ProductStep(v: bv16, w: bv16)
    ensures Product(v, w, 16) == Xor(Pick(Odd(v), w), Unshift(Product(Half(v), w, 16)))
  {
    NothingAboveSixteen(v);
    assert Iterate(Half, v, 16) == Iterate(Half, Half(v), 15);
    ProductClear(Half(v), w, 15);
  }

  lemma ShiftOfStep(v: bv16, w: bv16)
    ensures Shift(Product(v, w, 16)) == Xor(Shift(Pick(Odd(v), w)), Product(Half(v), w, 16))
  {
    ProductStep(v, w);
    var rest := Product(Half(v), w, 16);
    ShiftLinear(Pick(Odd(v), w), Unshift(rest));
    ShiftUnshift(rest);
  }

  /** Shifting a product is shifting its first factor. */
  lemma ShiftProduct(v: bv16, w: bv16)
    ensures Shift(Product(v, w, 16)) == Product(Shift(v), w, 16)
  {
    ShiftOfStep(v, w);
    ShiftCases(v);
    var rest := Product(Half(v), w, 16);
    if Odd(v) {
      ProductLinear(Half(v), 0xA001, w, 16);
      ProductOfTaps(w);
      XorSwapped(Shift(w), rest);
    } else {
      ShiftFixesZero(0);
      XorZero(0, rest);
    }
  }

  lemma XorSwapped(a: bv16, b: bv16)
    ensures Xor(a, b) == Xor(b, a)
  {
  }

  // ---- Powers of the shift ----

  /** What n shifts make of a register that holds one. */
  function Power(n: nat): bv16 {
    Iterate(Shift, 1, n)
  }

  /** n shifts multiply with that power. */
  lemma {:induction false} ShiftsAreProduct(w: bv16, n: nat)
    ensures Iterate(Shift, w, n) == Product(Power(n), w, 16)
    decreases n
  {
    if n == 0 {
      ProductOfZero(w, 15);
      assert Odd(1) && Half(1) == 0;
      UnshiftZero();
      XorZero(w, 0);
    } else {
      ShiftsAreProduct(w, n - 1);
      IterateLast(Shift, w, n - 1);
      IterateLast(Shift, 1, n - 1);
      ShiftProduct(Power(n - 1), w);
    }
  }

  lemma PowerSum(a: nat, b: nat)
    ensures Power(a + b) == Product(Power(a), Power(b), 16)
  {
    IterateSum(Shift, 1, b, a);
    ShiftsAreProduct(Power(b), a);
  }

  // ---- Evaluating products ----

  function OneBit(v: bv16, w: bv16, rest: bv16): bv16 {
    Xor(Pick(Odd(v), w), Unshift(rest))
  }

  function FourBits(v: bv16, w: bv16, rest: bv16): bv16 {
    OneBit(v, w, OneBit(Half(v), w, OneBit(Half(Half(v)), w, OneBit(Half(Half(Half(v))), w, rest))))
  }

  function Quarter(v: bv16): bv16 { Half(Half(Half(Half(v)))) }

  function SixteenBits(v: bv16, w: bv16): bv16 {
    var v4, v8, v12 := Quarter(v), Quarter(Quarter(v)), Quarter(Quarter(Quarter(v)));
    FourBits(v, w, FourBits(v4, w, FourBits(v8, w, FourBits(v12, w, 0))))
  }

  lemma ProductFour(v: bv16, w: bv16, n: nat)
    ensures Product(v, w, n + 4) == FourBits(v, w, Product(Quarter(v), w, n))
  {
    assert Product(v, w, n + 4) == OneBit(v, w, Product(Half(v), w, n + 3));
    assert Product(Half(v), w, n + 3) == OneBit(Half(v), w, Product(Half(Half(v)), w, n + 2));
    assert Product(Half(Half(v)), w, n + 2) == OneBit(Half(Half(v)), w, Product(Half(Half(Half(v))), w, n + 1));
    assert Product(Half(Half(Half(v))), w, n + 1) == OneBit(Half(Half(Half(v))), w, Product(Quarter(v), w, n));
  }

  lemma ProductSixteen(v: bv16, w: bv16)
    ensures Product(v, w, 16) == SixteenBits(v, w)
  {
    ProductFour(v, w, 12);
    ProductFour(Quarter(v), w, 8);
    ProductFour(Quarter(Quarter(v)), w, 4);
    ProductFour(Quarter(Quarter(Quarter(v))), w, 0);
  }

  /** Multiplying powers, four bits at a time. */
  lemma PowerFrom(a: nat, b: nat, v: bv16, w: bv16, first: bv16, second: bv16, third: bv16, last: bv16)
    requires Power(a) == v && Power(b) == w
    requires FourBits(v >> 12, w, 0) == first && FourBits(v >> 8, w, first) == second
    requires FourBits(v >> 4, w, second) == third && FourBits(v, w, third) == last
    ensures Power(a + b) == last
  {
    PowerSum(a, b);
    ProductSixteen(v, w);
    Quarters(v);
  }

  lemma Quarters(v: bv16)
    ensures Quarter(v) == v >> 4 && Quarter(Quarter(v)) == v >> 8 && Quarter(Quarter(Quarter(v))) == v >> 12
  {
  }

  lemma PowersTo8()
    ensures Power(1) == 0xA001 && Power(2) == 0xF001 && Power(4) == 0xCC01 && Power(8) == 0xC0C1
  {
    assert Power(1) == Shift(1);
    PowerFrom(1, 1, 0xA001, 0xA001, 0x0005, 0x0050, 0x0500, 0xF001);
    PowerFrom(2, 2, 0xF001, 0xF001, 0x5003, 0x003C, 0x03C0, 0xCC01);
    PowerFrom(4, 4, 0xCC01, 0xCC01, 0x5000, 0x500C, 0x00CC, 0xC0C1);
  }

  lemma PowersTo128()
    ensures Power(16) == 0x9001 && Power(32) == 0xFC01 && Power(64) == 0xCCC1 && Power(128) == 0x90C1
  {
    PowersTo8();
    PowerFrom(8, 8, 0xC0C1, 0xC0C1, 0x0500, 0x5000, 0x050C, 0x9001);
    PowerFrom(16, 16, 0x9001, 0x9001, 0x5006, 0x006C, 0x06C0, 0xFC01);
    PowerFrom(32, 32, 0xFC01, 0xFC01, 0x1403, 0x5030, 0x030C, 0xCCC1);
    PowerFrom(64, 64, 0xCCC1, 0xCCC1, 0x5500, 0x050C, 0x05C0, 0x90C1);
  }

  lemma PowersTo2048()
    ensures Power(256) == 0xAC01 && Power(512) == 0xF0C1 && Power(1024) == 0x9C01 && Power(2048) == 0xFCC1
  {
    PowersTo128();
    PowerFrom(128, 128, 0x90C1, 0x90C1, 0x56C6, 0x6C6C, 0x03CC, 0xAC01);
    PowerFrom(256, 256, 0xAC01, 0xAC01, 0x7805, 0x505C, 0x05CC, 0xF0C1);
    PowerFrom(512, 512, 0xF0C1, 0xF0C1, 0x5443, 0x443C, 0x06CC, 0x9C01);
    PowerFrom(1024, 1024, 0x9C01, 0x9C01, 0x3C06, 0x5060, 0x060C, 0xFCC1);
  }

  lemma PowersTo32768()
    ensures Power(4096) == 0x9CC1 && Power(8192) == 0xACC1 && Power(16384) == 0xA0C1 && Power(32768) == 0xA001
  {
    PowersTo2048();
    PowerFrom(2048, 2048, 0xFCC1, 0xFCC1, 0x1043, 0x1130, 0x0600, 0x9CC1);
    PowerFrom(4096, 4096, 0x9CC1, 0x9CC1, 0x3AC6, 0x3960, 0x0300, 0xACC1);
    PowerFrom(8192, 8192, 0xACC1, 0xACC1, 0x7F85, 0x2D5C, 0x00C0, 0xA0C1);
    PowerFrom(16384, 16384, 0xA0C1, 0xA0C1, 0x0785, 0x7850, 0x000C, 0xA001);
  }

  lemma Power217()
    ensures Power(217) == 0x417F
  {
    PowersTo8();
    PowersTo128();
    PowerFrom(128, 64, 0x90C1, 0xCCC1, 0x6AC0, 0x6C09, 0x5599, 0x955D);
    PowerFrom(192, 16, 0x955D, 0x9001, 0x5006, 0x506F, 0x56FF, 0xFFF8);
    PowerFrom(208, 8, 0xFFF8, 0xC0C1, 0x0440, 0x4040, 0x404F, 0x82FE);
    PowerFrom(216, 1, 0x82FE, 0xA001, 0x0004, 0x0041, 0xA416, 0x417F);
  }

  lemma Power1057()
    ensures Power(1057) == 0xC961
  {
    PowersTo8();
    PowersTo128();
    PowersTo2048();
    PowerFrom(1024, 32, 0x9C01, 0xFC01, 0x9C03, 0x502E, 0x02EC, 0xD2C1);
    PowerFrom(1056, 1, 0xD2C1, 0xA001, 0xA007, 0x0069, 0x0696, 0xC961);
  }

  lemma Power4681()
    ensures Power(4681) == 0xAA5D
  {
    PowersTo8();
    PowersTo128();
    PowersTo2048();
    PowersTo32768();
    PowerFrom(4096, 512, 0x9CC1, 0xF0C1, 0xF6C3, 0x6927, 0x577A, 0x876D);
    PowerFrom(4608, 64, 0x876D, 0xCCC1, 0xA601, 0x8649, 0xCE0E, 0xB930);
    PowerFrom(4672, 8, 0xB930, 0xC0C1, 0xC741, 0xB2C1, 0x6D4B, 0x14B9);
    PowerFrom(4680, 1, 0x14B9, 0xA001, 0xA001, 0x000A, 0xA0A4, 0xAA5D);
  }

  // ---- The period of the shift ----

  /** 32767 = 7 * 31 * 151. */
  const PERIOD := 32767

  predicate IsPeriod(n: nat) { Power(n) == 1 }

  lemma FullPeriod()
    ensures IsPeriod(PERIOD)
  {
    PowersTo32768();
    IterateLast(Shift, 1, PERIOD);
    UnshiftShift(Power(PERIOD));
    assert Unshift(0xA001) == 1;
  }

  lemma PeriodRest(a: nat, b: nat)
    requires IsPeriod(a)
    ensures IsPeriod(a + b) <==> IsPeriod(b)
  {
    IterateSum(Shift, 1, a, b);
  }

  lemma {:induction false} PeriodMultiple(n: nat, k: nat)
    requires IsPeriod(n)
    ensures IsPeriod(n * k)
    decreases k
  {
    if k > 0 {
      PeriodMultiple(n, k - 1);
      PeriodRest(n, n * (k - 1));
      assert n + n * (k - 1) == n * k;
    }
  }

  /** Two periods have a common divisor that is a period. */
  lemma {:induction false} CommonPeriod(a: nat, b: nat) returns (g: nat, x: nat, y: nat)
    requires a > 0 && b > 0 && IsPeriod(a) && IsPeriod(b)
    ensures 0 < g <= a && g <= b && IsPeriod(g) && a == g * x && b == g * y
    decreases a + b
  {
    if a == b {
      g, x, y := a, 1, 1;
    } else if a < b {
      PeriodRest(a, b - a);
      g, x, y := CommonPeriod(a, b - a);
      assert g * x + g * y == g * (x + y);
      y := x + y;
    } else {
      PeriodRest(b, a - b);
      g, x, y := CommonPeriod(a - b, b);
      assert g * x + g * y == g * (x + y);
      x := x + y;
    }
  }

  /** The factors of the period up to its square root. */
  lemma SmallFactor(g: nat, y: nat)
    requires g * y == PERIOD && g <= 181
    ensures g == 1 || g == 7 || g == 31 || g == 151
  {
  }

  lemma LargeProduct(g: nat, y: nat)
    requires g >= 182 && y >= 182
    ensures g * y > PERIOD
  {
    assert g * y >= 182 * y;
  }

  /** A proper factor of the period divides 217, 1057 or 4681. */
  lemma ProperFactor(g: nat, y: nat) returns (m: nat, k: nat)
    requires g * y == PERIOD && g < PERIOD
    ensures (m == 217 || m == 1057 || m == 4681) && g * k == m
  {
    if g <= 181 {
      SmallFactor(g, y);
      m := if g == 151 then 4681 else 217;
      k := if g == 1 then 217 else if g == 7 then 31 else if g == 31 then 7 else 31;
    } else {
      if y >= 182 {
        LargeProduct(g, y);
      }
      SmallFactor(y, g);
      m, k := g, 1;
    }
  }

  /** There is no shorter period. */
  lemma NoShorterPeriod(n: nat)
    requires 0 < n < PERIOD
    ensures !IsPeriod(n)
  {
    if IsPeriod(n) {
      FullPeriod();
      var g, _, y := CommonPeriod(n, PERIOD);
      var m, k := ProperFactor(g, y);
      PeriodMultiple(g, k);
      Power217();
      Power1057();
      Power4681();
      assert false;
    }
  }

  /** Shifting brings a register that holds one back to one exactly after every full period. */
  lemma PeriodIff(n: nat)
    ensures Power(n) == 1 <==> n % PERIOD == 0
  {
    FullPeriod();
    var q, r := n / PERIOD, n % PERIOD;
    PeriodMultiple(PERIOD, q);
    assert n == PERIOD * q + r;
    PeriodRest(PERIOD * q, r);
    if r > 0 {
      NoShorterPeriod(r);
    }
  }

  // ---- Two flipped bits ----

  /** Exactly the bits at two positions are set. */
  ghost predicate OnlyTwo(bits: seq<bool>, i: nat, j: nat) {
    i < j < |bits| && forall k :: 0 <= k < |bits| ==> (bits[k] <==> k == i || k == j)
  }

  lemma {:induction false} FeedSilence(r: bv16, bits: seq<bool>)
    requires forall k :: 0 <= k < |bits| ==> !bits[k]
    ensures Register(r, bits) == Iterate(Shift, r, |bits|)
    decreases |bits|
  {
    if bits != [] {
      XorZero(r, 0);
      FeedSilence(Shift(r), bits[1..]);
    }
  }

  /** The register after a first flipped bit and n more shifts. */
  lemma AfterFirstFlip(n: nat)
    ensures Iterate(Shift, BitStep(0, true), n) == Power(n + 1)
  {
    XorZero(0, 1);
  }

  lemma SecondFlip(r: bv16)
    ensures BitStep(r, true) == 0 <==> r == 1
  {
    ShiftFixesZero(Xor(r, 1));
    XorZero(r, 1);
  }

  /** Two flipped bits leave no trace in the register exactly when their distance is a multiple of the period. */
  lemma TwoFlipsRegister(bits: seq<bool>, i: nat, j: nat)
    requires OnlyTwo(bits, i, j)
    ensures Register(0, bits) == 0 <==> (j - i) % PERIOD == 0
  {
    var before, between, after := bits[..i], bits[i + 1..j], bits[j + 1..];
    var tail := [true] + after;
    var middle := between + tail;
    assert bits == before + ([true] + middle);
    FeedAppend(BitStep, 0, before, [true] + middle);
    FeedSilence(0, before);
    ShiftsFixZero(0, |before|);
    assert ([true] + middle)[1..] == middle;
    var first := BitStep(0, true);
    FeedAppend(BitStep, first, between, tail);
    FeedSilence(first, between);
    AfterFirstFlip(|between|);
    PeriodIff(|between| + 1);
    assert tail[1..] == after;
    SecondFlip(Power(|between| + 1));
    FeedSilence(BitStep(Power(|between| + 1), true), after);
    ShiftsFixZero(BitStep(Power(|between| + 1), true), |after|);
  }

  /** Two flipped bits in an accepted frame of any length go undetected exactly when their distance is a multiple of
      32767 bits. */
  lemma TwoFlipsIff(frame: seq<Byte>, error: seq<Byte>, i: nat, j: nat)
    requires Accepted(frame) && |error| == |frame| && OnlyTwo(FrameBits(error), i, j)
    ensures Accepted(Distorted(frame, error)) <==> (j - i) % PERIOD == 0
  {
    UndetectedIff(frame, error);
    TwoFlipsRegister(FrameBits(error), i, j);
  }

  // ---- Up to three flipped bits ----

  lemma {:induction false} NoOnes(bits: seq<bool>)
    requires Ones(bits) == 0
    ensures forall k :: 0 <= k < |bits| ==> !bits[k]
  {
    if bits != [] {
      NoOnes(bits[1..]);
    }
  }

  lemma {:induction false} OneOne(bits: seq<bool>) returns (i: nat)
    requires Ones(bits) == 1
    ensures i < |bits| && forall k :: 0 <= k < |bits| ==> (bits[k] <==> k == i)
  {
    if bits[0] {
      NoOnes(bits[1..]);
      i := 0;
      assert forall k :: 1 <= k < |bits| ==> bits[k] == bits[1..][k - 1];
    } else {
      i := OneOne(bits[1..]);
      i := i + 1;
      assert forall k :: 1 <= k < |bits| ==> bits[k] == bits[1..][k - 1];
    }
  }

  lemma {:induction false} TwoOnes(bits: seq<bool>) returns (i: nat, j: nat)
    requires Ones(bits) == 2
    ensures OnlyTwo(bits, i, j)
  {
    if bits[0] {
      j := OneOne(bits[1..]);
      i, j := 0, j + 1;
    } else {
      i, j := TwoOnes(bits[1..]);
      i, j := i + 1, j + 1;
    }
    assert forall k :: 1 <= k < |bits| ==> bits[k] == bits[1..][k - 1];
  }

  lemma {:induction false} BitsOfFrame(frame: seq<Byte>)
    ensures |FrameBits(frame)| == 8 * |frame|
  {
    if frame != [] {
      BitsOfFrame(frame[..|frame| - 1]);
    }
  }

  /** In frames of up to 4095 bytes, which every frame of a serial line is, one, two or three flipped bits never go
      undetected. */
  lemma FewFlipsDetected(frame: seq<Byte>, error: seq<Byte>)
    requires Accepted(frame) && |error| == |frame| <= 4095 && 1 <= Ones(FrameBits(error)) <= 3
    ensures !Accepted(Distorted(frame, error))
  {
    if Ones(FrameBits(error)) == 2 {
      var i, j := TwoOnes(FrameBits(error));
      BitsOfFrame(error);
      TwoFlipsIff(frame, error, i, j);
    } else {
      OddErrorsDetected(frame, error);
    }
  }
}

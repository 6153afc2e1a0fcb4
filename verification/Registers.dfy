/** The register codec: scalars in sixteen-bit words, word order, and scaled numeric values. */
module Registers {
  import opened Common

  datatype DataType = BoolType | Uint16 | Int16 | Uint32 | Int32

  datatype WordOrder = BigFirst | LittleFirst

  datatype CodecError = Overflow | NoRegisters

  type Word = n: int | 0 <= n < 0x10000

  type Octet = n: int | 0 <= n < 0x100

  function RegisterCount(t: DataType): nat {
    if t == Uint32 || t == Int32 then 2 else 1
  }

  // ---- Big-endian bytes ----

  function Power256(n: nat): (p: nat)
    ensures p > 0
  {
    if n == 0 then 1 else 256 * Power256(n - 1)
  }

  /** int.to_bytes for a number that fits. */
  function ToBytes(n: nat, width: nat): (bytes: seq<Octet>)
    ensures |bytes| == width
  {
    if width == 0 then [] else ToBytes(n / 256, width - 1) + [n % 256]
  }

  /** int.from_bytes, unsigned. */
  function FromBytes(bytes: seq<Octet>): (n: nat)
    ensures n < Power256(|bytes|)
  {
    if bytes == [] then 0 else 256 * FromBytes(bytes[..|bytes| - 1]) + bytes[|bytes| - 1]
  }

  /** int.from_bytes, signed. */
  function FromSignedBytes(bytes: seq<Octet>): int {
    var n := FromBytes(bytes);
    if 2 * n >= Power256(|bytes|) && bytes != [] then n - Power256(|bytes|) else n
  }

  lemma {:induction false} FromToBytes(n: nat, width: nat)
    requires n < Power256(width)
    ensures FromBytes(ToBytes(n, width)) == n
  {
    if width > 0 {
      FromToBytes(n / 256, width - 1);
      assert ToBytes(n, width)[..width - 1] == ToBytes(n / 256, width - 1);
    }
  }

  lemma {:induction false} ToFromBytes(bytes: seq<Octet>)
    ensures ToBytes(FromBytes(bytes), |bytes|) == bytes
  {
    if bytes != [] {
      var n := |bytes| - 1;
      ToFromBytes(bytes[..n]);
      Digits(FromBytes(bytes[..n]), bytes[n]);
      assert bytes == bytes[..n] + [bytes[n]];
    }
  }

  lemma Digits(high: nat, low: Octet)
    ensures (256 * high + low) / 256 == high && (256 * high + low) % 256 == low
  {
  }

  lemma SmallPowers()
    ensures Power256(2) == 0x10000 && Power256(4) == 0x1_0000_0000
  {
    assert Power256(1) == 256;
    assert Power256(3) == 256 * Power256(2);
  }

  // ---- Words and payloads ----

  function RegisterBytes(w: Word): seq<Octet> { ToBytes(w, 2) }

  /** The payload of several words, as it travels. */
  function Payload(words: seq<Word>): (p: seq<Octet>)
    ensures |p| == 2 * |words|
  {
    if words == [] then [] else RegisterBytes(words[0]) + Payload(words[1..])
  }

  function WordOfBytes(bytes: seq<Octet>): Word
    requires |bytes| == 2
  {
    SmallPowers();
    FromBytes(bytes)
  }

  /** The two words of a four-byte payload. */
  function PayloadWords(payload: seq<Octet>): seq<Word>
    requires |payload| == 4
  {
    [WordOfBytes(payload[..2]), WordOfBytes(payload[2..])]
  }

  function Reversed(words: seq<Word>): (r: seq<Word>)
    ensures |r| == |words|
  {
    seq(|words|, i requires 0 <= i < |words| => words[|words| - 1 - i])
  }

  function Ordered(words: seq<Word>, order: WordOrder): (r: seq<Word>)
    ensures |r| == |words|
  {
    if order == LittleFirst && |words| >= 2 then Reversed(words) else words
  }

  // ---- Encoding and decoding ----

  predicate Fits(t: DataType, value: int) {
    match t
    case BoolType => value == 0 || value == 1
    case Uint16 => 0 <= value < 0x10000
    case Int16 => -0x8000 <= value < 0x8000
    case Uint32 => 0 <= value < 0x1_0000_0000
    case Int32 => -0x8000_0000 <= value < 0x8000_0000
  }

  /** The words of a value before reordering. Sixteen-bit types silently keep the low sixteen bits; thirty-two-bit
      types refuse what does not fit. */
  function EncodedWords(value: int, t: DataType): Result<seq<Word>, CodecError> {
    match t
    case BoolType => Ok([if value != 0 then 1 else 0])
    case Uint16 => Ok([value % 0x10000])
    case Int16 => Ok([value % 0x10000])
    case Uint32 => if Fits(Uint32, value) then Ok(PayloadWords(ToBytes(value, 4))) else Err(Overflow)
    case Int32 =>
      if !Fits(Int32, value) then Err(Overflow)
      else if value >= 0 then Ok(PayloadWords(ToBytes(value, 4)))
      else Ok(PayloadWords(ToBytes(value + 0x1_0000_0000, 4)))
  }

  function Encode(value: int, t: DataType, order: WordOrder): Result<seq<Word>, CodecError> {
    var words := EncodedWords(value, t);
    if words.Err? then words
    else if order == LittleFirst then Ok(Reversed(words.value))
    else words
  }

  /** The number meant by a word whose top bit is the sign. */
  function Signed16(word: int): int {
    if word >= 0x8000 then word - 0x10000 else word
  }

  function Decode(words: seq<Word>, t: DataType, order: WordOrder): Result<int, CodecError> {
    var ordered := Ordered(words, order);
    if ordered == [] then Err(NoRegisters)
    else
      match t
      case BoolType => Ok(if ordered[0] != 0 then 1 else 0)
      case Uint16 => Ok(ordered[0])
      case Int16 => Ok(Signed16(ordered[0]))
      case Uint32 => Ok(FromBytes(Payload(ordered)))
      case Int32 => Ok(FromSignedBytes(Payload(ordered)))
  }

  lemma PayloadOfWords(payload: seq<Octet>)
    requires |payload| == 4
    ensures Payload(PayloadWords(payload)) == payload
  {
    var high, low := payload[..2], payload[2..];
    ToFromBytes(high);
    ToFromBytes(low);
    var words := PayloadWords(payload);
    assert Payload(words) == RegisterBytes(words[0]) + Payload(words[1..]);
    assert Payload(words[1..]) == RegisterBytes(words[1]) + Payload(words[1..][1..]);
    assert payload == high + low;
  }

  lemma WordsOfPayload(words: seq<Word>)
    requires |words| == 2
    ensures PayloadWords(Payload(words)) == words
  {
    SmallPowers();
    FromToBytes(words[0], 2);
    FromToBytes(words[1], 2);
    assert words[1..][1..] == [];
    assert Payload(words[1..]) == RegisterBytes(words[1]);
    assert Payload(words)[..2] == RegisterBytes(words[0]);
    assert Payload(words)[2..] == RegisterBytes(words[1]);
  }

  lemma OrderUndone(words: seq<Word>, order: WordOrder)
    ensures Ordered(if order == LittleFirst then Reversed(words) else words, order) == words
    ensures (if order == LittleFirst then Reversed(Ordered(words, order)) else Ordered(words, order)) == words
  {
    assert Reversed(Reversed(words)) == words;
    if |words| == 1 {
      assert Reversed(words) == words;
    } else if |words| == 0 {
      assert Reversed(words) == words;
    }
  }

  /** What registers mean in numbers: one word as it is, with 65536 taken off from 32768 on for the signed type, and as a
      truth value; two words as a number in base 65536, the more significant one first or last, with 2^32 taken off
      when it is 32768 or more and the type is signed. */
  lemma WordsMeaning(first: Word, second: Word, order: WordOrder)
    ensures Decode([first], BoolType, order) == Ok(if first == 0 then 0 else 1)
    ensures Decode([first], Uint16, order) == Ok(first)
    ensures Decode([first], Int16, order) == Ok(if first < 0x8000 then first else first - 65536)
    ensures var high: int, low: int := if order == BigFirst then first else second,
                                       if order == BigFirst then second else first;
            && Decode([first, second], Uint32, order) == Ok(65536 * high + low)
            && Decode([first, second], Int32, order) ==
               Ok(65536 * high + low - if high < 0x8000 then 0 else 0x1_0000_0000)
  {
    if order == LittleFirst {
      assert Reversed([first, second]) == [second, first];
      PairMeaning(second, first);
    } else {
      PairMeaning(first, second);
    }
  }

  lemma PairMeaning(high: Word, low: Word)
    ensures FromBytes(Payload([high, low])) == 65536 * high + low
    ensures FromSignedBytes(Payload([high, low])) ==
            65536 * high + low - if high < 0x8000 then 0 else 0x1_0000_0000
  {
    SmallPowers();
    assert [high, low][1..] == [low] && [low][1..] == [];
    assert Payload([low]) == RegisterBytes(low);
    BytesOfWord(high);
    BytesOfWord(low);
    assert Payload([high, low]) == [high / 256, high % 256, low / 256, low % 256];
    FourBytes(high / 256, high % 256, low / 256, low % 256);
  }

  lemma BytesOfWord(w: Word)
    ensures RegisterBytes(w) == [w / 256, w % 256]
  {
    assert ToBytes(w / 256, 1) == ToBytes(w / 256 / 256, 0) + [w / 256 % 256];
  }

  lemma FourBytes(a: Octet, b: Octet, c: Octet, d: Octet)
    ensures FromBytes([a, b, c, d]) == 256 * (256 * (256 * a + b) + c) + d
  {
    assert [a][..0] == [] && [a, b][..1] == [a] && [a, b, c][..2] == [a, b] && [a, b, c, d][..3] == [a, b, c];
    assert FromBytes([a]) == a;
    assert FromBytes([a, b]) == 256 * a + b;
    assert FromBytes([a, b, c]) == 256 * (256 * a + b) + c;
  }

  /** What comes back from the registers: the value itself exactly when it fits, and otherwise, for the sixteen-bit
      types, the value modulo 65536 in the range of the type. Thirty-two-bit values that do not fit are refused. */
  lemma DecodeAfterEncode(value: int, t: DataType, order: WordOrder)
    ensures Encode(value, t, order).Ok? <==> (t == Uint32 || t == Int32 ==> Fits(t, value))
    ensures Encode(value, t, order).Ok? ==>
              var words := Encode(value, t, order).value;
              |words| == RegisterCount(t) && Decode(words, t, order).Ok? &&
              Fits(t, Decode(words, t, order).value) &&
              (t != BoolType ==> SameWord(Decode(words, t, order).value, value)) &&
              (Decode(words, t, order).value == value <==> Fits(t, value))
  {
    var words := EncodedWords(value, t);
    if words.Ok? {
      OrderUndone(words.value, order);
      if t == Uint32 || t == Int32 {
        WideRoundTrip(value, t);
        SameWordReflexive(value);
      } else {
        NarrowRoundTrip(value, t);
      }
    }
  }

  /** Equal up to whole multiples of 65536. */
  ghost predicate SameWord(a: int, b: int) {
    (a - b) % 0x10000 == 0
  }

  lemma SameWordReflexive(a: int)
    ensures SameWord(a, a)
  {
  }

  lemma WideRoundTrip(value: int, t: DataType)
    requires (t == Uint32 || t == Int32) && Fits(t, value)
    ensures EncodedWords(value, t).Ok? && |EncodedWords(value, t).value| == 2
    ensures Decode(EncodedWords(value, t).value, t, BigFirst) == Ok(value)
  {
    SmallPowers();
    var raw: nat := if value >= 0 then value else value + 0x1_0000_0000;
    PayloadOfWords(ToBytes(raw, 4));
    FromToBytes(raw, 4);
    var words := EncodedWords(value, t).value;
    assert words == PayloadWords(ToBytes(raw, 4));
    assert Ordered(words, BigFirst) == words;
    assert FromBytes(Payload(words)) == raw;
  }

  lemma NarrowRoundTrip(value: int, t: DataType)
    requires t == BoolType || t == Uint16 || t == Int16
    ensures EncodedWords(value, t).Ok? && |EncodedWords(value, t).value| == 1
    ensures var back := Decode(EncodedWords(value, t).value, t, BigFirst);
            back.Ok? && Fits(t, back.value) && (t != BoolType ==> SameWord(back.value, value)) &&
            (back.value == value <==> Fits(t, value))
  {
    SixteenBits(value);
  }

  lemma SixteenBits(value: int)
    ensures 0 <= value < 0x10000 ==> value % 0x10000 == value
    ensures -0x8000 <= value < 0 ==> value % 0x10000 == value + 0x10000
    ensures SameWord(value % 0x10000, value)
    ensures SameWord(value % 0x10000 - 0x10000, value)
  {
  }

  /** Encoding what was decoded gives the same registers for every integer type; a bool register only survives when
      it holds 0 or 1. */
  lemma EncodeAfterDecode(words: seq<Word>, t: DataType, order: WordOrder)
    requires |words| == RegisterCount(t)
    ensures Decode(words, t, order).Ok?
    ensures Encode(Decode(words, t, order).value, t, order) == Ok(words) <==> (t == BoolType ==> words[0] <= 1)
  {
    OrderUndone(words, order);
    var ordered := Ordered(words, order);
    if t == Uint32 || t == Int32 {
      WideWords(ordered, t);
    } else {
      assert Reversed(words) == words;
      NarrowWord(words[0], t);
      if t == BoolType {
        assert Encode(Decode(words, t, order).value, t, order) == Ok([if words[0] != 0 then 1 else 0]) by {
          assert Reversed([if words[0] != 0 then 1 else 0]) == [if words[0] != 0 then 1 else 0];
        }
        assert words == [if words[0] != 0 then 1 else 0] <==> words[0] <= 1;
      } else {
        assert words == [words[0]];
      }
    }
  }

  lemma NarrowWord(word: Word, t: DataType)
    requires t == Uint16 || t == Int16 || t == BoolType
    ensures Decode([word], t, BigFirst).Ok?
    ensures t != BoolType ==> EncodedWords(Decode([word], t, BigFirst).value, t) == Ok([word])
  {
    SixteenBits(Signed16(word));
    SixteenBits(word);
  }

  lemma WideWords(words: seq<Word>, t: DataType)
    requires (t == Uint32 || t == Int32) && |words| == 2
    ensures Decode(words, t, BigFirst).Ok?
    ensures EncodedWords(Decode(words, t, BigFirst).value, t) == Ok(words)
  {
    SmallPowers();
    WordsOfPayload(words);
    ToFromBytes(Payload(words));
    assert |Payload(words)| == 4;
  }

  // ---- Scaled values ----

  /** The scale a write multiplies with: an unset scale counts as one. */
  function WriteScale(scale: real): (s: real)
    ensures s != 0.0
  {
    if scale == 0.0 then 1.0 else scale
  }

  /** The integer that a numeric write puts into the registers. */
  function RawOf(value: real, scale: real): int {
    RoundHalfEven(value * WriteScale(scale))
  }

  /** What a read makes of the integer in the registers. */
  function ScaledRead(raw: int, scale: real): real {
    if scale == 0.0 || scale == 1.0 then raw as real else raw as real / scale
  }

  /** The integer of a numeric write is the nearest one to value times scale, the even one of two; a read divides by the
      same scale. An unset scale counts as one. */
  lemma ScalingMeaning(value: real, raw: int, scale: real)
    ensures var s := if scale == 0.0 then 1.0 else scale;
            var error := RawOf(value, scale) as real - value * s;
            && -0.5 <= error <= 0.5 && (error == -0.5 || error == 0.5 ==> RawOf(value, scale) % 2 == 0)
            && ScaledRead(raw, scale) * s == raw as real
  {
    RoundError(value * WriteScale(scale));
  }

  function WriteThenRead(value: real, t: DataType, scale: real, order: WordOrder): Result<real, CodecError> {
    var words := Encode(RawOf(value, scale), t, order);
    if words.Err? then Err(words.error)
    else
      var raw := Decode(words.value, t, order);
      if raw.Err? then Err(raw.error) else Ok(ScaledRead(raw.value, scale))
  }

  /** The distance of two numbers. */
  function Distance(x: real, y: real): real {
    if x >= y then x - y else y - x
  }

  /** The two numbers differ by at most half a raw step, 1 / (2 * |scale|). */
  ghost predicate WithinHalfStep(x: real, y: real, scale: real) {
    Distance(x, y) <= HalfStep(scale)
  }

  function HalfStep(scale: real): (h: real)
    ensures h > 0.0
  {
    var s := WriteScale(scale);
    HalfIsPositive(if s > 0.0 then s else -s);
    0.5 / (if s > 0.0 then s else -s)
  }

  lemma HalfIsPositive(s: real)
    requires s > 0.0
    ensures 0.5 / s > 0.0
  {
  }

  lemma ReadIsQuotient(raw: int, scale: real)
    ensures ScaledRead(raw, scale) == raw as real / WriteScale(scale)
  {
  }

  /** For a positive scale, being within half a step means being within one half after scaling. */
  lemma HalfStepScaled(raw: real, value: real, s: real)
    requires s > 0.0
    ensures Distance(raw / s, value) <= 0.5 / s <==> Distance(raw, value * s) <= 0.5
  {
    QuotientBelow(raw - value * s, 0.5, s);
    QuotientBelow(value * s - raw, 0.5, s);
    SplitQuotient(raw, value, s);
  }

  lemma SplitQuotient(raw: real, value: real, s: real)
    requires s > 0.0
    ensures (raw - value * s) / s == raw / s - value
    ensures (value * s - raw) / s == value - raw / s
  {
    var q := raw / s;
    assert q * s == raw;
    assert (q - value) * s == raw - value * s;
    assert (value - q) * s == value * s - raw;
  }

  lemma QuotientBelow(x: real, y: real, s: real)
    requires s > 0.0
    ensures x / s <= y / s <==> x <= y
  {
    if x <= y {
      QuotientOrder(x, y, s);
    } else {
      StrictQuotient(y, x, s);
    }
  }

  lemma StrictQuotient(x: real, y: real, s: real)
    requires s > 0.0 && x < y
    ensures x / s < y / s
  {
  }

  lemma NegativeQuotient(x: real, s: real)
    requires s < 0.0
    ensures x / s == (-x) / (-s)
  {
  }

  lemma HalfStepScaledDown(raw: real, value: real, s: real)
    requires s < 0.0
    ensures Distance(raw / s, value) <= 0.5 / -s <==> Distance(raw, value * s) <= 0.5
  {
    var up, back, scaled := -s, -raw, value * s;
    NegativeQuotient(raw, s);
    HalfStepScaled(back, value, up);
    NegativeProduct(value, s, up);
    DistanceNegated(raw, scaled, back, value * up);
  }

  lemma NegativeProduct(x: real, s: real, up: real)
    requires up == -s
    ensures x * up == -(x * s)
  {
  }

  lemma DistanceNegated(x: real, y: real, a: real, b: real)
    requires a == -x && b == -y
    ensures Distance(a, b) == Distance(x, y)
  {
  }

  lemma ReadWithinHalfStep(raw: int, value: real, scale: real)
    ensures WithinHalfStep(ScaledRead(raw, scale), value, scale)
            <==> Distance(raw as real, value * WriteScale(scale)) <= 0.5
  {
    var s := WriteScale(scale);
    ReadIsQuotient(raw, scale);
    if s > 0.0 {
      HalfStepScaled(raw as real, value, s);
    } else {
      HalfStepScaledDown(raw as real, value, s);
    }
  }

  /** A numeric value written and read back comes back within half a raw step exactly when its rounded raw value fits
      the integer type; a sixteen-bit value that does not fit comes back far off without any error. */
  lemma ScaledRoundTrip(value: real, t: DataType, scale: real, order: WordOrder)
    requires t != BoolType
    ensures var r := WriteThenRead(value, t, scale, order);
            r.Ok? && WithinHalfStep(r.value, value, scale) <==> Fits(t, RawOf(value, scale))
    ensures t == Uint16 || t == Int16 ==> WriteThenRead(value, t, scale, order).Ok?
  {
    var raw := RawOf(value, scale);
    DecodeAfterEncode(raw, t, order);
    RoundError(value * WriteScale(scale));
    var words := Encode(raw, t, order);
    if words.Ok? {
      var back := Decode(words.value, t, order).value;
      ReadWithinHalfStep(back, value, scale);
      if back != raw {
        FarApart(back, raw);
      }
    }
  }

  lemma FarApart(a: int, b: int)
    requires a != b && SameWord(a, b)
    ensures Distance(a as real, b as real) >= 65536.0
  {
    if a > b {
      assert a - b >= 0x10000;
    } else {
      assert b - a >= 0x10000;
    }
  }
}

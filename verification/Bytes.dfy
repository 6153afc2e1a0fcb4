/** Bytes as numbers, and the big-endian words built from them. */
module Bytes {

  type Byte = bv8

  function Number(b: Byte): (n: nat)
    ensures n < 256
  {
    b as nat
  }

  lemma NumberSuccessor(b: Byte)
    requires b != 255
    ensures Number(b + 1) == Number(b) + 1
  {
  }

  lemma NumberBelowTop(b: Byte)
    ensures b != 255 <==> Number(b) < 255
  {
  }

  /** The byte with a given number. */
  function ByteOf(n: nat): (b: Byte)
    requires n < 256
    ensures Number(b) == n
  {
    if n == 0 then 0
    else
      var p := ByteOf(n - 1);
      NumberBelowTop(p);
      NumberSuccessor(p);
      p + 1
  }

  lemma NumberIsInjective(a: Byte, b: Byte)
    requires Number(a) == Number(b)
    ensures a == b
  {
    assert (Number(a) as bv8) == a && (Number(b) as bv8) == b;
  }

  function WordBytes(n: nat): (bytes: seq<Byte>)
    requires n < 0x10000
    ensures |bytes| == 2 && WordOf(bytes) == n
  {
    [ByteOf(n / 256), ByteOf(n % 256)]
  }

  function WordOf(bytes: seq<Byte>): (n: nat)
    requires |bytes| == 2
    ensures n < 0x10000
  {
    Number(bytes[0]) * 256 + Number(bytes[1])
  }

  lemma WordBytesOf(bytes: seq<Byte>)
    requires |bytes| == 2
    ensures WordBytes(WordOf(bytes)) == bytes
  {
    var high, low := Number(bytes[0]), Number(bytes[1]);
    WordBytesOfDigits(high, low);
    ByteWithNumber(bytes[0], high);
    ByteWithNumber(bytes[1], low);
    assert bytes == [ByteOf(high), ByteOf(low)];
  }

  lemma WordBytesOfDigits(high: nat, low: nat)
    requires high < 256 && low < 256
    ensures WordBytes(high * 256 + low) == [ByteOf(high), ByteOf(low)]
  {
    TwoDigits(high, low);
  }

  lemma ByteWithNumber(b: Byte, n: nat)
    requires n == Number(b)
    ensures ByteOf(n) == b
  {
    NumberIsInjective(ByteOf(n), b);
  }

  lemma TwoDigits(high: nat, low: nat)
    requires low < 256
    ensures (high * 256 + low) / 256 == high && (high * 256 + low) % 256 == low
  {
  }
}

/** Shift registers over any kind of word: feeding bits one by one, or adding a whole word and shifting. */
module ShiftRegister {

  function Iterate<T>(f: T -> T, x: T, n: nat): T
    decreases n
  {
    if n == 0 then x else Iterate(f, f(x), n - 1)
  }

  lemma {:induction false} IterateLast<T>(f: T -> T, x: T, n: nat)
    ensures Iterate(f, x, n + 1) == f(Iterate(f, x, n))
    decreases n
  {
    if n > 0 {
      IterateLast(f, f(x), n - 1);
    }
  }

  lemma {:induction false} IterateSum<T>(f: T -> T, x: T, m: nat, n: nat)
    ensures Iterate(f, x, m + n) == Iterate(f, Iterate(f, x, m), n)
    decreases m
  {
    if m > 0 {
      IterateSum(f, f(x), m - 1, n);
    }
  }

  /** The register after some bits, fed one at a time. */
  function Feed<T>(step: (T, bool) -> T, register: T, bits: seq<bool>): T
    decreases |bits|
  {
    if bits == [] then register else Feed(step, step(register, bits[0]), bits[1..])
  }

  /** The n lowest bits of a word, lowest first. */
  function LowBits<T>(low: T -> bool, half: T -> T, v: T, n: nat): (bits: seq<bool>)
    ensures |bits| == n
    decreases n
  {
    if n == 0 then [] else [low(v)] + LowBits(low, half, half(v), n - 1)
  }

  lemma {:induction false} FeedAppend<T>(step: (T, bool) -> T, register: T, a: seq<bool>, b: seq<bool>)
    ensures Feed(step, register, a + b) == Feed(step, Feed(step, register, a), b)
    decreases |a|
  {
    if a == [] {
      assert a + b == b;
    } else {
      assert (a + b)[1..] == a[1..] + b;
      FeedAppend(step, step(register, a[0]), a[1..], b);
    }
  }

  /** If one shift of a sum is one fed bit plus a halved word, then n shifts are n fed bits plus what is left. */
  lemma {:induction false} FeedWord<T(!new)>(add: (T, T) -> T, shift: T -> T, step: (T, bool) -> T, low: T -> bool,
                                             half: T -> T, r: T, v: T, n: nat)
    requires forall a, b :: shift(add(a, b)) == add(step(a, low(b)), half(b))
    ensures Iterate(shift, add(r, v), n) == add(Feed(step, r, LowBits(low, half, v, n)), Iterate(half, v, n))
    decreases n
  {
    if n > 0 {
      assert LowBits(low, half, v, n)[1..] == LowBits(low, half, half(v), n - 1);
      FeedWord(add, shift, step, low, half, step(r, low(v)), half(v), n - 1);
    }
  }

  function Added(a: seq<bool>, b: seq<bool>): seq<bool>
    requires |a| == |b|
  {
    seq(|a|, i requires 0 <= i < |a| => a[i] != b[i])
  }

  /** A step that respects addition makes the whole register respect it. */
  lemma {:induction false} FeedLinear<T(!new)>(add: (T, T) -> T, step: (T, bool) -> T, r: T, s: T,
                                               a: seq<bool>, b: seq<bool>)
    requires |a| == |b|
    requires forall x, y, p, q :: step(add(x, y), p != q) == add(step(x, p), step(y, q))
    ensures Feed(step, add(r, s), Added(a, b)) == add(Feed(step, r, a), Feed(step, s, b))
    decreases |a|
  {
    if a != [] {
      assert Added(a, b)[1..] == Added(a[1..], b[1..]);
      FeedLinear(add, step, step(r, a[0]), step(s, b[0]), a[1..], b[1..]);
    }
  }

  /** A step that sends exactly one word to a fixed one keeps doing so when iterated. */
  lemma {:induction false} IterateFixes<T(!new)>(f: T -> T, zero: T, x: T, n: nat)
    requires forall y :: f(y) == zero <==> y == zero
    ensures Iterate(f, x, n) == zero <==> x == zero
    decreases n
  {
    if n > 0 {
      IterateFixes(f, zero, f(x), n - 1);
    }
  }

  lemma {:induction false} LowBitsSplit<T>(low: T -> bool, half: T -> T, v: T, m: nat, n: nat)
    ensures LowBits(low, half, v, m + n) == LowBits(low, half, v, m) + LowBits(low, half, Iterate(half, v, m), n)
    decreases m
  {
    if m > 0 {
      LowBitsSplit(low, half, half(v), m - 1, n);
    }
  }

  lemma {:induction false} LowBitsLinear<T(!new)>(add: (T, T) -> T, low: T -> bool, half: T -> T, v: T, w: T, n: nat)
    requires forall a, b :: low(add(a, b)) == (low(a) != low(b)) && half(add(a, b)) == add(half(a), half(b))
    ensures LowBits(low, half, add(v, w), n) == Added(LowBits(low, half, v, n), LowBits(low, half, w, n))
    decreases n
  {
    if n > 0 {
      LowBitsLinear(add, low, half, half(v), half(w), n - 1);
    }
  }

  /** How many bits are set. */
  function Ones(bits: seq<bool>): nat {
    if bits == [] then 0 else (if bits[0] then 1 else 0) + Ones(bits[1..])
  }

  predicate OddOnes(bits: seq<bool>) { Ones(bits) % 2 == 1 }

  /** If every step adds its bit to the parity of the register, the final parity counts the bits. */
  lemma {:induction false} FeedParity<T(!new)>(step: (T, bool) -> T, parity: T -> bool, r: T, bits: seq<bool>)
    requires forall x, b :: parity(step(x, b)) == (parity(x) != b)
    ensures parity(Feed(step, r, bits)) == (parity(r) != OddOnes(bits))
    decreases |bits|
  {
    if bits != [] {
      FeedParity(step, parity, step(r, bits[0]), bits[1..]);
    }
  }

  lemma {:induction false} AddedParity(a: seq<bool>, b: seq<bool>)
    requires |a| == |b|
    ensures OddOnes(Added(a, b)) == (OddOnes(a) != OddOnes(b))
  {
    if a != [] {
      assert Added(a, b)[1..] == Added(a[1..], b[1..]);
      AddedParity(a[1..], b[1..]);
    }
  }

  lemma {:induction false} FeedFalse<T(!new)>(step: (T, bool) -> T, zero: T, r: T, bits: seq<bool>)
    requires forall x :: step(x, false) == zero <==> x == zero
    requires forall k :: 0 <= k < |bits| ==> !bits[k]
    ensures Feed(step, r, bits) == zero <==> r == zero
    decreases |bits|
  {
    if bits != [] {
      FeedFalse(step, zero, step(r, false), bits[1..]);
    }
  }

  /** After a one, up to width - 1 arbitrary bits cannot bring the register back to zero, and zeros never do. */
  lemma {:induction false} FeedBurst<T(!new)>(step: (T, bool) -> T, zero: T, reached: (T, nat) -> bool, width: nat,
                                              r: T, bits: seq<bool>, used: nat)
    requires forall x :: step(x, false) == zero <==> x == zero
    requires forall x, n: nat :: reached(x, n) ==> x != zero
    requires forall x, n: nat, b :: reached(x, n) && n + 1 < width ==> reached(step(x, b), n + 1)
    requires used < width && reached(r, used)
    requires forall k :: 0 <= k < |bits| && used + k + 1 >= width ==> !bits[k]
    ensures Feed(step, r, bits) != zero
    decreases |bits|
  {
    if used + 1 == width {
      FeedFalse(step, zero, r, bits);
    } else if bits != [] {
      FeedBurst(step, zero, reached, width, step(r, bits[0]), bits[1..], used + 1);
    }
  }

  // ---- Bits of whole frames ----

  function Joined<A>(bits: A -> seq<bool>, frame: seq<A>): seq<bool> {
    if frame == [] then [] else Joined(bits, frame[..|frame| - 1]) + bits(frame[|frame| - 1])
  }

  lemma Reassociate(a: seq<bool>, b: seq<bool>, c: seq<bool>)
    ensures (a + b) + c == a + (b + c)
  {
  }

  lemma JoinedLastTwo<A>(bits: A -> seq<bool>, frame: seq<A>)
    requires |frame| >= 2
    ensures var n := |frame| - 2;
            Joined(bits, frame) == Joined(bits, frame[..n]) + (bits(frame[n]) + bits(frame[n + 1]))
  {
    var n := |frame| - 2;
    var body, a, b := Joined(bits, frame[..n]), bits(frame[n]), bits(frame[n + 1]);
    var front := frame[..n + 1];
    assert front[..n] == frame[..n];
    assert Joined(bits, front) == body + a;
    assert Joined(bits, frame) == Joined(bits, front) + b;
    Reassociate(body, a, b);
  }

  function Combined<A>(xor: (A, A) -> A, frame: seq<A>, error: seq<A>): seq<A>
    requires |frame| == |error|
  {
    seq(|frame|, i requires 0 <= i < |frame| => xor(frame[i], error[i]))
  }

  lemma {:induction false} JoinedLinear<A(!new)>(bits: A -> seq<bool>, xor: (A, A) -> A, frame: seq<A>, error: seq<A>)
    requires |frame| == |error|
    requires forall a, b :: |bits(a)| == |bits(b)| && bits(xor(a, b)) == Added(bits(a), bits(b))
    ensures |Joined(bits, frame)| == |Joined(bits, error)|
    ensures Joined(bits, Combined(xor, frame, error)) == Added(Joined(bits, frame), Joined(bits, error))
  {
    if frame != [] {
      var n := |frame| - 1;
      JoinedLinear(bits, xor, frame[..n], error[..n]);
      assert Combined(xor, frame, error)[..n] == Combined(xor, frame[..n], error[..n]);
    }
  }
}

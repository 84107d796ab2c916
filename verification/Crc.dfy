/** The checksum of the tag receiver: `crc16k` on 16-bit words, against the shift register over GF(2) it runs. */
module Crc {
  import opened Words

  type Bits = seq<bool>

  /** A polynomial over GF(2), as the set of its exponents. */
  type Poly = set<nat>

  /** Polynomial addition: coefficients add modulo 2. */
  function Add(p: Poly, q: Poly): (s: Poly)
    ensures forall e :: e in s <==> (e in p) != (e in q)
  {
    (p - q) + (q - p)
  }

  /** The generator x^16 + x^12 + x^5 + 1 without its leading term. */
  const TAPS: Poly := {0, 5, 12}

  ghost predicate Register(p: Poly) {
    forall e :: e in p ==> e < 16
  }

  predicate StepCoefficient(p: Poly, bit: bool, e: nat) {
    (e > 0 && e - 1 in p) != ((15 in p) != bit && e in TAPS)
  }

  /** Feed one message bit: multiply by x, bring the bit in at x^16, reduce by the generator. */
  function Step(p: Poly, bit: bool): (q: Poly)
    ensures Register(q)
    ensures forall e :: e in q <==> e < 16 && StepCoefficient(p, bit, e)
  {
    set e | 0 <= e < 16 && StepCoefficient(p, bit, e)
  }

  /** The register after a stream of bits, in transmission order. */
  function Feed(p: Poly, bits: Bits): Poly
    decreases |bits|
  {
    if bits == [] then p else Feed(Step(p, bits[0]), bits[1..])
  }

  function Zeros(n: nat): (z: Bits)
    ensures |z| == n && forall i :: 0 <= i < n ==> !z[i]
  {
    seq(n, _ => false)
  }

  /** A byte in transmission order: least significant bit first. */
  function ByteBits(b: u8): (bits: Bits)
    ensures |bits| == 8 && forall i :: 0 <= i < 8 ==> bits[i] == Bit(b, i)
  {
    seq(8, i requires 0 <= i < 8 => Bit(b, i))
  }

  function BlockBits(data: seq<u8>): (bits: Bits)
    ensures |bits| == 8 * |data|
  {
    if data == [] then [] else ByteBits(data[0]) + BlockBits(data[1..])
  }

  /** A 16-bit word as a register: bit i of the word is the coefficient of x^(15-i). */
  function Reg(r: u16): (p: Poly)
    ensures Register(p)
    ensures forall e :: e in p <==> WordCoefficient(r, e)
  {
    set e | 0 <= e < 16 && WordCoefficient(r, e)
  }

  predicate WordCoefficient(r: u16, e: nat) {
    e < 16 && Bit(r, 15 - e)
  }

  /** Up to sixteen bits as the coefficients of x^15 downwards, first bit first. */
  function Head(w: Bits): (p: Poly)
    ensures Register(p)
    ensures forall e :: e in p <==> HeadCoefficient(w, e)
  {
    set e: nat | e < 16 && HeadCoefficient(w, e)
  }

  predicate HeadCoefficient(w: Bits, e: nat) {
    e < 16 && 15 - e < |w| && w[15 - e]
  }

  // ---------------------------------------------------------------------------
  // The method, as the source runs it
  // ---------------------------------------------------------------------------

  /** One turn of the inner loop: the lowest digit is dropped, and the generator's word added if it was 1. */
  function Shift(r: u16): u16 {
    XorWord(r / 2, 0x8408);
    if r % 2 == 1 then Xor(r / 2, 0x8408) else r / 2
  }

  /**
   * `crc16k(crc, mem, len)`. A null buffer yields 0; otherwise the register has been fed every
   * byte, least significant bit first.
   */
  method Crc16k(crc0: u16, mem: array?<u8>, len: u8) returns (crc: u16)
    requires mem != null ==> len <= mem.Length
    ensures mem == null ==> crc == 0
    ensures mem != null ==> Reg(crc) == Feed(Reg(crc0), BlockBits(mem[..len]))
  {
    if mem == null {
      return 0;
    }
    crc := crc0;
    var i := 0;
    assert mem[..0] == [];
    while i < len
      invariant 0 <= i <= len
      invariant Reg(crc) == Feed(Reg(crc0), BlockBits(mem[..i]))
    {
      ghost var p, byte: u8 := Reg(crc), mem[i];
      XorWord(crc, mem[i]);
      XorIsAdd(crc, mem[i]);
      ByteIsHead(byte);
      crc := Xor(crc, mem[i]);
      var k := 0;
      while k < 8
        invariant 0 <= k <= 8
        invariant Reg(crc) == Feed(Add(p, Head(ByteBits(byte))), Zeros(k))
      {
        ShiftIsStep(crc);
        FeedZeroLast(Add(p, Head(ByteBits(byte))), k);
        crc := Shift(crc);
        k := k + 1;
      }
      FeedHead(p, ByteBits(byte));
      assert mem[..i + 1] == mem[..i] + [mem[i]];
      BlockBitsConcat(mem[..i], [mem[i]]);
      assert BlockBits([mem[i]]) == ByteBits(byte);
      FeedConcat(Reg(crc0), BlockBits(mem[..i]), ByteBits(byte));
      i := i + 1;
    }
  }

  // ---------------------------------------------------------------------------
  // Words and registers
  // ---------------------------------------------------------------------------

  /** 0x8408 is 2^15 + 2^10 + 2^3. */
  lemma TapBits(i: nat)
    requires i < 16
    ensures Bit(0x8408, i) == (15 - i in TAPS)
  {
    PowerValues();
    ShiftedBit(0x1081, 3, i);
    assert Pow2(3) == 8 && 0x1081 * Pow2(3) == 0x8408;
    if i > 3 {
      ShiftedBit(0x21, 6, i - 4);
      assert Pow2(6) == 64 && 0x21 * Pow2(6) == 0x840;
      assert Bit(0x1081, i - 3) == Bit(0x840, i - 4);
      if i > 10 {
        ShiftedBit(1, 4, i - 11);
        assert Bit(0x21, i - 10) == Bit(0x10, i - 11);
        if i < 15 {
        } else {
          assert Bit(1, 0);
        }
      } else if i == 10 {
        assert Bit(0x21, 0);
      }
    } else if i == 3 {
      assert Bit(0x1081, 0);
    }
  }

  /** The word-level shift is one register step on a zero bit. */
  lemma ShiftIsStep(r: u16)
    ensures Reg(Shift(r)) == Step(Reg(r), false)
  {
    forall e: nat | e < 16
      ensures WordCoefficient(Shift(r), e) == StepCoefficient(Reg(r), false, e)
    {
      XorBit(r / 2, 0x8408, 15 - e);
      TapBits(15 - e);
      PowerValues();
      if e == 0 {
        assert Pow2(16) == 2 * Pow2(15);
        BitBelow(r / 2, 15);
      } else {
        assert Bit(r / 2, 15 - e) == Bit(r, 16 - e);
      }
      assert Bit(r, 0) == (r % 2 == 1);
    }
  }

  lemma XorIsAdd(a: u16, b: u16)
    requires Xor(a, b) < 0x1_0000
    ensures Reg(Xor(a, b)) == Add(Reg(a), Reg(b))
  {
    forall e: nat | e < 16
      ensures WordCoefficient(Xor(a, b), e) == (WordCoefficient(a, e) != WordCoefficient(b, e))
    {
      XorBit(a, b, 15 - e);
    }
  }

  lemma ByteIsHead(b: u8)
    ensures Reg(b) == Head(ByteBits(b))
  {
    forall e: nat | e < 8
      ensures !WordCoefficient(b, e)
    {
      BitAbove(b, 15 - e, 8);
    }
  }

  lemma {:induction false} BitAbove(x: nat, i: nat, n: nat)
    requires n <= i && n <= 8 && x < Pow2(8) && x < Pow2(n)
    ensures !Bit(x, i)
    decreases n
  {
    if n == 0 {
      ZeroBits(i);
    } else {
      PowerValues();
      assert Pow2(n) <= Pow2(8);
      BitAbove(x / 2, i - 1, n - 1);
    }
  }

  lemma RegInjective(a: u16, b: u16)
    requires Reg(a) == Reg(b)
    ensures a == b
  {
    forall i | 0 <= i < 16
      ensures Bit(a, i) == Bit(b, i)
    {
      assert 15 - i in Reg(a) <==> 15 - i in Reg(b);
    }
    PowerValues();
    BitsDetermine(a, b, 16);
  }

  // ---------------------------------------------------------------------------
  // Streams
  // ---------------------------------------------------------------------------

  lemma {:induction false} FeedConcat(p: Poly, a: Bits, b: Bits)
    ensures Feed(p, a + b) == Feed(Feed(p, a), b)
    decreases |a|
  {
    if a == [] {
      assert a + b == b;
    } else {
      assert (a + b)[1..] == a[1..] + b;
      FeedConcat(Step(p, a[0]), a[1..], b);
    }
  }

  lemma FeedZeroLast(p: Poly, k: nat)
    ensures Feed(p, Zeros(k + 1)) == Step(Feed(p, Zeros(k)), false)
  {
    assert Zeros(k + 1) == Zeros(k) + [false];
    FeedConcat(p, Zeros(k), [false]);
    assert Feed(Feed(p, Zeros(k)), [false]) == Step(Feed(p, Zeros(k)), false);
  }

  lemma {:induction false} BlockBitsConcat(a: seq<u8>, b: seq<u8>)
    ensures BlockBits(a + b) == BlockBits(a) + BlockBits(b)
  {
    if a == [] {
      assert a + b == b;
    } else {
      assert (a + b)[1..] == a[1..] + b;
      BlockBitsConcat(a[1..], b);
    }
  }

  /** Feeding up to sixteen bits one by one is adding them at the head at once and shifting that often. */
  lemma {:induction false} FeedHead(p: Poly, w: Bits)
    requires |w| <= 16
    ensures Feed(p, w) == Feed(Add(p, Head(w)), Zeros(|w|))
    decreases |w|
  {
    if w == [] {
      assert Add(p, Head(w)) == p;
    } else {
      var z := Zeros(|w|);
      assert z[1..] == Zeros(|w| - 1);
      assert Step(Add(p, Head(w)), false) == Add(Step(p, w[0]), Head(w[1..])) by {
        assert 15 in Head(w) <==> w[0];
        forall e: nat | 0 < e < 16
          ensures e - 1 in Head(w) <==> e in Head(w[1..])
        {}
      }
      FeedHead(Step(p, w[0]), w[1..]);
    }
  }
}

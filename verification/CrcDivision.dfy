/** The checksum as a remainder: what the register holds is the message times x^16 modulo the generator. */
module CrcDivision {
  import opened Words
  import opened Crc
  import CrcCode

  /** x^16 + x^12 + x^5 + 1 */
  const GENERATOR: Poly := {0, 5, 12, 16}

  /** The product of a polynomial and x^k. */
  function TimesX(p: Poly, k: nat): (s: Poly)
    ensures forall e :: e in s <==> e >= k && e - k in p
  {
    set e | e in p :: e + k
  }

  /** The product of g and the polynomial whose coefficients are q, highest power first. */
  function Multiple(q: Bits, g: Poly): Poly {
    if q == [] then {}
    else Add(TimesX(Multiple(q[..|q| - 1], g), 1), if q[|q| - 1] then g else {})
  }

  /** The polynomial of a bit string, first bit highest. */
  function PolyOf(bits: Bits): Poly {
    Multiple(bits, {0})
  }

  /** r is the remainder of message * x^16 on division by the generator. */
  ghost predicate IsRemainder(message: Bits, r: Poly) {
    Register(r) && exists q :: Add(TimesX(PolyOf(message), 16), Multiple(q, GENERATOR)) == r
  }

  /** The quotient bits that the register shifts out. */
  function Quotient(message: Bits): Bits {
    if message == [] then []
    else
      var front, last := message[..|message| - 1], message[|message| - 1];
      Quotient(front) + [(15 in Feed({}, front)) != last]
  }

  /** Division invariant: message * x^16 = quotient * generator + register. */
  lemma {:induction false} DivisionInvariant(message: Bits)
    ensures Add(TimesX(PolyOf(message), 16), Multiple(Quotient(message), GENERATOR)) == Feed({}, message)
  {
    if message == [] {
      assert TimesX({}, 16) == {};
    } else {
      hide Feed, Step, TimesX;
      var front, bit := message[..|message| - 1], message[|message| - 1];
      DivisionInvariant(front);
      FeedLast(message);
      var m, r := PolyOf(front), Feed({}, front);
      var q, t := Quotient(front), (15 in r) != bit;
      assert (q + [t])[..|q|] == q;
      CrcCode.FeedRegister(front);
      DivisionStep(m, Multiple(q, GENERATOR), r, bit);
    }
  }

  lemma FeedLast(message: Bits)
    requires message != []
    ensures Feed({}, message) == Step(Feed({}, message[..|message| - 1]), message[|message| - 1])
  {
    var front, bit := message[..|message| - 1], message[|message| - 1];
    assert message == front + [bit];
    FeedConcat({}, front, [bit]);
    assert Feed(Feed({}, front), [bit]) == Step(Feed({}, front), bit);
  }

  lemma DivisionStep(m: Poly, qg: Poly, r: Poly, bit: bool)
    requires Register(r) && Add(TimesX(m, 16), qg) == r
    ensures var m' := Add(TimesX(m, 1), if bit then {0} else {});
            var qg' := Add(TimesX(qg, 1), if (15 in r) != bit then GENERATOR else {});
            Add(TimesX(m', 16), qg') == Step(r, bit)
  {
    hide Add, TimesX, Step;
    var m' := Add(TimesX(m, 1), if bit then {0} else {});
    var qg' := Add(TimesX(qg, 1), if (15 in r) != bit then GENERATOR else {});
    forall e: nat
      ensures e in Add(TimesX(m', 16), qg') <==> e in Step(r, bit)
    {
      if e > 0 {
        assert e - 1 in r <==> (e - 1 in TimesX(m, 16)) != (e - 1 in qg);
      }
    }
  }

  // ---------------------------------------------------------------------------
  // Uniqueness of the remainder
  // ---------------------------------------------------------------------------

  ghost predicate HighOrZero(p: Poly) {
    p != {} ==> exists e :: e in p && e >= 16
  }

  lemma HornerIsHigh(p: Poly, bit: bool)
    requires HighOrZero(p)
    ensures HighOrZero(Add(TimesX(p, 1), if bit then GENERATOR else {}))
  {
    var s := Add(TimesX(p, 1), if bit then GENERATOR else {});
    if p == {} {
      assert TimesX(p, 1) == {};
      if bit { assert 16 in s; }
    } else {
      var e :| e in p && e >= 16;
      assert e + 1 in TimesX(p, 1) && e + 1 in s;
    }
  }

  /** A multiple of the generator other than zero reaches x^16. */
  lemma {:induction false} MultipleIsHigh(q: Bits)
    ensures HighOrZero(Multiple(q, GENERATOR))
  {
    if q != [] {
      hide HighOrZero, TimesX;
      MultipleIsHigh(q[..|q| - 1]);
      HornerIsHigh(Multiple(q[..|q| - 1], GENERATOR), q[|q| - 1]);
    }
  }

  lemma {:induction false} MultipleLinear(a: Bits, b: Bits)
    requires |a| == |b|
    ensures Multiple(CrcCode.XorBits(a, b), GENERATOR) == Add(Multiple(a, GENERATOR), Multiple(b, GENERATOR))
  {
    if a != [] {
      var n := |a| - 1;
      MultipleLinear(a[..n], b[..n]);
      assert CrcCode.XorBits(a, b)[..n] == CrcCode.XorBits(a[..n], b[..n]);
      HornerLinear(Multiple(a[..n], GENERATOR), Multiple(b[..n], GENERATOR), a[n], b[n]);
    }
  }

  lemma HornerLinear(p: Poly, q: Poly, x: bool, y: bool)
    ensures Add(TimesX(Add(p, q), 1), if x != y then GENERATOR else {})
            == Add(Add(TimesX(p, 1), if x then GENERATOR else {}), Add(TimesX(q, 1), if y then GENERATOR else {}))
  {}

  lemma {:induction false} MultiplePad(q: Bits, k: nat)
    ensures Multiple(Zeros(k) + q, GENERATOR) == Multiple(q, GENERATOR)
    decreases k + |q|
  {
    hide TimesX;
    var s := Zeros(k) + q;
    if q != [] {
      assert s[..|s| - 1] == Zeros(k) + q[..|q| - 1];
      MultiplePad(q[..|q| - 1], k);
    } else if k > 0 {
      assert s[..|s| - 1] == Zeros(k - 1) + [];
      MultiplePad([], k - 1);
      assert TimesX({}, 1) == {};
    }
  }

  /** Two multiples that differ by less than x^16 are equal. */
  lemma MultiplesApart(a: Bits, b: Bits)
    requires Register(Add(Multiple(a, GENERATOR), Multiple(b, GENERATOR)))
    ensures Multiple(a, GENERATOR) == Multiple(b, GENERATOR)
  {
    var p, q := Zeros(|b|) + a, Zeros(|a|) + b;
    MultiplePad(a, |b|);
    MultiplePad(b, |a|);
    MultipleLinear(p, q);
    MultipleIsHigh(CrcCode.XorBits(p, q));
    SumEmpty(Multiple(a, GENERATOR), Multiple(b, GENERATOR));
  }

  lemma SumEmpty(p: Poly, q: Poly)
    ensures Add(p, q) == {} <==> p == q
  {
    if Add(p, q) == {} {
      assert forall e :: e in p <==> e in q;
    }
  }

  lemma RemainderUnique(message: Bits, r: Poly, s: Poly)
    requires IsRemainder(message, r) && IsRemainder(message, s)
    ensures r == s
  {
    var m := TimesX(PolyOf(message), 16);
    var a :| Add(m, Multiple(a, GENERATOR)) == r;
    var b :| Add(m, Multiple(b, GENERATOR)) == s;
    SumCancels(m, Multiple(a, GENERATOR), Multiple(b, GENERATOR));
    MultiplesApart(a, b);
  }

  lemma SumCancels(m: Poly, p: Poly, q: Poly)
    requires Register(Add(m, p)) && Register(Add(m, q))
    ensures Register(Add(p, q))
  {
    forall e | e in Add(p, q)
      ensures e < 16
    {
      assert e in Add(m, p) || e in Add(m, q);
    }
  }

  /**
   * The register after a message is the remainder of message * x^16 modulo the generator: it is a
   * remainder, and no other polynomial is.
   */
  lemma RegisterIsRemainder(message: Bits, r: Poly)
    ensures IsRemainder(message, r) <==> r == Feed({}, message)
  {
    DivisionInvariant(message);
    CrcCode.FeedRegister(message);
    assert IsRemainder(message, Feed({}, message));
    if IsRemainder(message, r) {
      RemainderUnique(message, r, Feed({}, message));
    }
  }

  /** The stored checksum is accepted exactly when it is that remainder. */
  lemma AcceptedIsRemainder(data: seq<u8>)
    requires |data| >= 10
    ensures CrcCode.Accepted(data) <==> IsRemainder(BlockBits(data[..8]), Reg(CrcCode.StoredChecksum(data)))
  {
    RegisterIsRemainder(BlockBits(data[..8]), Reg(CrcCode.StoredChecksum(data)));
  }

  // ---------------------------------------------------------------------------
  // The distance and burst bounds are the best possible
  // ---------------------------------------------------------------------------

  lemma {:induction false} WeightConcat(a: Bits, b: Bits)
    ensures CrcCode.Weight(a + b) == CrcCode.Weight(a) + CrcCode.Weight(b)
  {
    if a == [] {
      assert a + b == b;
    } else {
      assert (a + b)[1..] == a[1..] + b;
      WeightConcat(a[1..], b);
    }
  }

  /** Seven zero bytes, then the generator itself. */
  ghost predicate Spike(a: seq<u8>) {
    |a| == 10 && (forall i :: 0 <= i < 7 ==> a[i] == 0) && a[7] == 0x80 && a[8] == 0x08 && a[9] == 0x84
  }

  ghost predicate Silent(z: seq<u8>) {
    |z| == 10 && forall i :: 0 <= i < 10 ==> z[i] == 0
  }

  /**
   * The bounds on distance and burst length cannot be improved: an accepted block and the all-zero
   * one differ in exactly four bits, inside a window of seventeen.
   */
  lemma BoundsAreTight(a: seq<u8>, z: seq<u8>)
    requires Spike(a) && Silent(z)
    ensures CrcCode.Accepted(a) && CrcCode.Accepted(z)
    ensures CrcCode.Distance(BlockBits(a), BlockBits(z)) == 4
    ensures BlockBits(a)[..63] == BlockBits(z)[..63]
  {
    SpikeAccepted(a);
    SilentAccepted(z);
    SpikeWeight(a);
    SpikePrefix(a);
    assert a == a[..8] + a[8..];
    BlockBitsConcat(a[..8], a[8..]);
    ZeroBlock(z);
    var x := BlockBits(a);
    assert CrcCode.XorBits(x, Zeros(80)) == x;
    assert Zeros(80)[..63] == Zeros(63);
  }

  lemma SpikeWeight(a: seq<u8>)
    requires Spike(a)
    ensures CrcCode.Weight(BlockBits(a)) == 4
  {
    SpikeBits(a);
    WeightSum(Zeros(56), ByteBits(0x80), ByteBits(0x08), ByteBits(0x84));
    CrcCode.WeightZero(Zeros(56));
    ByteWeights();
  }

  lemma WeightSum(a: Bits, b: Bits, c: Bits, d: Bits)
    ensures CrcCode.Weight(a + (b + (c + d))) == CrcCode.Weight(a) + CrcCode.Weight(b) + CrcCode.Weight(c) + CrcCode.Weight(d)
  {
    WeightConcat(a, b + (c + d));
    WeightConcat(b, c + d);
    WeightConcat(c, d);
  }

  lemma SpikeBits(a: seq<u8>)
    requires Spike(a)
    ensures BlockBits(a) == Zeros(56) + (ByteBits(0x80) + (ByteBits(0x08) + ByteBits(0x84)))
  {
    var z := a[..7];
    assert a == z + [0x80, 0x08, 0x84];
    BlockBitsConcat(z, [0x80, 0x08, 0x84]);
    ZeroBlock(z);
    ThreeBytes(0x80, 0x08, 0x84);
  }

  lemma SpikeAccepted(a: seq<u8>)
    requires Spike(a)
    ensures CrcCode.Accepted(a)
  {
    SpikeBits(a);
    SpikePrefix(a);
    FeedConcat({}, Zeros(63), [true]);
    CrcCode.FeedZeros(Zeros(63));
    assert Feed({}, [true]) == Step({}, true) == TAPS;
    CrcCode.RegOne();
  }

  lemma SpikePrefix(a: seq<u8>)
    requires Spike(a)
    ensures BlockBits(a[..8]) == Zeros(63) + [true]
  {
    var z := a[..7];
    assert a[..8] == z + [0x80];
    BlockBitsConcat(z, [0x80]);
    ZeroBlock(z);
    assert BlockBits([0x80]) == ByteBits(0x80);
    assert ByteBits(0x80) == Zeros(7) + [true] by { ByteValues(); }
  }

  lemma SilentAccepted(z: seq<u8>)
    requires Silent(z)
    ensures CrcCode.Accepted(z)
  {
    ZeroBlock(z[..8]);
    CrcCode.FeedZeros(BlockBits(z[..8]));
    ZeroRegister();
  }

  lemma ThreeBytes(x: u8, y: u8, w: u8)
    ensures BlockBits([x, y, w]) == ByteBits(x) + (ByteBits(y) + ByteBits(w))
  {
    assert [x, y, w][1..] == [y, w] && [y, w][1..] == [w] && [w][1..] == [];
    assert BlockBits([w]) == ByteBits(w);
    assert BlockBits([y, w]) == ByteBits(y) + ByteBits(w);
  }

  lemma ZeroRegister()
    ensures Reg(0) == {}
  {
    forall e: nat | e < 16
      ensures !WordCoefficient(0, e)
    {
      ZeroBits(15 - e);
    }
  }

  lemma {:induction false} ZeroBlock(z: seq<u8>)
    requires forall i :: 0 <= i < |z| ==> z[i] == 0
    ensures BlockBits(z) == Zeros(8 * |z|)
  {
    if z != [] {
      ZeroBlock(z[1..]);
      forall i | 0 <= i < 8
        ensures !Bit(0, i)
      {
        ZeroBits(i);
      }
    }
  }

  lemma ByteValues()
    ensures ByteBits(0x80) == [false, false, false, false, false, false, false, true]
    ensures ByteBits(0x08) == [false, false, false, true, false, false, false, false]
    ensures ByteBits(0x84) == [false, false, true, false, false, false, false, true]
  {
    assert Pow2(7) == 0x80 && Pow2(3) == 0x08 && Pow2(2) == 4 && Pow2(4) == 0x10;
    forall i | 0 <= i < 8
      ensures Bit(0x80, i) == (i == 7) && Bit(0x08, i) == (i == 3) && Bit(0x84, i) == (i == 2 || i == 7)
    {
      PowerBit(7, i);
      PowerBit(3, i);
      ShiftedBit(0x21, 2, i);
      if i > 2 {
        PowerBit(4, i - 3);
        assert Bit(0x21, i - 2) == Bit(0x10, i - 3);
      }
    }
  }

  lemma {:induction false} WeightSingle(e: Bits, i: nat)
    requires i < |e| && forall j :: 0 <= j < |e| ==> e[j] == (j == i)
    ensures CrcCode.Weight(e) == 1
  {
    if i == 0 { CrcCode.WeightZero(e[1..]); } else { WeightSingle(e[1..], i - 1); }
  }

  lemma ByteWeights()
    ensures CrcCode.Weight(ByteBits(0x80)) == 1 && CrcCode.Weight(ByteBits(0x08)) == 1 && CrcCode.Weight(ByteBits(0x84)) == 2
  {
    hide CrcCode.Weight;
    ByteValues();
    var b := ByteBits(0x84);
    WeightSingle(ByteBits(0x80), 7);
    WeightSingle(ByteBits(0x08), 3);
    WeightSingle(b[..5], 2);
    WeightSingle(b[5..], 2);
    WeightConcat(b[..5], b[5..]);
    assert b == b[..5] + b[5..];
  }
}

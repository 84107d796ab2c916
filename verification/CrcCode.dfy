/** What the checksum detects: `crc16k` as polynomial division, and the distance of the code it accepts. */
module CrcCode {
  import opened Words
  import opened Crc

  /** Bytes 8 and 9, little endian: the checksum field of the packed tag. */
  function StoredChecksum(data: seq<u8>): u16
    requires |data| >= 10
  {
    var lo: nat, hi: nat := data[8], data[9];
    lo + 0x100 * hi
  }

  /** The comparison that ends `getData`: the register after eight bytes is the stored checksum. */
  ghost predicate Accepted(data: seq<u8>)
    requires |data| >= 10
  {
    Feed({}, BlockBits(data[..8])) == Reg(StoredChecksum(data))
  }

  // ---------------------------------------------------------------------------
  // The register is linear, and no input merges two registers
  // ---------------------------------------------------------------------------

  function XorBits(a: Bits, b: Bits): (e: Bits)
    requires |a| == |b|
    ensures |e| == |a|
    ensures forall i :: 0 <= i < |a| ==> e[i] == (a[i] != b[i])
  {
    seq(|a|, i requires 0 <= i < |a| == |b| => a[i] != b[i])
  }

  lemma {:induction false} FeedLinear(p: Poly, q: Poly, a: Bits, b: Bits)
    requires |a| == |b|
    ensures Feed(Add(p, q), XorBits(a, b)) == Add(Feed(p, a), Feed(q, b))
    decreases |a|
  {
    if a != [] {
      var e := XorBits(a, b);
      StepLinear(p, q, a[0], b[0]);
      FeedLinear(Step(p, a[0]), Step(q, b[0]), a[1..], b[1..]);
      assert e[1..] == XorBits(a[1..], b[1..]);
    }
  }

  lemma StepLinear(p: Poly, q: Poly, a: bool, b: bool)
    ensures Step(Add(p, q), a != b) == Add(Step(p, a), Step(q, b))
  {}

  lemma StepInjective(p: Poly, q: Poly, bit: bool)
    requires Register(p) && Register(q)
    requires Step(p, bit) == Step(q, bit)
    ensures p == q
  {
    var s, t := Step(p, bit), Step(q, bit);
    assert 0 in s <==> (15 in p) != bit;
    assert 0 in t <==> (15 in q) != bit;
    forall e: nat
      ensures e in p <==> e in q
    {
      if e < 15 {
        assert e + 1 in s <==> StepCoefficient(p, bit, e + 1);
        assert e + 1 in t <==> StepCoefficient(q, bit, e + 1);
      }
    }
  }

  /** Two registers that differ before a stream still differ after it. */
  lemma {:induction false} FeedInjective(p: Poly, q: Poly, bits: Bits)
    requires Register(p) && Register(q)
    requires Feed(p, bits) == Feed(q, bits)
    ensures p == q
    decreases |bits|
  {
    if bits != [] {
      FeedInjective(Step(p, bits[0]), Step(q, bits[0]), bits[1..]);
      StepInjective(p, q, bits[0]);
    }
  }

  lemma {:induction false} FeedZeros(z: Bits)
    requires forall i :: 0 <= i < |z| ==> !z[i]
    ensures Feed({}, z) == {}
    decreases |z|
  {
    if z != [] {
      assert Step({}, false) == {};
      FeedZeros(z[1..]);
    }
  }

  // ---------------------------------------------------------------------------
  // The check passes exactly when all ten bytes leave the register empty
  // ---------------------------------------------------------------------------

  lemma {:induction false} BitJoin(lo: nat, hi: nat, n: nat, i: nat)
    requires lo < Pow2(n)
    ensures Bit(lo + Pow2(n) * hi, i) == if i < n then Bit(lo, i) else Bit(hi, i - n)
    decreases n
  {
    if n > 0 {
      var t := Pow2(n - 1) * hi;
      assert Pow2(n) * hi == 2 * t;
      if i > 0 {
        BitJoin(lo / 2, hi, n - 1, i - 1);
        assert (lo + 2 * t) / 2 == lo / 2 + t;
      }
    }
  }

  lemma StoredIsHead(data: seq<u8>)
    requires |data| >= 10
    ensures Reg(StoredChecksum(data)) == Head(BlockBits(data[8..10]))
  {
    var w := BlockBits(data[8..10]);
    assert data[8..10] == [data[8]] + [data[9]];
    BlockBitsConcat([data[8]], [data[9]]);
    assert w == ByteBits(data[8]) + ByteBits(data[9]);
    PowerValues();
    forall e: nat | e < 16
      ensures WordCoefficient(StoredChecksum(data), e) == HeadCoefficient(w, e)
    {
      BitJoin(data[8], data[9], 8, 15 - e);
    }
  }

  /** Running the checksum over all ten bytes leaves nothing exactly when the check passes. */
  lemma AcceptedIsZeroResidue(data: seq<u8>)
    requires |data| >= 10
    ensures Accepted(data) <==> Feed({}, BlockBits(data[..10])) == {}
  {
    var p, w := Feed({}, BlockBits(data[..8])), BlockBits(data[8..10]);
    assert data[..10] == data[..8] + data[8..10];
    BlockBitsConcat(data[..8], data[8..10]);
    FeedConcat({}, BlockBits(data[..8]), w);
    FeedHead(p, w);
    StoredIsHead(data);
    var s := Add(p, Head(w));
    FeedRegister(BlockBits(data[..8]));
    FeedZeros(Zeros(16));
    if Feed(s, Zeros(16)) == {} {
      FeedInjective(s, {}, Zeros(16));
      assert forall e :: e in p <==> e in Head(w);
    }
    if p == Head(w) {
      assert s == {};
    }
  }

  lemma {:induction false} FeedRegister(bits: Bits)
    ensures Register(Feed({}, bits))
  {
    if bits != [] {
      FeedStaysRegister(Step({}, bits[0]), bits[1..]);
    }
  }

  lemma {:induction false} FeedStaysRegister(p: Poly, bits: Bits)
    requires Register(p)
    ensures Register(Feed(p, bits))
    decreases |bits|
  {
    if bits != [] {
      FeedStaysRegister(Step(p, bits[0]), bits[1..]);
    }
  }

  // ---------------------------------------------------------------------------
  // Errors: the difference of two accepted blocks
  // ---------------------------------------------------------------------------

  function Weight(e: Bits): nat {
    if e == [] then 0 else (if e[0] then 1 else 0) + Weight(e[1..])
  }

  /** Number of positions in which two blocks differ. */
  function Distance(a: Bits, b: Bits): nat
    requires |a| == |b|
  {
    Weight(XorBits(a, b))
  }

  lemma DifferenceIsCodeword(a: seq<u8>, b: seq<u8>)
    requires |a| == |b| == 10 && Accepted(a) && Accepted(b)
    ensures Feed({}, XorBits(BlockBits(a), BlockBits(b))) == {}
  {
    assert a[..10] == a && b[..10] == b;
    AcceptedIsZeroResidue(a);
    AcceptedIsZeroResidue(b);
    FeedLinear({}, {}, BlockBits(a), BlockBits(b));
    assert Add({}, {}) == {};
  }

  lemma {:induction false} BlockBitsInjective(a: seq<u8>, b: seq<u8>)
    requires |a| == |b| && BlockBits(a) == BlockBits(b)
    ensures a == b
  {
    if a != [] {
      var x, y := BlockBits(a), BlockBits(b);
      assert x[..8] == ByteBits(a[0]) && y[..8] == ByteBits(b[0]);
      assert x[8..] == BlockBits(a[1..]) && y[8..] == BlockBits(b[1..]);
      BlockBitsInjective(a[1..], b[1..]);
      forall i | 0 <= i < 8
        ensures Bit(a[0], i) == Bit(b[0], i)
      {
        assert ByteBits(a[0])[i] == ByteBits(b[0])[i];
      }
      PowerValues();
      BitsDetermine(a[0], b[0], 8);
      assert a == [a[0]] + a[1..] && b == [b[0]] + b[1..];
    }
  }

  /** Parity of the coefficients below x^n. */
  predicate Parity(p: Poly, n: nat) {
    n > 0 && ((n - 1 in p) != Parity(p, n - 1))
  }

  lemma {:induction false} StepParity(p: Poly, bit: bool, n: nat)
    requires n <= 16
    ensures Parity(Step(p, bit), n) == ((n > 0 && Parity(p, n - 1))
              != ((15 in p) != bit && (0 < n <= 5 || n > 12)))
  {
    if n > 0 { StepParity(p, bit, n - 1); }
  }

  /** The generator has four terms, so the register keeps the parity of what was fed. */
  lemma {:induction false} FeedParity(p: Poly, bits: Bits)
    ensures Parity(Feed(p, bits), 16) == (Parity(p, 16) != (Weight(bits) % 2 == 1))
    decreases |bits|
  {
    if bits != [] {
      StepParity(p, bits[0], 16);
      FeedParity(Step(p, bits[0]), bits[1..]);
    }
  }

  lemma {:induction false} EmptyParity(n: nat)
    ensures !Parity({}, n)
  {
    if n > 0 { EmptyParity(n - 1); }
  }

  lemma XorEven(a: nat, c: nat)
    ensures Xor(a, 2 * c) == a % 2 + 2 * Xor(a / 2, c)
  {
    XorDigit(a, 2 * c);
    assert (2 * c) / 2 == c;
  }

  lemma XorOdd(a: nat, c: nat)
    ensures Xor(a, 2 * c + 1) == 1 - a % 2 + 2 * Xor(a / 2, c)
  {
    XorDigit(a, 2 * c + 1);
    assert (2 * c + 1) / 2 == c;
  }

  lemma XorSkip(a: nat, c: nat)
    ensures Xor(a, 8 * c) == a % 8 + 8 * Xor(a / 8, c)
  {
    hide Xor;
    XorEven(a, 4 * c);
    XorEven(a / 2, 2 * c);
    XorEven(a / 4, c);
    assert 8 * c == 2 * (4 * c) && 4 * c == 2 * (2 * c);
    assert a / 2 / 2 == a / 4 && a / 4 / 2 == a / 8;
    assert a % 8 == a % 2 + 2 * (a / 2 % 2) + 4 * (a / 4 % 2);
  }

  lemma XorGeneratorHigh(c: nat)
    requires c < 0x20
    ensures Xor(c, 0x21) == c + 0x20 + (if c % 2 == 1 then -1 else 1)
  {
    assert Xor(0, 1) == 1;
    hide Xor;
    XorOdd(c, 0x10);
    XorSkip(c / 2, 2);
    XorEven(c / 16, 1);
    assert c / 2 / 8 == c / 16 && c / 16 / 2 == 0;
    assert c / 2 == c / 2 % 8 + 8 * (c / 16) && c / 16 == c / 16 % 2;
  }

  lemma XorGeneratorMiddle(b: nat)
    requires b < 0x1000
    ensures Xor(b, 0x1081) == b + 0x1000 + (if b / 0x80 % 2 == 1 then -0x80 else 0x80) + (if b % 2 == 1 then -1 else 1)
  {
    hide Xor;
    var d := b / 2;
    XorOdd(b, 0x840);
    XorSkip(d, 0x108);
    XorSkip(d / 8, 0x21);
    assert d / 8 / 8 == d / 64 && d / 64 == b / 0x80;
    XorGeneratorHigh(d / 64);
    assert d == d % 8 + 8 * (d / 8) && d / 8 == d / 8 % 8 + 8 * (d / 64);
  }

  /** Adding the generator word touches binary digits 3, 10 and 15 only. */
  lemma XorGenerator(a: nat)
    requires a < 0x8000
    ensures Xor(a, 0x8408) == a + 0x8000 + (if a / 0x400 % 2 == 1 then -0x400 else 0x400) + (if a / 8 % 2 == 1 then -8 else 8)
  {
    hide Xor;
    XorSkip(a, 0x1081);
    XorGeneratorMiddle(a / 8);
    assert a / 8 / 0x80 == a / 0x400;
  }

  /** `Shift` written with sums, so that it can be evaluated. */
  function ShiftValue(r: int): int {
    if r % 2 == 0 then r / 2
    else r / 2 + 0x8000 + (if r / 0x800 % 2 == 1 then -0x400 else 0x400) + (if r / 16 % 2 == 1 then -8 else 8)
  }

  lemma ShiftIsValue(r: u16)
    ensures Shift(r) == ShiftValue(r)
  {
    hide Xor;
    XorGenerator(r / 2);
    assert r / 2 / 0x400 == r / 0x800 && r / 2 / 8 == r / 16;
  }

  /** The orbit of r under the register avoids 1 for n more shifts. */
  predicate AvoidsOne(r: int, n: nat)
    decreases n
  {
    r != 1 && (n == 0 || AvoidsOne(ShiftValue(r), n - 1))
  }

  lemma Prepend(r: int, s: int, n: nat)
    requires r != 1 && s == ShiftValue(r) && AvoidsOne(s, n)
    ensures AvoidsOne(r, n + 1)
  {}

  /** The powers x^16, ..., x^94 modulo the generator: none is x^15, the register 1. The last is 0x584E. */
  lemma OrbitAvoidsOne(m: nat, n: nat)
    requires AvoidsOne(0x584E, m) && n <= m + 78
    ensures AvoidsOne(0x8408, n)
  {
    hide AvoidsOne;
    Orbit0(m + 0);
    Orbit1(m + 16);
    Orbit2(m + 32);
    Orbit3(m + 48);
    Orbit4(m + 64);
    AvoidsMonotone(0x8408, m + 78, n);
  }

  lemma Orbit0(n: nat)
    requires AvoidsOne(0x584E, n)
    ensures AvoidsOne(0x0B6F, n + 16)
  {
    hide AvoidsOne;
    Prepend(0xB09C, 0x584E, n + 0); Prepend(0x6929, 0xB09C, n + 1); Prepend(0xD252, 0x6929, n + 2); Prepend(0xACB5, 0xD252, n + 3);
    Prepend(0x517B, 0xACB5, n + 4); Prepend(0xA2F6, 0x517B, n + 5); Prepend(0x4DFD, 0xA2F6, n + 6); Prepend(0x9BFA, 0x4DFD, n + 7);
    Prepend(0x3FE5, 0x9BFA, n + 8); Prepend(0x7FCA, 0x3FE5, n + 9); Prepend(0xFF94, 0x7FCA, n + 10); Prepend(0xF739, 0xFF94, n + 11);
    Prepend(0xE663, 0xF739, n + 12); Prepend(0xC4D7, 0xE663, n + 13); Prepend(0x81BF, 0xC4D7, n + 14); Prepend(0x0B6F, 0x81BF, n + 15);
  }

  lemma Orbit1(n: nat)
    requires AvoidsOne(0x0B6F, n)
    ensures AvoidsOne(0x0856, n + 16)
  {
    hide AvoidsOne;
    Prepend(0x16DE, 0x0B6F, n + 0); Prepend(0x2DBC, 0x16DE, n + 1); Prepend(0x5B78, 0x2DBC, n + 2); Prepend(0xB6F0, 0x5B78, n + 3);
    Prepend(0x65F1, 0xB6F0, n + 4); Prepend(0xCBE2, 0x65F1, n + 5); Prepend(0x9FD5, 0xCBE2, n + 6); Prepend(0x37BB, 0x9FD5, n + 7);
    Prepend(0x6F76, 0x37BB, n + 8); Prepend(0xDEEC, 0x6F76, n + 9); Prepend(0xB5C9, 0xDEEC, n + 10); Prepend(0x6383, 0xB5C9, n + 11);
    Prepend(0xC706, 0x6383, n + 12); Prepend(0x861D, 0xC706, n + 13); Prepend(0x042B, 0x861D, n + 14); Prepend(0x0856, 0x042B, n + 15);
  }

  lemma Orbit2(n: nat)
    requires AvoidsOne(0x0856, n)
    ensures AvoidsOne(0x3976, n + 16)
  {
    hide AvoidsOne;
    Prepend(0x10AC, 0x0856, n + 0); Prepend(0x2158, 0x10AC, n + 1); Prepend(0x42B0, 0x2158, n + 2); Prepend(0x8560, 0x42B0, n + 3);
    Prepend(0x02D1, 0x8560, n + 4); Prepend(0x05A2, 0x02D1, n + 5); Prepend(0x0B44, 0x05A2, n + 6); Prepend(0x1688, 0x0B44, n + 7);
    Prepend(0x2D10, 0x1688, n + 8); Prepend(0x5A20, 0x2D10, n + 9); Prepend(0xB440, 0x5A20, n + 10); Prepend(0x6091, 0xB440, n + 11);
    Prepend(0xC122, 0x6091, n + 12); Prepend(0x8A55, 0xC122, n + 13); Prepend(0x1CBB, 0x8A55, n + 14); Prepend(0x3976, 0x1CBB, n + 15);
  }

  lemma Orbit3(n: nat)
    requires AvoidsOne(0x3976, n)
    ensures AvoidsOne(0x33B0, n + 16)
  {
    hide AvoidsOne;
    Prepend(0x72EC, 0x3976, n + 0); Prepend(0xE5D8, 0x72EC, n + 1); Prepend(0xC3A1, 0xE5D8, n + 2); Prepend(0x8F53, 0xC3A1, n + 3);
    Prepend(0x16B7, 0x8F53, n + 4); Prepend(0x2D6E, 0x16B7, n + 5); Prepend(0x5ADC, 0x2D6E, n + 6); Prepend(0xB5B8, 0x5ADC, n + 7);
    Prepend(0x6361, 0xB5B8, n + 8); Prepend(0xC6C2, 0x6361, n + 9); Prepend(0x8595, 0xC6C2, n + 10); Prepend(0x033B, 0x8595, n + 11);
    Prepend(0x0676, 0x033B, n + 12); Prepend(0x0CEC, 0x0676, n + 13); Prepend(0x19D8, 0x0CEC, n + 14); Prepend(0x33B0, 0x19D8, n + 15);
  }

  lemma Orbit4(n: nat)
    requires AvoidsOne(0x33B0, n)
    ensures AvoidsOne(0x8408, n + 14)
  {
    hide AvoidsOne;
    Prepend(0x6760, 0x33B0, n + 0); Prepend(0xCEC0, 0x6760, n + 1); Prepend(0x9591, 0xCEC0, n + 2); Prepend(0x2333, 0x9591, n + 3);
    Prepend(0x4666, 0x2333, n + 4); Prepend(0x8CCC, 0x4666, n + 5); Prepend(0x1189, 0x8CCC, n + 6); Prepend(0x2312, 0x1189, n + 7);
    Prepend(0x4624, 0x2312, n + 8); Prepend(0x8C48, 0x4624, n + 9); Prepend(0x1081, 0x8C48, n + 10); Prepend(0x2102, 0x1081, n + 11);
    Prepend(0x4204, 0x2102, n + 12); Prepend(0x8408, 0x4204, n + 13);
  }

  /** After a first error bit, a single second one within the orbit's reach cannot cancel it. */
  lemma {:induction false} OneMoreBit(r: u16, e: Bits)
    requires |e| > 0 && AvoidsOne(r, |e| - 1) && Weight(e) == 1
    ensures Feed(Reg(r), e) != {}
    decreases |e|
  {
    if e[0] {
      if Feed(Reg(r), e) == {} {
        WeightZero(e[1..]);
        FeedZeros(e[1..]);
        FeedInjective(Step(Reg(r), true), {}, e[1..]);
        RegOne();
        assert Step({15}, true) == {};
        StepInjective(Reg(r), {15}, true);
        RegInjective(r, 1);
      }
    } else {
      ShiftIsStep(r);
      ShiftIsValue(r);
      if |e| > 1 { OneMoreBit(Shift(r), e[1..]); }
    }
  }

  lemma RegOne()
    ensures Reg(1) == {15} && Reg(0x8408) == TAPS
  {
    forall e: nat | e < 16
      ensures WordCoefficient(1, e) == (e == 15)
      ensures WordCoefficient(0x8408, e) == (e in TAPS)
    {
      if e < 15 { ZeroBits(14 - e); }
      TapBits(15 - e);
    }
  }

  lemma {:induction false} WeightZero(e: Bits)
    ensures Weight(e) == 0 <==> forall i :: 0 <= i < |e| ==> !e[i]
  {
    if e != [] {
      WeightZero(e[1..]);
      if Weight(e) == 0 {
        forall i | 0 <= i < |e|
          ensures !e[i]
        {
          if i > 0 { assert e[1..][i - 1] == e[i]; }
        }
      } else if !e[0] {
        var j :| 0 <= j < |e[1..]| && e[1..][j];
        assert e[j + 1];
      }
    }
  }

  lemma {:induction false} AvoidsMonotone(r: int, n: nat, m: nat)
    requires m <= n && AvoidsOne(r, n)
    ensures AvoidsOne(r, m)
    decreases m
  {
    if m > 0 { AvoidsMonotone(ShiftValue(r), n - 1, m - 1); }
  }

  lemma {:induction false} TwoBits(e: Bits)
    requires |e| <= 80 && Weight(e) == 2
    ensures Feed({}, e) != {}
    decreases |e|
  {
    if e[0] {
      assert Step({}, true) == TAPS;
      RegOne();
      if |e| > 1 {
        OrbitAvoidsOne(0, |e| - 2);
        OneMoreBit(0x8408, e[1..]);
      }
    } else {
      assert Step({}, false) == {};
      TwoBits(e[1..]);
    }
  }

  /** Two different blocks that both pass the check differ in at least four bits. */
  lemma MinimumDistance(a: seq<u8>, b: seq<u8>)
    requires |a| == |b| == 10 && Accepted(a) && Accepted(b) && a != b
    ensures Distance(BlockBits(a), BlockBits(b)) >= 4
  {
    var x, y := BlockBits(a), BlockBits(b);
    var e := XorBits(x, y);
    DifferenceIsCodeword(a, b);
    EmptyParity(16);
    FeedParity({}, e);
    if Weight(e) == 0 {
      WeightZero(e);
      assert forall i :: 0 <= i < |x| ==> x[i] == y[i];
      BlockBitsInjective(a, b);
    }
    if Weight(e) == 2 { TwoBits(e); }
  }

  // ---------------------------------------------------------------------------
  // Bursts
  // ---------------------------------------------------------------------------

  /** Two different blocks that both pass the check never agree outside one window of sixteen bits. */
  lemma BurstDetected(a: seq<u8>, b: seq<u8>, i: nat)
    requires |a| == |b| == 10 && Accepted(a) && Accepted(b)
    requires i + 16 <= 80
    requires BlockBits(a)[..i] == BlockBits(b)[..i]
    requires BlockBits(a)[i + 16..] == BlockBits(b)[i + 16..]
    ensures a == b
  {
    var x, y := BlockBits(a), BlockBits(b);
    var e := XorBits(x, y);
    var before, w, after := e[..i], e[i..i + 16], e[i + 16..];
    assert e == before + w + after;
    DifferenceIsCodeword(a, b);
    forall j | 0 <= j < i
      ensures !before[j]
    {
      assert x[..i][j] == y[..i][j];
    }
    forall j | 0 <= j < |after|
      ensures !after[j]
    {
      assert x[i + 16..][j] == y[i + 16..][j];
    }
    FeedConcat({}, before + w, after);
    FeedConcat({}, before, w);
    FeedZeros(before);
    FeedZeros(after);
    FeedRegister(w);
    FeedInjective(Feed({}, w), {}, after);
    WindowIsZero(w);
    assert forall j :: 0 <= j < 80 ==> !e[j];
    assert x == y;
    BlockBitsInjective(a, b);
  }

  /** Sixteen bits that leave the register empty are all zero. */
  lemma WindowIsZero(w: Bits)
    requires |w| == 16 && Feed({}, w) == {}
    ensures forall j :: 0 <= j < 16 ==> !w[j]
  {
    FeedHead({}, w);
    FeedZeros(Zeros(16));
    FeedInjective(Add({}, Head(w)), {}, Zeros(16));
    forall j | 0 <= j < 16
      ensures !w[j]
    {
      assert 15 - j !in Head(w);
      assert HeadCoefficient(w, 15 - j) == w[j];
    }
  }
}

/** What a telegram's bytes mean: the packed tag, its hexadecimal serial, and the one-slot mailbox. */
module Tag {
  import opened Words
  import opened Results
  import opened Wire

  /** A little-endian number. */
  function Little(bytes: seq<u8>): nat {
    if bytes == [] then 0 else bytes[0] + 0x100 * Little(bytes[1..])
  }

  // The packed bit fields of the first eight bytes, lowest bits first.

  function Id(data: seq<u8>): nat
    requires |data| >= 8
  {
    Little(data[..8]) % 0x40_0000_0000
  }

  function Country(data: seq<u8>): nat
    requires |data| >= 8
  {
    Little(data[..8]) / 0x40_0000_0000 % 0x400
  }

  function Flags(data: seq<u8>): nat
    requires |data| >= 8
  {
    Little(data[..8]) / 0x1_0000_0000_0000
  }

  const DIGITS: string := "0123456789ABCDEF"

  /** The serial of a tag: sixteen upper-case hexadecimal digits, two for each of the first eight bytes. */
  function Hex(data: seq<u8>): (s: string)
    requires |data| >= 8
    ensures |s| == 16
  {
    seq(16, k requires 0 <= k < 16 && |data| >= 8 => HexDigit(data[k / 2], k % 2))
  }

  /** High digit first. */
  function HexDigit(b: u8, k: int): char
    requires 0 <= k < 2
  {
    DIGITS[if k == 0 then b / 0x10 % 0x10 else b % 0x10]
  }

  /** `tag_to_hex`: writes the serial and a terminating NUL. */
  method TagToHex(tag: seq<u8>, out: array<char>)
    requires |tag| >= 8 && out.Length >= 17
    modifies out
    ensures out[..16] == Hex(tag) && out[16] == '\0'
    ensures forall k :: 17 <= k < out.Length ==> out[k] == old(out[k])
  {
    var i := 0;
    while i < 8
      invariant 0 <= i <= 8
      invariant forall k :: 0 <= k < 2 * i ==> out[k] == HexDigit(tag[k / 2], k % 2)
      invariant forall k :: 17 <= k < out.Length ==> out[k] == old(out[k])
    {
      out[2 * i] := HexDigit(tag[i], 0);
      out[2 * i + 1] := HexDigit(tag[i], 1);
      i := i + 1;
    }
    out[16] := '\0';
  }

  // ---------------------------------------------------------------------------
  // The serial identifies the tag
  // ---------------------------------------------------------------------------

  /** The value of a hexadecimal digit. */
  function DigitValue(c: char): int {
    if c <= '9' then c as int - '0' as int else c as int - 'A' as int + 10
  }

  lemma DigitIndex(i: nat)
    requires i < 16
    ensures DigitValue(DIGITS[i]) == i
  {}

  lemma HexDigitValues(b: u8)
    ensures DigitValue(HexDigit(b, 0)) == b / 0x10 && DigitValue(HexDigit(b, 1)) == b % 0x10
  {
    hide DigitValue;
    var high, low := b / 0x10, b % 0x10;
    assert high % 0x10 == high;
    DigitIndex(high);
    DigitIndex(low);
  }

  /** Read as hexadecimal, two digits at a time, the serial gives the first eight bytes back, in order. */
  lemma HexReadsBack(data: seq<u8>, i: nat)
    requires |data| >= 8 && i < 8
    ensures data[i] == 0x10 * DigitValue(Hex(data)[2 * i]) + DigitValue(Hex(data)[2 * i + 1])
    ensures '0' <= Hex(data)[2 * i] <= '9' || 'A' <= Hex(data)[2 * i] <= 'F'
  {
    hide DigitValue;
    assert 2 * i / 2 == i && (2 * i + 1) / 2 == i;
    HexDigitValues(data[i]);
    IsDigit(data[i] / 0x10);
  }

  lemma IsDigit(i: nat)
    requires i < 16
    ensures '0' <= DIGITS[i] <= '9' || 'A' <= DIGITS[i] <= 'F'
  {}

  lemma DigitsDiffer(a: u8, b: u8)
    requires HexDigit(a, 0) == HexDigit(b, 0) && HexDigit(a, 1) == HexDigit(b, 1)
    ensures a == b
  {
    hide DigitValue, HexDigit;
    HexDigitValues(a);
    HexDigitValues(b);
  }

  lemma {:induction false} LittleBelow(bytes: seq<u8>)
    ensures Little(bytes) < Pow2(8 * |bytes|)
  {
    if bytes != [] {
      LittleBelow(bytes[1..]);
      PowerSum(8 * (|bytes| - 1));
    }
  }

  lemma PowerSum(n: nat)
    ensures Pow2(n + 8) == 0x100 * Pow2(n)
  {
    assert Pow2(n + 4) == 0x10 * Pow2(n) by {
      assert Pow2(n + 2) == 4 * Pow2(n);
    }
    assert Pow2(n + 6) == 4 * Pow2(n + 4);
  }

  lemma {:induction false} LittleInjective(a: seq<u8>, b: seq<u8>)
    requires |a| == |b| && Little(a) == Little(b)
    ensures a == b
  {
    if a != [] {
      LittleInjective(a[1..], b[1..]);
      assert a == [a[0]] + a[1..] && b == [b[0]] + b[1..];
    }
  }

  /** Two tags have the same serial exactly when their identifier, country and flags agree. */
  lemma HexIdentifies(a: seq<u8>, b: seq<u8>)
    requires |a| >= 8 && |b| >= 8
    ensures Hex(a) == Hex(b) <==> Id(a) == Id(b) && Country(a) == Country(b) && Flags(a) == Flags(b)
  {
    if Hex(a) == Hex(b) { HexInjective(a, b); }
    if Id(a) == Id(b) && Country(a) == Country(b) && Flags(a) == Flags(b) {
      FieldsDetermine(Little(a[..8]));
      FieldsDetermine(Little(b[..8]));
      LittleInjective(a[..8], b[..8]);
      HexOfEight(a);
      HexOfEight(b);
    }
  }

  lemma HexInjective(a: seq<u8>, b: seq<u8>)
    requires |a| >= 8 && |b| >= 8 && Hex(a) == Hex(b)
    ensures a[..8] == b[..8]
  {
    forall i | 0 <= i < 8
      ensures a[i] == b[i]
    {
      assert Hex(a)[2 * i] == Hex(b)[2 * i] && Hex(a)[2 * i + 1] == Hex(b)[2 * i + 1];
      assert 2 * i / 2 == i && (2 * i + 1) / 2 == i;
      DigitsDiffer(a[i], b[i]);
    }
  }

  lemma HexOfEight(a: seq<u8>)
    requires |a| >= 8
    ensures Hex(a[..8]) == Hex(a)
  {}

  lemma FieldsDetermine(v: nat)
    ensures v == v % 0x40_0000_0000 + 0x40_0000_0000 * (v / 0x40_0000_0000 % 0x400) + 0x1_0000_0000_0000 * (v / 0x1_0000_0000_0000)
  {
    var w := v / 0x40_0000_0000;
    assert w / 0x400 == v / 0x1_0000_0000_0000;
    assert w == w % 0x400 + 0x400 * (w / 0x400);
  }

  /** The packed fields: an identifier of 38 bits, a country of 10, and 16 flags, lowest first. */
  lemma FieldsAreTheirs(data: seq<u8>, id: nat, country: nat, flags: nat)
    requires |data| >= 8 && Little(data[..8]) == id + 0x40_0000_0000 * country + 0x1_0000_0000_0000 * flags
    requires id < 0x40_0000_0000 && country < 0x400 && flags < 0x1_0000
    ensures Id(data) == id && Country(data) == country && Flags(data) == flags
  {
    hide Little;
    var v, high := Little(data[..8]), country + 0x400 * flags;
    assert v == id + 0x40_0000_0000 * high;
    assert v / 0x40_0000_0000 == high && v % 0x40_0000_0000 == id;
    assert v / 0x1_0000_0000_0000 == flags;
  }

  lemma PowerOf48()
    ensures Pow2(48) == 0x1_0000_0000_0000
  {
    hide Pow2;
    PowerSum(40); PowerSum(32); PowerSum(24); PowerSum(16); PowerSum(8); PowerSum(0);
    PowerValues();
  }

  /** Everything above the first six bytes. */
  lemma HighPart(low: seq<u8>, high: seq<u8>)
    requires |low| == 6
    ensures Little(low + high) / 0x1_0000_0000_0000 == Little(high)
  {
    hide Little, Pow2;
    LittleSplit(low, high);
    LittleBelow(low);
    PowerOf48();
  }

  /** The flag that announces three more bytes is the lowest of the flags field. */
  lemma DataFlagIsFlagBit(data: seq<u8>)
    requires |data| >= 10
    ensures DataFlag(data) <==> Flags(data) % 2 == 1
  {
    var high := data[6..8];
    assert data[..8] == data[..6] + high;
    HighPart(data[..6], high);
    assert Flags(data) == Little(high);
    LowDigit(high);
    assert high[0] == data[6];
  }

  lemma LowDigit(bytes: seq<u8>)
    requires bytes != []
    ensures Little(bytes) % 2 == bytes[0] % 2
  {}

  lemma {:induction false} LittleSplit(a: seq<u8>, b: seq<u8>)
    ensures Little(a + b) == Little(a) + Pow2(8 * |a|) * Little(b)
  {
    if a == [] {
      assert a + b == b;
    } else {
      hide Pow2;
      assert (a + b)[1..] == a[1..] + b;
      LittleSplit(a[1..], b);
      PowerSum(8 * |a[1..]|);
      Scale(a[0], Little(a[1..]), Pow2(8 * |a[1..]|), Little(b));
    }
  }

  lemma Scale(d: int, l: int, p: int, x: int)
    ensures d + 0x100 * (l + p * x) == d + 0x100 * l + (0x100 * p) * x
  {}

  // ---------------------------------------------------------------------------
  // The mailbox between the parser task and the main loop
  // ---------------------------------------------------------------------------

  /** One slot: a new tag overwrites an unread one, and a read empties it. */
  class Mailbox {
    var latest: seq<u8>
    var pending: bool

    ghost predicate Valid()
      reads this
    {
      pending ==> |latest| >= 8
    }

    /** What the next read would hand back. */
    ghost function Slot(): Option<string>
      requires Valid()
      reads this
    {
      if pending then Some(Hex(latest)) else None
    }

    constructor ()
      ensures Valid() && Slot() == None
    {
      latest, pending := [], false;
    }

    /** `parser_task`, after a telegram with a good checksum. */
    method Deliver(tag: seq<u8>)
      requires |tag| >= 8
      modifies this
      ensures Valid() && Slot() == Some(Hex(tag))
    {
      latest := tag;
      pending := true;
    }

    method TryReadOnce(out: array<char>) returns (got: bool)
      requires Valid() && out.Length >= 17
      modifies this, out
      ensures Valid() && Slot() == None
      ensures got <==> old(Slot()) != None
      ensures got ==> out[..16] == old(Slot()).value
      ensures !got ==> out[..] == old(out[..])
    {
      got := false;
      if pending {
        TagToHex(latest, out);
        pending := false;
        got := true;
      }
    }
  }
}

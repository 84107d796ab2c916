/** The tag's signal as a stream of edge gaps: how the receiver reads it, and how a tag sends it. */
module Wire {
  import opened Words
  import opened Crc
  import opened Results
  import CrcCode

  /** Length of a bit period in microseconds. */
  type Baud = b: real | b > 0.0 witness 1.0

  type Deltas = seq<u8>

  /** C's `round` on a non-negative value: halves go up. */
  function Round(x: real): int {
    (x + 0.5).Floor
  }

  /** How many half bit periods a gap spans, by the clock of the reader. */
  function Periods(baud: Baud, delta: u8): int {
    Round(delta as real / baud)
  }

  /** How many half bit periods a gap spans; any way to tell will do. */
  type Spans = u8 -> int

  function SpansOf(baud: Baud): Spans {
    (delta: u8) => Periods(baud, delta)
  }

  // ---------------------------------------------------------------------------
  // The receiver: biphase bits, header, framed bytes, telegram.
  // A stream that ends too early leaves the receiver waiting for the next edge.
  // ---------------------------------------------------------------------------

  datatype BitRead = BitWait | BadBit(rest: Deltas) | GoodBit(bit: bool, rest: Deltas)

  function ReadBit(spans: Spans, ds: Deltas): (r: BitRead)
    ensures !r.BitWait? ==> |r.rest| < |ds|
  {
    if ds == [] then BitWait
    else if spans(ds[0]) == 1 then
      if |ds| == 1 then BitWait
      else if spans(ds[1]) == 1 then GoodBit(false, ds[2..])
      else BadBit(ds[2..])
    else if spans(ds[0]) == 2 then GoodBit(true, ds[1..])
    else BadBit(ds[1..])
  }

  /** What is left after the first header, given the zeros counted so far. */
  function FindHeader(spans: Spans, ds: Deltas, count: nat): (r: Option<Deltas>)
    ensures r.Some? ==> |r.value| < |ds|
    decreases |ds|
  {
    match ReadBit(spans, ds)
    case BitWait => None
    case BadBit(rest) => FindHeader(spans, rest, 0)
    case GoodBit(true, rest) => if count >= 10 then Some(rest) else FindHeader(spans, rest, 0)
    case GoodBit(false, rest) => FindHeader(spans, rest, if count < 10 then count + 1 else count)
  }

  datatype BitsRead = BitsWait | BadBits(rest: Deltas) | GoodBits(bits: Bits, rest: Deltas)

  /** n more bits after those read so far. */
  function ReadBits(spans: Spans, ds: Deltas, sofar: Bits, n: nat): (r: BitsRead)
    ensures r.GoodBits? ==> |r.bits| == |sofar| + n
    ensures !r.BitsWait? ==> |r.rest| <= |ds|
    decreases n
  {
    if n == 0 then GoodBits(sofar, ds)
    else match ReadBit(spans, ds)
      case BitWait => BitsWait
      case BadBit(rest) => BadBits(rest)
      case GoodBit(bit, rest) => ReadBits(spans, rest, sofar + [bit], n - 1)
  }

  /** The number with these binary digits, lowest first. */
  function FromBits(bits: Bits): (x: nat)
    ensures x < Pow2(|bits|)
  {
    if bits == [] then 0 else (if bits[0] then 1 else 0) + 2 * FromBits(bits[1..])
  }

  datatype ByteRead = ByteWait | BadByte(rest: Deltas) | GoodByte(value: u8, rest: Deltas)

  /** Eight bits, lowest first, and a control bit that has to be 1. */
  function ReadByte(spans: Spans, ds: Deltas): (r: ByteRead)
    ensures !r.ByteWait? ==> |r.rest| <= |ds|
  {
    match ReadBits(spans, ds, [], 9)
    case BitsWait => ByteWait
    case BadBits(rest) => BadByte(rest)
    case GoodBits(bits, rest) =>
      PowerValues();
      if bits[8] then GoodByte(FromBits(bits[..8]), rest) else BadByte(rest)
  }

  datatype BytesRead = BytesWait | BadBytes(rest: Deltas) | GoodBytes(data: seq<u8>, rest: Deltas)

  /** n more bytes after those read so far. */
  function ReadBytes(spans: Spans, ds: Deltas, sofar: seq<u8>, n: nat): (r: BytesRead)
    ensures r.GoodBytes? ==> |r.data| == |sofar| + n && sofar <= r.data
    ensures !r.BytesWait? ==> |r.rest| <= |ds|
    decreases n
  {
    if n == 0 then GoodBytes(sofar, ds)
    else match ReadByte(spans, ds)
      case ByteWait => BytesWait
      case BadByte(rest) => BadBytes(rest)
      case GoodByte(b, rest) => ReadBytes(spans, rest, sofar + [b], n - 1)
  }

  datatype TagRead = TagWait | Misframed(rest: Deltas) | Checked(ok: bool, data: seq<u8>, rest: Deltas)

  /** The DATA flag is the lowest bit of the flags field, that is of byte 6. */
  predicate DataFlag(data: seq<u8>)
    requires |data| >= 10
  {
    data[6] % 2 == 1
  }

  /** Ten bytes, three more if announced, and the checksum over the first eight. */
  ghost function ReadBody(spans: Spans, ds: Deltas): TagRead {
    match ReadBytes(spans, ds, [], 10)
    case BytesWait => TagWait
    case BadBytes(rest) => Misframed(rest)
    case GoodBytes(data, rest) =>
      if !DataFlag(data) then Checked(CrcCode.Accepted(data), data, rest)
      else match ReadBytes(spans, rest, data, 3)
        case BytesWait => TagWait
        case BadBytes(rest') => Misframed(rest')
        case GoodBytes(data', rest') => Checked(CrcCode.Accepted(data), data', rest')
  }

  /** `getTag`: the first header and what follows it. */
  ghost function ReadTag(spans: Spans, ds: Deltas): TagRead {
    match FindHeader(spans, ds, 0)
    case None => TagWait
    case Some(body) => ReadBody(spans, body)
  }

  // ---------------------------------------------------------------------------
  // The tag: ISO 11785 telegram and biphase line code
  // ---------------------------------------------------------------------------

  const HEADER: Bits := Zeros(10) + [true]

  /** A byte on the air: its bits, then a control bit. */
  function Frame(b: u8): (f: Bits)
    ensures |f| == 9
  {
    ByteBits(b) + [true]
  }

  function Frames(data: seq<u8>): (f: Bits)
    ensures |f| == 9 * |data|
  {
    if data == [] then [] else Frame(data[0]) + Frames(data[1..])
  }

  /** Ten bytes of code and checksum and three bytes of data, always all thirteen sent. */
  function Telegram(data: seq<u8>): Bits {
    HEADER + Frames(data)
  }

  /** Edge gaps that carry the bits: two half periods for a 0, one full period for a 1. */
  predicate Carries(spans: Spans, ds: Deltas, bits: Bits)
    decreases |bits|
  {
    if bits == [] then ds == []
    else if bits[0] then |ds| >= 1 && spans(ds[0]) == 2 && Carries(spans, ds[1..], bits[1..])
    else |ds| >= 2 && spans(ds[0]) == 1 && spans(ds[1]) == 1 && Carries(spans, ds[2..], bits[1..])
  }

  /** How many gaps carry the bits. */
  function GapCount(bits: Bits): nat {
    if bits == [] then 0 else (if bits[0] then 1 else 2) + GapCount(bits[1..])
  }

  // ---------------------------------------------------------------------------
  // Reading what was sent
  // ---------------------------------------------------------------------------

  lemma {:induction false} CarriesCount(spans: Spans, ds: Deltas, bits: Bits)
    requires Carries(spans, ds, bits)
    ensures |ds| == GapCount(bits)
    decreases |bits|
  {
    if bits != [] {
      CarriesCount(spans, if bits[0] then ds[1..] else ds[2..], bits[1..]);
    }
  }

  lemma DropInto<T>(a: seq<T>, b: seq<T>, k: nat)
    requires k <= |a|
    ensures (a + b)[k..] == a[k..] + b
  {}

  lemma DropTwice<T>(s: seq<T>, j: nat, k: nat)
    requires j + k <= |s|
    ensures s[j..][k..] == s[j + k..]
  {}

  lemma TakeDrop<T>(s: seq<T>, k: nat, n: nat)
    requires n <= k <= |s|
    ensures s[..k][n..] == s[n..][..k - n]
  {}

  lemma Assoc<T>(a: seq<T>, b: seq<T>, c: seq<T>)
    ensures a + b + c == a + (b + c)
  {}

  lemma {:induction false} CarriesJoin(spans: Spans, a: Deltas, b: Deltas, x: Bits, y: Bits)
    requires Carries(spans, a, x) && Carries(spans, b, y)
    ensures Carries(spans, a + b, x + y)
    decreases |x|
  {
    if x == [] {
      assert x + y == y && a + b == b;
    } else {
      var n := if x[0] then 1 else 2;
      DropInto(a, b, n);
      DropInto(x, y, 1);
      CarriesJoin(spans, a[n..], b, x[1..], y);
    }
  }

  lemma {:induction false} CarriesSplit(spans: Spans, ds: Deltas, x: Bits, y: Bits)
    requires Carries(spans, ds, x + y)
    ensures GapCount(x) <= |ds|
    ensures Carries(spans, ds[..GapCount(x)], x) && Carries(spans, ds[GapCount(x)..], y)
    decreases |x|
  {
    if x == [] {
      assert x + y == y;
    } else {
      var n := if x[0] then 1 else 2;
      DropInto(x, y, 1);
      CarriesSplit(spans, ds[n..], x[1..], y);
      TakeDrop(ds, GapCount(x), n);
      DropTwice(ds, n, GapCount(x) - n);
    }
  }

  lemma ReadCarriedBit(spans: Spans, ds: Deltas, bits: Bits, tail: Deltas)
    requires bits != [] && Carries(spans, ds, bits)
    ensures ReadBit(spans, ds + tail) == GoodBit(bits[0], ds[if bits[0] then 1 else 2..] + tail)
    ensures Carries(spans, ds[if bits[0] then 1 else 2..], bits[1..])
  {
    var n := if bits[0] then 1 else 2;
    assert (ds + tail)[n..] == ds[n..] + tail;
  }

  lemma {:induction false} ReadCarriedBits(spans: Spans, ds: Deltas, sofar: Bits, bits: Bits, tail: Deltas)
    requires Carries(spans, ds, bits)
    ensures ReadBits(spans, ds + tail, sofar, |bits|) == GoodBits(sofar + bits, tail)
    decreases |bits|
  {
    if bits == [] {
      assert ds + tail == tail && sofar + bits == sofar;
    } else {
      ReadCarriedBit(spans, ds, bits, tail);
      ReadCarriedBits(spans, ds[if bits[0] then 1 else 2..], sofar + [bits[0]], bits[1..], tail);
      assert sofar + [bits[0]] + bits[1..] == sofar + bits;
    }
  }

  lemma {:induction false} FromBitsBit(bits: Bits, i: nat)
    requires i < |bits|
    ensures Bit(FromBits(bits), i) == bits[i]
  {
    if i > 0 {
      assert FromBits(bits) / 2 == FromBits(bits[1..]);
      FromBitsBit(bits[1..], i - 1);
    }
  }

  lemma FromByteBits(b: u8)
    ensures FromBits(ByteBits(b)) == b
  {
    PowerValues();
    forall i | 0 <= i < 8
      ensures Bit(FromBits(ByteBits(b)), i) == Bit(b, i)
    {
      FromBitsBit(ByteBits(b), i);
    }
    BitsDetermine(FromBits(ByteBits(b)), b, 8);
  }

  lemma ReadCarriedByte(spans: Spans, ds: Deltas, b: u8, tail: Deltas)
    requires Carries(spans, ds, Frame(b))
    ensures ReadByte(spans, ds + tail) == GoodByte(b, tail)
  {
    ReadCarriedBits(spans, ds, [], Frame(b), tail);
    assert [] + Frame(b) == Frame(b) && Frame(b)[..8] == ByteBits(b);
    FromByteBits(b);
  }

  lemma {:induction false} ReadCarriedBytes(spans: Spans, ds: Deltas, sofar: seq<u8>, data: seq<u8>, tail: Deltas)
    requires Carries(spans, ds, Frames(data))
    ensures ReadBytes(spans, ds + tail, sofar, |data|) == GoodBytes(sofar + data, tail)
    decreases |data|
  {
    hide ReadByte;
    if data == [] {
      assert ds + tail == tail && sofar + data == sofar;
    } else {
      CarriesSplit(spans, ds, Frame(data[0]), Frames(data[1..]));
      var n := GapCount(Frame(data[0]));
      Resplit(ds, n, tail);
      ReadCarriedByte(spans, ds[..n], data[0], ds[n..] + tail);
      ReadCarriedBytes(spans, ds[n..], sofar + [data[0]], data[1..], tail);
      assert sofar + [data[0]] + data[1..] == sofar + data;
    }
  }

  lemma {:induction false} FramesConcat(a: seq<u8>, b: seq<u8>)
    ensures Frames(a + b) == Frames(a) + Frames(b)
  {
    if a == [] {
      assert a + b == b;
    } else {
      assert (a + b)[1..] == a[1..] + b;
      FramesConcat(a[1..], b);
    }
  }

  /** The header search, bit by bit: what is left after the first header, or the zeros counted so far. */
  datatype Scan = Found(rest: Bits) | Open(count: nat)

  function ScanBits(bits: Bits, count: nat): Scan
    decreases |bits|
  {
    if bits == [] then Open(count)
    else if bits[0] then if count >= 10 then Found(bits[1..]) else ScanBits(bits[1..], 0)
    else ScanBits(bits[1..], if count < 10 then count + 1 else count)
  }

  /** On aligned gaps the header search follows the bits. */
  lemma {:induction false} FindHeaderAligned(spans: Spans, ds: Deltas, bits: Bits, count: nat, tail: Deltas)
    requires Carries(spans, ds, bits)
    ensures match ScanBits(bits, count)
            case Found(rest) => GapCount(rest) <= |ds| && FindHeader(spans, ds + tail, count) == Some(ds[|ds| - GapCount(rest)..] + tail)
            case Open(c) => FindHeader(spans, ds + tail, count) == FindHeader(spans, tail, c)
    decreases |bits|
  {
    if bits == [] {
      assert ds + tail == tail;
    } else {
      ReadCarriedBit(spans, ds, bits, tail);
      CarriesCount(spans, ds, bits);
      var n := if bits[0] then 1 else 2;
      var c := if bits[0] then 0 else if count < 10 then count + 1 else count;
      if !(bits[0] && count >= 10) {
        FindHeaderAligned(spans, ds[n..], bits[1..], c, tail);
        match ScanBits(bits, count)
        case Open(_) =>
        case Found(rest) =>
          assert ds[n..][|ds| - n - GapCount(rest)..] == ds[|ds| - GapCount(rest)..];
      }
    }
  }

  // ---------------------------------------------------------------------------
  // Round trip
  // ---------------------------------------------------------------------------

  /** The bytes a receiver hands on: the three data bytes only when they are announced. */
  function Wanted(data: seq<u8>): seq<u8>
    requires |data| == 13
  {
    if DataFlag(data) then data else data[..10]
  }

  lemma {:induction false} ScanZeros(n: nat, c: nat, rest: Bits)
    requires c <= 10
    ensures ScanBits(Zeros(n) + rest, c) == ScanBits(rest, if c + n <= 10 then c + n else 10)
    decreases n
  {
    var z := Zeros(n) + rest;
    if n == 0 {
      assert z == rest;
    } else {
      assert z[1..] == Zeros(n - 1) + rest;
      ScanZeros(n - 1, if c < 10 then c + 1 else c, rest);
    }
  }

  /** After a header, the frames of the telegram are read back. */
  lemma ReadAfterHeader(spans: Spans, data: seq<u8>, payload: Deltas, tail: Deltas)
    requires |data| == 13 && Carries(spans, payload, Frames(data))
    ensures var n := if DataFlag(data) then |payload| else GapCount(Frames(data[..10]));
            n <= |payload| && ReadBody(spans, payload + tail) == Checked(CrcCode.Accepted(data), Wanted(data), payload[n..] + tail)
  {
    var a, b := data[..10], data[10..];
    var n := GapCount(Frames(a));
    assert data == a + b;
    assert n <= |payload| && Carries(spans, payload[..n], Frames(a)) && Carries(spans, payload[n..], Frames(b)) by {
      FramesConcat(a, b);
      CarriesSplit(spans, payload, Frames(a), Frames(b));
    }
    AcceptedPrefix(data);
    var p, q := payload[..n], payload[n..];
    ReadCarriedBody(spans, p, q, a, b, tail);
    Resplit(payload, n, tail);
  }

  lemma Resplit(s: Deltas, n: nat, tail: Deltas)
    requires n <= |s|
    ensures s[..n] + (s[n..] + tail) == s + tail
    ensures s[|s|..] + tail == tail
  {}

  lemma ReadCarriedBody(spans: Spans, p: Deltas, q: Deltas, a: seq<u8>, b: seq<u8>, tail: Deltas)
    requires |a| == 10 && |b| == 3 && Carries(spans, p, Frames(a)) && Carries(spans, q, Frames(b))
    ensures ReadBody(spans, p + (q + tail))
            == if DataFlag(a) then Checked(CrcCode.Accepted(a), a + b, tail) else Checked(CrcCode.Accepted(a), a, q + tail)
  {
    hide ReadBytes, Carries, Frames;
    ReadCarriedBytes(spans, p, [], a, q + tail);
    ReadCarriedBytes(spans, q, a, b, tail);
    assert [] + a == a;
    assert DataFlag(a + b) == DataFlag(a);
  }

  /** The check and the flag look at the first ten bytes only. */
  lemma AcceptedPrefix(data: seq<u8>)
    requires |data| >= 10
    ensures CrcCode.Accepted(data[..10]) == CrcCode.Accepted(data) && DataFlag(data[..10]) == DataFlag(data)
  {
    assert data[..10][..8] == data[..8];
  }

  /** The header search ends exactly where the frames begin. */
  lemma HeaderFound(spans: Spans, ds: Deltas, data: seq<u8>, tail: Deltas) returns (payload: Deltas)
    requires Carries(spans, ds, Telegram(data))
    ensures Carries(spans, payload, Frames(data)) && FindHeader(spans, ds + tail, 0) == Some(payload + tail)
  {
    hide Carries, Frames, GapCount, ScanBits, FindHeader;
    var h := GapCount(HEADER);
    CarriesSplit(spans, ds, HEADER, Frames(data));
    payload := ds[h..];
    ScanHeader(Frames(data), 0);
    FindHeaderAligned(spans, ds, Telegram(data), 0, tail);
    CarriesCount(spans, payload, Frames(data));
  }

  /**
   * Round trip: whatever bytes a tag sends, and however its gaps jitter within their bands, the
   * receiver hands on those bytes, and reports success exactly when their checksum is right.
   */
  lemma RoundTrip(spans: Spans, ds: Deltas, data: seq<u8>, tail: Deltas)
    requires |data| == 13 && Carries(spans, ds, Telegram(data))
    ensures var r := ReadTag(spans, ds + tail);
            r.Checked? && r.ok == CrcCode.Accepted(data) && r.data == Wanted(data)
  {
    hide Carries, Frames, GapCount, FindHeader, ReadBody, CrcCode.Accepted;
    var payload := HeaderFound(spans, ds, data, tail);
    ReadAfterHeader(spans, data, payload, tail);
  }

  lemma ScanHeader(rest: Bits, c: nat)
    requires c <= 10
    ensures ScanBits(HEADER + rest, c) == Found(rest)
  {
    assert HEADER + rest == Zeros(10) + ([true] + rest);
    ScanZeros(10, c, [true] + rest);
    assert ([true] + rest)[1..] == rest;
  }
}

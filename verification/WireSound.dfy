/** What the receiver does not accept: whatever it reads was carried by the very gaps it took. */
module WireSound {
  import opened Words
  import opened Crc
  import opened Results
  import opened Wire
  import CrcCode

  /** Gaps in which a bit fails: one that is neither a half nor a full period, or a half without its second half. */
  predicate Broken(spans: Spans, ds: Deltas) {
    || (|ds| == 1 && spans(ds[0]) != 1 && spans(ds[0]) != 2)
    || (|ds| == 2 && spans(ds[0]) == 1 && spans(ds[1]) != 1)
  }

  /** A bit is read off these gaps exactly when they carry it, and fails on them exactly when they are broken. */
  lemma ReadBitExactly(spans: Spans, ds: Deltas, rest: Deltas, bit: bool)
    ensures ReadBit(spans, ds + rest) == GoodBit(bit, rest) <==> Carries(spans, ds, [bit])
    ensures ReadBit(spans, ds + rest) == BadBit(rest) <==> Broken(spans, ds)
    ensures ReadBit(spans, ds).BitWait? <==> ds == [] || (|ds| == 1 && spans(ds[0]) == 1)
  {
    assert [bit][1..] == [];
    if |ds| >= 1 { DropInto(ds, rest, 1); }
    if |ds| >= 2 { DropInto(ds, rest, 2); }
    if |ds| == 1 || |ds| == 2 { assert ds[|ds|..] == []; }
  }

  /** The gaps one bit takes. */
  lemma BitTaken(spans: Spans, ds: Deltas) returns (g: Deltas)
    requires !ReadBit(spans, ds).BitWait?
    ensures ds == g + ReadBit(spans, ds).rest && g != []
    ensures ReadBit(spans, ds).GoodBit? ==> Carries(spans, g, [ReadBit(spans, ds).bit])
    ensures ReadBit(spans, ds).BadBit? ==> Broken(spans, g)
  {
    var r := ReadBit(spans, ds);
    g := ds[..|ds| - |r.rest|];
    assert r.rest == ds[|g|..] && ds == g + r.rest;
    hide ReadBit, Broken, Carries;
    ReadBitExactly(spans, g, r.rest, if r.GoodBit? then r.bit else false);
  }

  // ---------------------------------------------------------------------------
  // The header
  // ---------------------------------------------------------------------------

  lemma ZerosGrow(spans: Spans, zeros: Deltas, g: Deltas, c: nat)
    requires Carries(spans, zeros, Zeros(c)) && Carries(spans, g, [false])
    ensures Carries(spans, zeros + g, Zeros(c + 1))
  {
    hide Carries;
    CarriesJoin(spans, zeros, g, Zeros(c), [false]);
    assert Zeros(c) + [false] == Zeros(c + 1);
  }

  lemma FirstZero(spans: Spans, zeros: Deltas, c: nat)
    requires c > 0 && Carries(spans, zeros, Zeros(c))
    ensures |zeros| >= 2 && Carries(spans, zeros[2..], Zeros(c - 1))
  {
    assert Zeros(c)[1..] == Zeros(c - 1);
  }

  /** With ten zeros already seen, one more lets the first of them go. */
  lemma ZerosMove(spans: Spans, zeros: Deltas, g: Deltas)
    requires Carries(spans, zeros, Zeros(10)) && Carries(spans, g, [false])
    ensures |zeros| >= 2 && Carries(spans, zeros[2..] + g, Zeros(10))
  {
    hide Carries;
    FirstZero(spans, zeros, 10);
    ZerosGrow(spans, zeros[2..], g, 9);
  }

  /** What is found is a header, made of the zeros seen before and of what is read. */
  lemma {:induction false} HeaderIsCarried(spans: Spans, front: Deltas, zeros: Deltas, ds: Deltas, count: nat)
    returns (pre: Deltas, mid: Deltas)
    requires count <= 10 && Carries(spans, zeros, Zeros(count)) && FindHeader(spans, ds, count).Some?
    ensures front + zeros + ds == pre + mid + FindHeader(spans, ds, count).value && Carries(spans, mid, HEADER)
    decreases |ds|
  {
    hide ReadBit, Carries, Broken;
    var g := BitTaken(spans, ds);
    var r := ReadBit(spans, ds);
    if r.GoodBit? && r.bit && count == 10 {
      CarriesJoin(spans, zeros, g, Zeros(10), [true]);
      pre, mid := front, zeros + g;
      assert front + zeros + ds == pre + mid + r.rest;
    } else if r.GoodBit? && !r.bit {
      if count < 10 {
        ZerosGrow(spans, zeros, g, count);
        pre, mid := HeaderIsCarried(spans, front, zeros + g, r.rest, count + 1);
        assert front + zeros + ds == front + (zeros + g) + r.rest;
      } else {
        ZerosMove(spans, zeros, g);
        pre, mid := HeaderIsCarried(spans, front + zeros[..2], zeros[2..] + g, r.rest, 10);
        assert zeros == zeros[..2] + zeros[2..];
        assert front + zeros + ds == front + zeros[..2] + (zeros[2..] + g) + r.rest;
      }
    } else {
      NoGaps(spans);
      pre, mid := HeaderIsCarried(spans, front + zeros + g, [], r.rest, 0);
      assert front + zeros + ds == front + zeros + g + [] + r.rest;
    }
  }

  lemma NoGaps(spans: Spans)
    ensures Carries(spans, [], Zeros(0)) && Carries(spans, [], [])
  {}

  /** The header search stops only behind gaps that carry a header. */
  lemma FindHeaderIsSound(spans: Spans, ds: Deltas) returns (pre: Deltas, mid: Deltas)
    requires FindHeader(spans, ds, 0).Some?
    ensures ds == pre + mid + FindHeader(spans, ds, 0).value && Carries(spans, mid, HEADER)
  {
    NoGaps(spans);
    pre, mid := HeaderIsCarried(spans, [], [], ds, 0);
    assert [] + [] + ds == ds;
  }

  // ---------------------------------------------------------------------------
  // Framed bytes
  // ---------------------------------------------------------------------------

  /** Some bits are carried and then one fails. */
  ghost predicate BreaksOff(spans: Spans, ds: Deltas, n: nat) {
    exists bits, k :: 0 <= k <= |ds| && |bits| < n && Carries(spans, ds[..k], bits) && Broken(spans, ds[k..])
  }

  lemma {:induction false} BitsAreCarried(spans: Spans, ds: Deltas, sofar: Bits, n: nat) returns (g: Deltas)
    requires !ReadBits(spans, ds, sofar, n).BitsWait?
    ensures ds == g + ReadBits(spans, ds, sofar, n).rest
    ensures var r := ReadBits(spans, ds, sofar, n);
            if r.GoodBits? then sofar <= r.bits && Carries(spans, g, r.bits[|sofar|..]) else BreaksOff(spans, g, n)
    decreases n
  {
    hide ReadBit, Carries, Broken, BreaksOff;
    NoGaps(spans);
    if n == 0 {
      g := [];
      assert sofar[|sofar|..] == [];
    } else {
      var a := BitTaken(spans, ds);
      var b := ReadBit(spans, ds);
      if b.BadBit? {
        g := a;
        BreaksNow(spans, g, n);
      } else {
        var t := BitsAreCarried(spans, b.rest, sofar + [b.bit], n - 1);
        g := a + t;
        var r := ReadBits(spans, ds, sofar, n);
        if r.GoodBits? {
          BitMore(spans, a, t, b.bit, sofar, r.bits);
        } else {
          BreaksLater(spans, a, t, b.bit, n - 1);
        }
      }
    }
  }

  lemma BreaksNow(spans: Spans, g: Deltas, n: nat)
    requires Broken(spans, g) && n > 0
    ensures BreaksOff(spans, g, n)
  {
    hide Broken;
    assert g[..0] == [] && g[0..] == g;
    assert Carries(spans, g[..0], []);
  }

  lemma BitMore(spans: Spans, a: Deltas, b: Deltas, bit: bool, sofar: Bits, bits: Bits)
    requires Carries(spans, a, [bit]) && sofar + [bit] <= bits && Carries(spans, b, bits[|sofar| + 1..])
    ensures Carries(spans, a + b, bits[|sofar|..])
  {
    hide Carries;
    CarriesJoin(spans, a, b, [bit], bits[|sofar| + 1..]);
    assert bits[|sofar|..] == [bit] + bits[|sofar| + 1..];
  }

  lemma BreaksLater(spans: Spans, a: Deltas, b: Deltas, bit: bool, n: nat)
    requires Carries(spans, a, [bit]) && BreaksOff(spans, b, n)
    ensures BreaksOff(spans, a + b, n + 1)
  {
    hide Carries, Broken;
    var bits, k :| 0 <= k <= |b| && |bits| < n && Carries(spans, b[..k], bits) && Broken(spans, b[k..]);
    CarriesJoin(spans, a, b[..k], [bit], bits);
    assert (a + b)[..|a| + k] == a + b[..k] && (a + b)[|a| + k..] == b[k..];
  }

  /** Gaps on which a framed byte fails: a bit of it does, or its control bit is 0. */
  ghost predicate Misframes(spans: Spans, ds: Deltas) {
    BreaksOff(spans, ds, 9) || exists bits :: |bits| == 9 && !bits[8] && Carries(spans, ds, bits)
  }

  lemma BitsOfNumber(bits: Bits)
    requires |bits| == 8
    ensures FromBits(bits) < 0x100 && ByteBits(FromBits(bits)) == bits
  {
    PowerValues();
    forall i | 0 <= i < 8
      ensures ByteBits(FromBits(bits))[i] == bits[i]
    {
      FromBitsBit(bits, i);
    }
  }

  lemma ByteIsCarried(spans: Spans, ds: Deltas) returns (g: Deltas)
    requires !ReadByte(spans, ds).ByteWait?
    ensures ds == g + ReadByte(spans, ds).rest
    ensures var r := ReadByte(spans, ds); if r.GoodByte? then Carries(spans, g, Frame(r.value)) else Misframes(spans, g)
  {
    hide ReadBits, Carries, BreaksOff, FromBits, ByteBits;
    g := BitsAreCarried(spans, ds, [], 9);
    var r := ReadBits(spans, ds, [], 9);
    if r.GoodBits? {
      assert r.bits[0..] == r.bits;
      BitsOfNumber(r.bits[..8]);
      assert r.bits == r.bits[..8] + [r.bits[8]];
    }
  }

  /** Whole bytes are carried and then one fails. */
  ghost predicate MisframesWithin(spans: Spans, ds: Deltas, n: nat) {
    exists data, k :: 0 <= k <= |ds| && |data| < n && Carries(spans, ds[..k], Frames(data)) && Misframes(spans, ds[k..])
  }

  lemma FramesMore(spans: Spans, a: Deltas, b: Deltas, v: u8, data: seq<u8>)
    requires Carries(spans, a, Frame(v)) && Carries(spans, b, Frames(data))
    ensures Carries(spans, a + b, Frames([v] + data))
  {
    hide Carries;
    CarriesJoin(spans, a, b, Frame(v), Frames(data));
    assert ([v] + data)[1..] == data;
  }

  lemma {:induction false} BytesAreCarried(spans: Spans, ds: Deltas, sofar: seq<u8>, n: nat) returns (g: Deltas)
    requires !ReadBytes(spans, ds, sofar, n).BytesWait?
    ensures ds == g + ReadBytes(spans, ds, sofar, n).rest
    ensures var r := ReadBytes(spans, ds, sofar, n);
            if r.GoodBytes? then Carries(spans, g, Frames(r.data[|sofar|..])) else MisframesWithin(spans, g, n)
    decreases n
  {
    hide ReadByte, Carries, Misframes, Frames;
    if n == 0 {
      g := [];
      NoFrames(spans);
    } else {
      var a := ByteIsCarried(spans, ds);
      var b := ReadByte(spans, ds);
      if b.BadByte? {
        g := a;
        NoFrames(spans);
        assert g[..0] == [] && g[0..] == g;
      } else {
        var t := BytesAreCarried(spans, b.rest, sofar + [b.value], n - 1);
        g := a + t;
        var r := ReadBytes(spans, ds, sofar, n);
        if r.GoodBytes? {
          FramesMore(spans, a, t, b.value, r.data[|sofar| + 1..]);
          assert r.data[|sofar|..] == [b.value] + r.data[|sofar| + 1..];
        } else {
          var data, k :| 0 <= k <= |t| && |data| < n - 1 && Carries(spans, t[..k], Frames(data)) && Misframes(spans, t[k..]);
          FramesMore(spans, a, t[..k], b.value, data);
          assert g[..|a| + k] == a + t[..k] && g[|a| + k..] == t[k..];
        }
      }
    }
  }

  lemma NoFrames(spans: Spans)
    ensures Carries(spans, [], Frames([]))
  {}

  // ---------------------------------------------------------------------------
  // Telegrams
  // ---------------------------------------------------------------------------

  /** As many bytes as the telegram itself announces, and the checksum's verdict on them. */
  ghost predicate Whole(r: TagRead)
    requires r.Checked?
  {
    |r.data| >= 10 && |r.data| == (if DataFlag(r.data) then 13 else 10) && r.ok == CrcCode.Accepted(r.data)
  }

  /** Three more bytes behind ten. */
  lemma MoreIsCarried(spans: Spans, a: Deltas, ten: seq<u8>, ds: Deltas) returns (g: Deltas)
    requires |ten| == 10 && Carries(spans, a, Frames(ten)) && !ReadBytes(spans, ds, ten, 3).BytesWait?
    ensures a + ds == g + ReadBytes(spans, ds, ten, 3).rest
    ensures var r := ReadBytes(spans, ds, ten, 3);
            if r.GoodBytes? then ten <= r.data && Carries(spans, g, Frames(r.data)) else MisframesWithin(spans, g, 13)
  {
    hide ReadBytes, Carries, Frames, Misframes;
    var b := BytesAreCarried(spans, ds, ten, 3);
    g := a + b;
    var r := ReadBytes(spans, ds, ten, 3);
    assert a + ds == g + r.rest;
    if r.GoodBytes? {
      CarriesJoin(spans, a, b, Frames(ten), Frames(r.data[10..]));
      FramesConcat(ten, r.data[10..]);
      assert r.data == ten + r.data[10..];
    } else {
      var data, k :| 0 <= k <= |b| && |data| < 3 && Carries(spans, b[..k], Frames(data)) && Misframes(spans, b[k..]);
      CarriesJoin(spans, a, b[..k], Frames(ten), Frames(data));
      FramesConcat(ten, data);
      assert g[..|a| + k] == a + b[..k] && g[|a| + k..] == b[k..];
    }
  }

  lemma MisframesSooner(spans: Spans, ds: Deltas, m: nat, n: nat)
    requires MisframesWithin(spans, ds, m) && m <= n
    ensures MisframesWithin(spans, ds, n)
  {}

  lemma BodyIsCarried(spans: Spans, ds: Deltas) returns (g: Deltas)
    requires !ReadBody(spans, ds).TagWait?
    ensures ds == g + ReadBody(spans, ds).rest
    ensures ReadBody(spans, ds).Checked? ==>
              Whole(ReadBody(spans, ds)) && Carries(spans, g, Frames(ReadBody(spans, ds).data))
    ensures ReadBody(spans, ds).Misframed? ==> MisframesWithin(spans, g, 13)
  {
    hide ReadBytes, Carries, Frames, CrcCode.Accepted, MisframesWithin;
    g := BytesAreCarried(spans, ds, [], 10);
    var ten := ReadBytes(spans, ds, [], 10);
    if ten.GoodBytes? {
      assert ten.data[0..] == ten.data;
      if DataFlag(ten.data) {
        g := MoreIsCarried(spans, g, ten.data, ten.rest);
        var more := ReadBytes(spans, ten.rest, ten.data, 3);
        if more.GoodBytes? {
          assert more.data[..10] == ten.data;
          AcceptedPrefix(more.data);
        }
      }
    } else {
      MisframesSooner(spans, g, 10, 13);
    }
  }

  /**
   * Soundness: whatever the receiver hands on was sent in those gaps right before the point at which it stops, header and
   * framing included, and is whole; and it gives a telegram up only where a bit or a control bit fails behind a header.
   */
  lemma ReadTagIsSound(spans: Spans, ds: Deltas) returns (pre: Deltas, mid: Deltas)
    requires !ReadTag(spans, ds).TagWait?
    ensures ds == pre + mid + ReadTag(spans, ds).rest
    ensures ReadTag(spans, ds).Checked? ==>
              Whole(ReadTag(spans, ds)) && Carries(spans, mid, HEADER + Frames(ReadTag(spans, ds).data))
    ensures ReadTag(spans, ds).Misframed? ==>
              exists k :: 0 <= k <= |mid| && Carries(spans, mid[..k], HEADER) && MisframesWithin(spans, mid[k..], 13)
  {
    hide FindHeader, ReadBody, Carries, Frames, CrcCode.Accepted, MisframesWithin;
    var header;
    pre, header := FindHeaderIsSound(spans, ds);
    var body := FindHeader(spans, ds, 0).value;
    var g := BodyIsCarried(spans, body);
    mid := header + g;
    assert ds == pre + mid + ReadBody(spans, body).rest;
    match ReadBody(spans, body)
    case Checked(_, data, _) => CarriesJoin(spans, header, g, HEADER, Frames(data));
    case Misframed(_) => assert mid[..|header|] == header && mid[|header|..] == g;
  }
}

/** Round trip through timing: from true edge gaps, over a wrapping 16-bit clock, to the tag. */
module Timing {
  import opened Words
  import opened Crc
  import opened Wire
  import Fifo
  import Line
  import SelfSync
  import CrcCode

  /** The carrier of the reader, 134.2 kHz: sixteen cycles to half a bit. */
  const BAUD: Baud := 16_000_000.0 / 134_200.0

  /** At this carrier a gap of 60 to 178 microseconds is half a bit period and one of 179 or more a full one. */
  lemma Bands(delta: u8)
    ensures SpansOf(BAUD)(delta) == if delta < 60 then 0 else if delta < 179 then 1 else 2
  {
    var x := delta as real / BAUD;
    assert x == delta as real * 134_200.0 / 16_000_000.0;
  }

  /** The clock is read modulo 2^16. */
  function Clock(t: nat): u16 {
    t % 0x1_0000
  }

  /**
   * What an edge pushes, given the true gap: the gap itself, one less if the clock rolled over in
   * between, and never more than 255.
   */
  lemma DeltaOfGap(t: nat, gap: nat)
    requires gap < 0x1_0000
    ensures var short := if Clock(t) + gap >= 0x1_0000 then gap - 1 else gap;
            Line.Delta(Clock(t), Clock(t + gap)) == if short > 0xFF then 0xFF else short
  {
    if Clock(t) + gap >= 0x1_0000 {
      assert Clock(t + gap) == Clock(t) + gap - 0x1_0000;
    } else {
      assert Clock(t + gap) == Clock(t) + gap;
    }
  }

  /** The pushes of a train of edges that starts at true time t. */
  function Pushes(t: nat, gaps: seq<nat>): (ds: Deltas)
    ensures |ds| == |gaps|
    decreases |gaps|
  {
    if gaps == [] then []
    else [Line.Delta(Clock(t), Clock(t + gaps[0]))] + Pushes(t + gaps[0], gaps[1..])
  }

  /** True gaps that carry the bits with a microsecond to spare below: 61..178 for a half, 180..65535 for a full period. */
  predicate GapsCarry(gaps: seq<nat>, bits: Bits)
    decreases |bits|
  {
    if bits == [] then gaps == []
    else if bits[0] then |gaps| >= 1 && 180 <= gaps[0] < 0x1_0000 && GapsCarry(gaps[1..], bits[1..])
    else |gaps| >= 2 && 61 <= gaps[0] <= 178 && 61 <= gaps[1] <= 178 && GapsCarry(gaps[2..], bits[1..])
  }

  lemma {:induction false} PushesCarry(t: nat, gaps: seq<nat>, bits: Bits)
    requires GapsCarry(gaps, bits)
    ensures Carries(SpansOf(BAUD), Pushes(t, gaps), bits)
    decreases |bits|
  {
    hide Line.Delta, Clock, SpansOf;
    if bits != [] {
      var ds := Pushes(t, gaps);
      DeltaOfGap(t, gaps[0]);
      Bands(ds[0]);
      if bits[0] {
        PushesCarry(t + gaps[0], gaps[1..], bits[1..]);
        assert ds[1..] == Pushes(t + gaps[0], gaps[1..]);
      } else {
        var t' := t + gaps[0];
        var rest := Pushes(t', gaps[1..]);
        assert ds[1..] == rest && gaps[1..][0] == gaps[1];
        DeltaOfGap(t', gaps[1]);
        Bands(rest[0]);
        PushesCarry(t' + gaps[1], gaps[2..], bits[1..]);
        assert gaps[1..][1..] == gaps[2..];
        assert rest[1..] == Pushes(t' + gaps[1], gaps[2..]);
        assert ds[2..] == rest[1..];
      }
    }
  }

  // ---------------------------------------------------------------------------
  // A whole telegram fits the ring
  // ---------------------------------------------------------------------------

  const BUFFER_SIZE: nat := 243

  lemma {:induction false} FramesGapBound(data: seq<u8>)
    ensures GapCount(Frames(data)) <= 17 * |data|
  {
    if data != [] {
      FramesGapBound(data[1..]);
      SelfSync.GapCountConcat(Frame(data[0]), Frames(data[1..]));
      SelfSync.GapCountConcat(ByteBits(data[0]), [true]);
      GapBound(ByteBits(data[0]));
    }
  }

  lemma {:induction false} GapBound(bits: Bits)
    ensures GapCount(bits) <= 2 * |bits|
  {
    if bits != [] { GapBound(bits[1..]); }
  }

  lemma {:induction false} ZeroGaps(n: nat)
    ensures GapCount(Zeros(n)) == 2 * n
  {
    if n > 0 {
      assert Zeros(n)[1..] == Zeros(n - 1);
      ZeroGaps(n - 1);
    }
  }

  /** A telegram takes at most 242 gaps, the capacity of a 243-byte ring. */
  lemma TelegramFits(data: seq<u8>)
    requires |data| == 13
    ensures GapCount(Telegram(data)) <= 242 == BUFFER_SIZE - 1
  {
    SelfSync.GapCountConcat(HEADER, Frames(data));
    SelfSync.GapCountConcat(Zeros(10), [true]);
    ZeroGaps(10);
    assert GapCount([true]) == 1;
    FramesGapBound(data);
  }

  function PushAll(q: Deltas, cap: nat, ds: Deltas): Deltas
    decreases |ds|
  {
    if ds == [] then q else PushAll(Fifo.Pushed(q, cap, ds[0]), cap, ds[1..])
  }

  lemma {:induction false} PushAllFits(q: Deltas, cap: nat, ds: Deltas)
    requires |q| + |ds| <= cap
    ensures PushAll(q, cap, ds) == q + ds
    decreases |ds|
  {
    if ds == [] {
      assert q + ds == q;
    } else {
      PushAllFits(q + [ds[0]], cap, ds[1..]);
      assert q + [ds[0]] + ds[1..] == q + ds;
    }
  }

  /**
   * For every tag and every train of edges whose true gaps keep to the bands with a microsecond to
   * spare, starting at any time: pushing the 16-bit timestamps into an empty 243-byte ring and then
   * parsing returns the tag, with success exactly when its checksum is right. Rollovers of the
   * clock and gaps beyond 255 microseconds do not matter.
   */
  lemma RoundTripThroughTiming(data: seq<u8>, t: nat, gaps: seq<nat>)
    requires |data| == 13 && GapsCarry(gaps, Telegram(data))
    ensures var r := ReadTag(SpansOf(BAUD), PushAll([], BUFFER_SIZE - 1, Pushes(t, gaps)));
            r.Checked? && r.ok == CrcCode.Accepted(data) && r.data == Wanted(data)
  {
    var ds := Pushes(t, gaps);
    PushesCarry(t, gaps, Telegram(data));
    CarriesCount(SpansOf(BAUD), ds, Telegram(data));
    TelegramFits(data);
    PushAllFits([], BUFFER_SIZE - 1, ds);
    assert [] + ds == ds && ds + [] == ds;
    RoundTrip(SpansOf(BAUD), ds, data, []);
  }

  /** What the receiver takes a true gap for: the clock sees it modulo 2^16 only, and one less if it rolls over in between. */
  function Seen(t: nat, gap: nat): nat {
    var wrapped := gap % 0x1_0000;
    if Clock(t) + wrapped >= 0x1_0000 then wrapped - 1 else wrapped
  }

  /**
   * A gap of any length reads as a 1 exactly when at least 179 microseconds of it are seen; there is no upper limit, so
   * that silence and noise between 256 us and the clock's range read as a 1, and longer gaps as whatever they wrap to.
   */
  lemma SilenceReadsAsOne(t: nat, gap: nat, rest: Deltas)
    ensures ReadBit(SpansOf(BAUD), [Line.Delta(Clock(t), Clock(t + gap))] + rest) == GoodBit(true, rest) <==> Seen(t, gap) >= 179
  {
    hide Line.Delta, SpansOf, ReadBit, Clock;
    var delta := Line.Delta(Clock(t), Clock(t + gap));
    ClockWraps(t, gap);
    DeltaOfGap(t, gap % 0x1_0000);
    Bands(delta);
    FullSpanIsOne(SpansOf(BAUD), delta, rest);
  }

  lemma ClockWraps(t: nat, gap: nat)
    ensures Clock(t + gap) == Clock(t + gap % 0x1_0000)
  {
    var x := t + gap % 0x1_0000;
    Remainder(t + gap, x / 0x1_0000 + gap / 0x1_0000);
  }

  lemma Remainder(d: nat, k: nat)
    requires 0 <= d - k * 0x1_0000 < 0x1_0000
    ensures d % 0x1_0000 == d - k * 0x1_0000
  {}

  lemma FullSpanIsOne(spans: Spans, delta: u8, rest: Deltas)
    ensures ReadBit(spans, [delta] + rest) == GoodBit(true, rest) <==> spans(delta) == 2
  {
    assert ([delta] + rest)[1..] == rest;
  }
}

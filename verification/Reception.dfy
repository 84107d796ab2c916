/** Reception as it happens: edges come while the receiver reads, from a tag that repeats its telegram. */
module Reception {
  import opened Words
  import opened Results
  import opened Wire
  import opened Line
  import opened Timing
  import opened Crc
  import CrcCode
  import Parser
  import SelfSync
  import WireSound

  // ---------------------------------------------------------------------------
  // Gaps that come later change nothing that was read
  // ---------------------------------------------------------------------------

  lemma BitStable(spans: Spans, ds: Deltas, more: Deltas)
    ensures match ReadBit(spans, ds)
            case BitWait => true
            case BadBit(rest) => ReadBit(spans, ds + more) == BadBit(rest + more)
            case GoodBit(bit, rest) => ReadBit(spans, ds + more) == GoodBit(bit, rest + more)
  {
    if ds != [] { DropInto(ds, more, 1); }
    if |ds| > 1 { DropInto(ds, more, 2); }
  }

  lemma {:induction false} HeaderStable(spans: Spans, ds: Deltas, count: nat, more: Deltas)
    requires FindHeader(spans, ds, count).Some?
    ensures FindHeader(spans, ds + more, count) == Some(FindHeader(spans, ds, count).value + more)
    decreases |ds|
  {
    hide ReadBit;
    BitStable(spans, ds, more);
    match ReadBit(spans, ds)
    case BadBit(rest) => HeaderStable(spans, rest, 0, more);
    case GoodBit(bit, rest) =>
      if !bit {
        HeaderStable(spans, rest, if count < 10 then count + 1 else count, more);
      } else if count < 10 {
        HeaderStable(spans, rest, 0, more);
      }
  }

  lemma {:induction false} BitsStable(spans: Spans, ds: Deltas, sofar: Bits, n: nat, more: Deltas)
    ensures match ReadBits(spans, ds, sofar, n)
            case BitsWait => true
            case BadBits(rest) => ReadBits(spans, ds + more, sofar, n) == BadBits(rest + more)
            case GoodBits(bits, rest) => ReadBits(spans, ds + more, sofar, n) == GoodBits(bits, rest + more)
    decreases n
  {
    hide ReadBit;
    if n > 0 {
      BitStable(spans, ds, more);
      match ReadBit(spans, ds)
      case BitWait =>
      case BadBit(_) =>
      case GoodBit(bit, rest) => BitsStable(spans, rest, sofar + [bit], n - 1, more);
    }
  }

  lemma ByteStable(spans: Spans, ds: Deltas, more: Deltas)
    ensures match ReadByte(spans, ds)
            case ByteWait => true
            case BadByte(rest) => ReadByte(spans, ds + more) == BadByte(rest + more)
            case GoodByte(b, rest) => ReadByte(spans, ds + more) == GoodByte(b, rest + more)
  {
    hide ReadBits, FromBits;
    BitsStable(spans, ds, [], 9, more);
  }

  lemma {:induction false} BytesStable(spans: Spans, ds: Deltas, sofar: seq<u8>, n: nat, more: Deltas)
    ensures match ReadBytes(spans, ds, sofar, n)
            case BytesWait => true
            case BadBytes(rest) => ReadBytes(spans, ds + more, sofar, n) == BadBytes(rest + more)
            case GoodBytes(data, rest) => ReadBytes(spans, ds + more, sofar, n) == GoodBytes(data, rest + more)
    decreases n
  {
    hide ReadByte;
    if n > 0 {
      ByteStable(spans, ds, more);
      match ReadByte(spans, ds)
      case ByteWait =>
      case BadByte(_) =>
      case GoodByte(b, rest) => BytesStable(spans, rest, sofar + [b], n - 1, more);
    }
  }

  /** What comes after a telegram, read or rejected, stays for the next one and changes nothing. */
  lemma TagStable(spans: Spans, ds: Deltas, more: Deltas)
    ensures match ReadTag(spans, ds)
            case TagWait => true
            case Misframed(rest) => ReadTag(spans, ds + more) == Misframed(rest + more)
            case Checked(ok, data, rest) => ReadTag(spans, ds + more) == Checked(ok, data, rest + more)
  {
    hide FindHeader, ReadBytes, CrcCode.Accepted;
    if FindHeader(spans, ds, 0).Some? {
      HeaderStable(spans, ds, 0, more);
      var body := FindHeader(spans, ds, 0).value;
      BytesStable(spans, body, [], 10, more);
      match ReadBytes(spans, body, [], 10)
      case BytesWait =>
      case BadBytes(_) =>
      case GoodBytes(data, rest) => BytesStable(spans, rest, data, 3, more);
    }
  }

  // ---------------------------------------------------------------------------
  // True edge times
  // ---------------------------------------------------------------------------

  function Sum(gaps: seq<nat>): nat {
    if gaps == [] then 0 else gaps[0] + Sum(gaps[1..])
  }

  /** The timestamps of an edge at true time t and of those that follow it at these gaps. */
  function Stamps(t: nat, gaps: seq<nat>): seq<u16>
    decreases |gaps|
  {
    [Clock(t)] + if gaps == [] then [] else Stamps(t + gaps[0], gaps[1..])
  }

  lemma {:induction false} StampsPush(last: u16, t: nat, gaps: seq<nat>)
    ensures DeltasOf(last, Stamps(t, gaps)) == [Delta(last, Clock(t))] + Pushes(t, gaps)
    decreases |gaps|
  {
    hide Delta, Clock;
    var s := Stamps(t, gaps);
    if gaps == [] {
      assert s[1..] == [];
    } else {
      assert s[1..] == Stamps(t + gaps[0], gaps[1..]);
      StampsPush(Clock(t), t + gaps[0], gaps[1..]);
    }
  }

  lemma {:induction false} PushesConcat(t: nat, a: seq<nat>, b: seq<nat>)
    ensures Pushes(t, a + b) == Pushes(t, a) + Pushes(t + Sum(a), b)
    decreases |a|
  {
    hide Delta, Clock;
    if a == [] {
      assert a + b == b;
    } else {
      DropInto(a, b, 1);
      PushesConcat(t + a[0], a[1..], b);
    }
  }

  /** Entered after k gaps, the rest of a train pushes what the whole train pushes after k. */
  lemma PushesFrom(t: nat, gaps: seq<nat>, k: nat)
    requires k <= |gaps|
    ensures Pushes(t + Sum(gaps[..k]), gaps[k..]) == Pushes(t, gaps)[k..]
  {
    PushesConcat(t, gaps[..k], gaps[k..]);
    assert gaps[..k] + gaps[k..] == gaps;
  }

  /** What reaches the ring from a telegram sent twice and entered after k gaps, whatever the last timestamp was. */
  lemma TwiceSent(last: u16, t: nat, g1: seq<nat>, g2: seq<nat>, more: seq<nat>, k: nat) returns (tail: Deltas)
    requires k <= |g1|
    ensures DeltasOf(last, Stamps(t + Sum(g1[..k]), g1[k..] + g2 + more))
         == [Delta(last, Clock(t + Sum(g1[..k])))] + (Pushes(t, g1)[k..] + Pushes(t + Sum(g1[..k]) + Sum(g1[k..]), g2) + tail)
    ensures |tail| == |more|
  {
    hide Delta, Clock, Pushes, DeltasOf, Stamps;
    var start := t + Sum(g1[..k]);
    var second := start + Sum(g1[k..]);
    StampsPush(last, start, g1[k..] + g2 + more);
    Assoc(g1[k..], g2, more);
    PushesConcat(start, g1[k..], g2 + more);
    PushesConcat(second, g2, more);
    PushesFrom(t, g1, k);
    tail := Pushes(second + Sum(g2), more);
    Assoc(Pushes(t, g1)[k..], Pushes(second, g2), tail);
  }

  /**
   * The receiver at work: a tag sends its telegram again and again, its true edge times within the bands; the receiver
   * starts at any edge, with any old timestamp, and reads while edges keep coming, interleaved in any way that never lets
   * an edge find the ring full. It is handed gaps from which it reads the sent bytes, with success exactly when their
   * checksum is right, before two telegrams have passed.
   */
  lemma RepeatedTelegramIsRead(line: Line, cap: nat, data: seq<u8>, t: nat, g1: seq<nat>, g2: seq<nat>, more: seq<nat>, k: nat)
    requires |data| == 13 && GapsCarry(g1, Telegram(data)) && GapsCarry(g2, Telegram(data)) && k < |g1|
    requires line.ring == [] && line.coming == Stamps(t + Sum(g1[..k]), g1[k..] + g2 + more) && Keeps(line, cap)
    ensures var r := ReadTag(SpansOf(BAUD), Delivered(line, cap));
            r.Checked? && r.ok == CrcCode.Accepted(data) && r.data == Wanted(data) && |r.rest| >= |more|
  {
    hide Delta, Clock, Pushes, DeltasOf, Stamps, Keeps, Delivered, GapsCarry, Carries, FindHeader, ReadTag, SpansOf,
         SelfSync.TrueHeaderEnd, Telegram, Sum;
    EveryGapDelivered(line, cap);
    var tail := TwiceSent(line.last, t, g1, g2, more, k);
    var second := t + Sum(g1[..k]) + Sum(g1[k..]);
    var e1, e2 := Pushes(t, g1), Pushes(second, g2);
    PushesCarry(t, g1, Telegram(data));
    PushesCarry(second, g2, Telegram(data));
    var stray := [Delta(line.last, Clock(t + Sum(g1[..k])))];
    SelfSync.SelfSynchronises(SpansOf(BAUD), data, e1, e2, k, stray, tail);
    assert [] + (stray + (e1[k..] + e2 + tail)) == stray + (e1[k..] + e2 + tail);
  }

  /** The same of the receiver's code. */
  method ReceiveRepeated(parser: Parser.Parser, tag: array<u8>, ghost data: seq<u8>, ghost t: nat, ghost g1: seq<nat>,
                         ghost g2: seq<nat>, ghost more: seq<nat>, ghost k: nat) returns (ok: bool)
    requires parser.Valid() && parser.mDecoder.mBaud == BAUD && parser.Pending() == []
    requires tag.Length == 13 && tag != parser.mDecoder.mFifo.mBuffer
    requires |data| == 13 && GapsCarry(g1, Telegram(data)) && GapsCarry(g2, Telegram(data)) && k < |g1|
    requires parser.mDecoder.coming == Stamps(t + Sum(g1[..k]), g1[k..] + g2 + more)
    requires Keeps(parser.mDecoder.View(), parser.mDecoder.mFifo.Capacity())
    modifies parser.mDecoder, parser.mDecoder.mFifo, parser.mDecoder.mFifo.mBuffer, tag
    ensures ok == CrcCode.Accepted(data) && tag[..|Wanted(data)|] == Wanted(data)
  {
    hide Delta, Clock, Stamps, Keeps, Delivered, GapsCarry, ReadTag, SpansOf, Telegram, Sum, Wanted, CrcCode.Accepted;
    RepeatedTelegramIsRead(parser.mDecoder.View(), parser.mDecoder.mFifo.Capacity(), data, t, g1, g2, more, k);
    ok := parser.GetTag(tag);
  }

  /**
   * Whatever the receiver's code accepts was sent: the gaps taken end in a header and the framed bytes that are in the
   * tag buffer now, thirteen or ten as they say themselves, and their checksum is right. Edges may come meanwhile.
   */
  method ReceiveSoundly(parser: Parser.Parser, tag: array<u8>) returns (ok: bool, ghost pre: Deltas, ghost sent: Deltas)
    requires parser.Valid() && tag.Length == 13 && tag != parser.mDecoder.mFifo.mBuffer
    requires !ReadTag(SpansOf(parser.mDecoder.mBaud), parser.Upcoming()).TagWait?
    modifies parser.mDecoder, parser.mDecoder.mFifo, parser.mDecoder.mFifo.mBuffer, tag
    ensures parser.Valid() && old(parser.Upcoming()) == pre + sent + parser.Upcoming()
    ensures ok ==> var data := if DataFlag(tag[..10]) then tag[..13] else tag[..10];
                   Carries(SpansOf(parser.mDecoder.mBaud), sent, HEADER + Frames(data)) && CrcCode.Accepted(data)
  {
    hide Delivered, ReadTag, SpansOf, Carries, Frames, CrcCode.Accepted, WireSound.MisframesWithin;
    ghost var spans, start := SpansOf(parser.mDecoder.mBaud), parser.Upcoming();
    pre, sent := WireSound.ReadTagIsSound(spans, start);
    ok := parser.GetTag(tag);
    ghost var r := ReadTag(spans, start);
    if ok {
      assert tag[..10] == r.data[..10];
      assert DataFlag(tag[..10]) == DataFlag(r.data) by { AcceptedPrefix(r.data); }
    }
  }
}

/** The telegram parser: header search, framed bytes, checksum. */
module Parser {
  import opened Words
  import opened Results
  import opened Wire
  import opened Crc
  import CrcCode
  import Decoder
  import Fifo
  import Line

  class Parser {
    const mDecoder: Decoder.Decoder

    ghost predicate Valid()
      reads mDecoder, mDecoder.mFifo
    {
      mDecoder.Valid()
    }

    ghost function Pending(): Deltas
      requires Valid()
      reads mDecoder, mDecoder.mFifo, mDecoder.mFifo.mBuffer
    {
      mDecoder.Pending()
    }

    /** The gaps that the next looks at the ring will take, those of edges to come included. */
    ghost function Upcoming(): Deltas
      requires Valid()
      reads mDecoder, mDecoder.mFifo, mDecoder.mFifo.mBuffer
    {
      mDecoder.Upcoming()
    }

    constructor (carrierHz: u32, bufferSize: u8, coming: seq<u16>, bursts: seq<nat>)
      requires 0 < carrierHz <= 16_000_000 && bufferSize > 0
      ensures Valid() && Pending() == []
      ensures fresh(mDecoder) && fresh(mDecoder.mFifo) && fresh(mDecoder.mFifo.mBuffer)
      ensures mDecoder.mBaud == 16_000_000.0 / carrierHz as real && mDecoder.mFifo.Capacity() == bufferSize - 1
      ensures mDecoder.coming == coming && mDecoder.bursts == bursts
    {
      mDecoder := new Decoder.Decoder(carrierHz, bufferSize, coming, bursts);
    }

    method PutStateChange(time: u16)
      requires Valid()
      modifies mDecoder, mDecoder.mFifo, mDecoder.mFifo.mBuffer
      ensures Valid() && mDecoder.mMicros == time
      ensures Pending() == Fifo.Pushed(old(Pending()), mDecoder.mFifo.Capacity(), Line.Delta(old(mDecoder.mMicros), time))
    {
      mDecoder.PutStateChange(time);
    }

    /** Consumes gaps up to the end of the first header. */
    method FindHeader()
      requires Valid() && Wire.FindHeader(SpansOf(mDecoder.mBaud), Upcoming(), 0).Some?
      modifies mDecoder, mDecoder.mFifo, mDecoder.mFifo.mBuffer
      ensures Valid() && Wire.FindHeader(SpansOf(mDecoder.mBaud), old(Upcoming()), 0) == Some(Upcoming())
    {
      ghost var start := Upcoming();
      var count := 0;
      while true
        invariant Valid() && 0 <= count <= 10
        invariant Wire.FindHeader(SpansOf(mDecoder.mBaud), Upcoming(), count) == Wire.FindHeader(SpansOf(mDecoder.mBaud), start, 0)
        decreases |Upcoming()|
      {
        var ok, bit := mDecoder.GetBit();
        if !ok {
          count := 0;
        } else if bit != 0 {
          if count >= 10 {
            break;
          } else {
            count := 0;
          }
        } else if count < 10 {
          count := count + 1;
        }
      }
    }

    /** Reads one framed byte into data[at]. */
    method GetByte(data: array<u8>, at: nat) returns (ok: bool)
      requires Valid() && at < data.Length && data != mDecoder.mFifo.mBuffer
      requires !ReadByte(SpansOf(mDecoder.mBaud), Upcoming()).ByteWait?
      modifies mDecoder, mDecoder.mFifo, mDecoder.mFifo.mBuffer, data
      ensures Valid()
      ensures var r := ReadByte(SpansOf(mDecoder.mBaud), old(Upcoming()));
              && Upcoming() == r.rest
              && ok == r.GoodByte?
              && (ok ==> data[at] == r.value)
      ensures forall j :: 0 <= j < data.Length && j != at ==> data[j] == old(data[j])
    {
      hide FromBits, ReadBit, ReadBits, ReadByte, Pow2, Or, Shl, SpansOf, Line.Delivered;
      ghost var start, spans := Upcoming(), SpansOf(mDecoder.mBaud);
      ghost var bits: Bits := [];
      ByteFromBits(spans, start);
      data[at] := 0;
      var i := 0;
      while i < 8
        invariant 0 <= i <= 8 && Valid() && |bits| == i
        invariant data[at] == FromBits(bits)
        invariant forall j :: 0 <= j < data.Length && j != at ==> data[j] == old(data[j])
        invariant ReadBits(spans, start, [], 9) == ReadBits(spans, Upcoming(), bits, 9 - i)
      {
        NextBit(spans, Upcoming(), bits, 9 - i);
        var ok', bit := mDecoder.GetBit();
        if !ok' {
          return false;
        }
        OrNextBit(bits, bit == 1);
        data[at] := Or(data[at], Shl(bit, i));
        bits := bits + [bit == 1];
        i := i + 1;
      }
      NextBit(spans, Upcoming(), bits, 1);
      var ok', bit := mDecoder.GetBit();
      if !ok' {
        return false;
      }
      NoMoreBits(spans, Upcoming(), bits + [bit == 1]);
      assert (bits + [bit == 1])[..8] == bits;
      return bit != 0;
    }

    /** The loop of `getData` that reads n bytes into data[from..], run twice there. */
    method GetBytes(data: array<u8>, from: nat, n: nat) returns (ok: bool)
      requires Valid() && from + n <= data.Length && data != mDecoder.mFifo.mBuffer
      requires !ReadBytes(SpansOf(mDecoder.mBaud), Upcoming(), data[..from], n).BytesWait?
      modifies mDecoder, mDecoder.mFifo, mDecoder.mFifo.mBuffer, data
      ensures Valid()
      ensures var r := ReadBytes(SpansOf(mDecoder.mBaud), old(Upcoming()), old(data[..from]), n);
              && Upcoming() == r.rest
              && ok == r.GoodBytes?
              && (ok ==> data[..from + n] == r.data)
      ensures forall j :: from + n <= j < data.Length ==> data[j] == old(data[j])
    {
      hide ReadByte, SpansOf, Line.Delivered;
      ghost var spans, start := SpansOf(mDecoder.mBaud), Upcoming();
      var i := 0;
      while i < n
        invariant 0 <= i <= n && Valid()
        invariant ReadBytes(spans, start, old(data[..from]), n) == ReadBytes(spans, Upcoming(), data[..from + i], n - i)
        invariant forall j :: from + n <= j < data.Length ==> data[j] == old(data[j])
      {
        ghost var front := data[..from + i];
        var good := GetByte(data, from + i);
        if !good {
          return false;
        }
        assert data[..from + i + 1] == front + [data[from + i]];
        i := i + 1;
      }
      return true;
    }

    /** Fills the tag buffer from the first telegram found; true when its checksum matches. */
    method GetData(data: array<u8>) returns (ok: bool)
      requires Valid() && data.Length == 13 && data != mDecoder.mFifo.mBuffer
      requires !ReadTag(SpansOf(mDecoder.mBaud), Upcoming()).TagWait?
      modifies mDecoder, mDecoder.mFifo, mDecoder.mFifo.mBuffer, data
      ensures Valid()
      ensures var r := ReadTag(SpansOf(mDecoder.mBaud), old(Upcoming()));
              && Upcoming() == r.rest
              && ok == (r.Checked? && r.ok)
              && (r.Checked? ==> data[..|r.data|] == r.data && forall j :: |r.data| <= j < 13 ==> data[j] == old(data[j]))
    {
      hide ReadByte, ReadBytes, Wire.FindHeader, Feed, BlockBits, Reg, SpansOf, Line.Delivered, CrcCode.Accepted;
      ghost var spans := SpansOf(mDecoder.mBaud);
      FindHeader();
      assert data[..0] == [];
      var good := GetBytes(data, 0, 10);
      if !good {
        return false;
      }
      ghost var ten := data[..10];
      if data[6] % 2 == 1 {
        good := GetBytes(data, 10, 3);
        if !good {
          return false;
        }
      }
      var crc := Crc16k(0, data, 8);
      assert data[..8] == ten[..8];
      CheckIsAccepted(crc, ten);
      var lo: nat, hi: nat := data[8], data[9];
      return crc == lo + 0x100 * hi;
    }

    method GetTag(tag: array<u8>) returns (ok: bool)
      requires Valid() && tag.Length == 13 && tag != mDecoder.mFifo.mBuffer
      requires !ReadTag(SpansOf(mDecoder.mBaud), Upcoming()).TagWait?
      modifies mDecoder, mDecoder.mFifo, mDecoder.mFifo.mBuffer, tag
      ensures Valid()
      ensures var r := ReadTag(SpansOf(mDecoder.mBaud), old(Upcoming()));
              && Upcoming() == r.rest
              && ok == (r.Checked? && r.ok)
              && (r.Checked? ==> tag[..|r.data|] == r.data && forall j :: |r.data| <= j < 13 ==> tag[j] == old(tag[j]))
    {
      ok := GetData(tag);
    }
  }

  /** Comparing the computed word with the stored one is the acceptance condition. */
  lemma CheckIsAccepted(crc: u16, data: seq<u8>)
    requires |data| >= 10 && Reg(crc) == Feed(Reg(0), BlockBits(data[..8]))
    ensures crc == CrcCode.StoredChecksum(data) <==> CrcCode.Accepted(data)
  {
    assert Reg(0) == {} by {
      forall e: nat | e < 16
        ensures !WordCoefficient(0, e)
      {
        ZeroBits(15 - e);
      }
    }
    if CrcCode.Accepted(data) { RegInjective(crc, CrcCode.StoredChecksum(data)); }
  }

  lemma NextBit(spans: Spans, ds: Deltas, sofar: Bits, n: nat)
    requires n > 0
    ensures ReadBits(spans, ds, sofar, n)
            == match ReadBit(spans, ds)
               case BitWait => BitsWait
               case BadBit(rest) => BadBits(rest)
               case GoodBit(bit, rest) => ReadBits(spans, rest, sofar + [bit], n - 1)
  {}

  lemma NoMoreBits(spans: Spans, ds: Deltas, sofar: Bits)
    ensures ReadBits(spans, ds, sofar, 0) == GoodBits(sofar, ds)
  {}

  lemma ByteFromBits(spans: Spans, ds: Deltas)
    ensures FromBits([]) == 0
    ensures match ReadBits(spans, ds, [], 9)
            case BitsWait => ReadByte(spans, ds) == ByteWait
            case BadBits(rest) => ReadByte(spans, ds) == BadByte(rest)
            case GoodBits(bits, rest) =>
              FromBits(bits[..8]) < 0x100
              && ReadByte(spans, ds) == if bits[8] then GoodByte(FromBits(bits[..8]), rest) else BadByte(rest)
  {
    PowerValues();
  }

  /** Or-ing in the next higher bit appends it. */
  lemma OrNextBit(bits: Bits, bit: bool)
    requires |bits| < 8
    ensures Or(FromBits(bits), Shl(if bit then 1 else 0, |bits|)) == FromBits(bits + [bit])
    ensures FromBits(bits + [bit]) < 0x100
  {
    var n, x, y := |bits|, FromBits(bits), FromBits(bits + [bit]);
    var m := if bit then Pow2(n) else 0;
    assert Shl(if bit then 1 else 0, n) == m;
    OrBelow(x, m, n + 1);
    forall i | 0 <= i < n + 1
      ensures Bit(Or(x, m), i) == Bit(y, i)
    {
      OrBit(x, m, i);
      FromBitsBit(bits + [bit], i);
      if bit { PowerBit(n, i); } else { ZeroBits(i); }
      if i < n { FromBitsBit(bits, i); } else { BitBelow(x, n); }
    }
    BitsDetermine(Or(x, m), y, n + 1);
    PowerMonotone(n + 1, 8);
    PowerValues();
  }

  lemma {:induction false} PowerMonotone(m: nat, n: nat)
    requires m <= n
    ensures Pow2(m) <= Pow2(n)
  {
    if m > 0 { PowerMonotone(m - 1, n - 1); }
  }
}

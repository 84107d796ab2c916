/** From edge timestamps to bits: `putStateChange` and `getBit`. */
module Decoder {
  import opened Words
  import opened Wire
  import opened Line
  import Fifo

  class Decoder {
    const mFifo: Fifo.Fifo
    const mBaud: Baud
    var mMicros: u16

    // The world outside: the timestamps of the edges still to come, and how many of them interrupt before each next
    // look at the ring.
    var coming: seq<u16>
    var bursts: seq<nat>

    ghost predicate Valid()
      reads this, mFifo
    {
      mFifo.Valid()
    }

    ghost function Pending(): Deltas
      requires Valid()
      reads this, mFifo, mFifo.mBuffer
    {
      mFifo.Contents()
    }

    ghost function View(): Line
      requires Valid()
      reads this, mFifo, mFifo.mBuffer
    {
      Line(Pending(), mMicros, coming, bursts)
    }

    /** The gaps that the next looks will take, those of edges to come included. */
    ghost function Upcoming(): Deltas
      requires Valid()
      reads this, mFifo, mFifo.mBuffer
    {
      Delivered(View(), mFifo.Capacity())
    }

    /**
     * The last timestamp starts out undefined, as in the source: the first gap pushed is a stray.
     * Above 16 MHz the source's cast of a period count to eight bits would be undefined.
     */
    constructor (carrierHz: u32, bufferSize: u8, coming: seq<u16>, bursts: seq<nat>)
      requires 0 < carrierHz <= 16_000_000 && bufferSize > 0
      ensures Valid() && Pending() == [] && mFifo.Capacity() == bufferSize - 1
      ensures fresh(mFifo) && fresh(mFifo.mBuffer)
      ensures mBaud == 16_000_000.0 / carrierHz as real
      ensures this.coming == coming && this.bursts == bursts
    {
      var carrierPeriod: real := 1.0 / (carrierHz as real / 1_000_000.0);
      BaudValue(carrierHz);
      mBaud := carrierPeriod * 16.0;
      mFifo := new Fifo.Fifo(bufferSize);
      this.coming, this.bursts := coming, bursts;
    }

    /**
     * Called on every edge. The subtraction across a rollover of the 16-bit counter is done with the
     * complement of the old timestamp, which leaves the gap one microsecond short.
     */
    method PutStateChange(time: u16)
      requires Valid()
      modifies this`mMicros, mFifo, mFifo.mBuffer
      ensures Valid() && mMicros == time
      ensures Pending() == Fifo.Pushed(old(Pending()), mFifo.Capacity(), Delta(old(mMicros), time))
    {
      if time < mMicros {
        mMicros := time + (0xFFFF - mMicros);
      } else {
        mMicros := time - mMicros;
      }
      if mMicros > 0xFF {
        mFifo.Push(0xFF);
      } else {
        mFifo.Push(mMicros);
      }
      mMicros := time;
    }

    /** The next edge comes. */
    method Interrupt()
      requires Valid() && coming != []
      modifies this, mFifo, mFifo.mBuffer
      ensures Valid() && View() == Edge(old(View()), mFifo.Capacity())
      ensures |coming| < |old(coming)|
    {
      hide Delta, Fifo.Pushed;
      var time := coming[0];
      coming := coming[1..];
      PutStateChange(time);
    }

    /** Waits while the ring is empty; any number of edges may come before and meanwhile. */
    method GetDelta() returns (value: u8)
      requires Valid() && Upcoming() != []
      modifies this, mFifo, mFifo.mBuffer
      ensures Valid() && value == old(Upcoming())[0] && Upcoming() == old(Upcoming())[1..]
    {
      hide Edge, Delivered, Burst, Wait;
      ghost var cap, before := mFifo.Capacity(), View();
      DeliveredNext(before, cap);
      var n := 0;
      if bursts != [] {
        n := bursts[0];
        bursts := bursts[1..];
      }
      BurstNext(View(), cap, 0);
      while n > 0 && coming != []
        invariant Valid() && Wait(Burst(View(), cap, n), cap) == Look(before, cap)
        decreases |coming|
      {
        BurstNext(View(), cap, n);
        Interrupt();
        n := n - 1;
      }
      BurstNext(View(), cap, n);
      WaitNext(View(), cap);
      while mFifo.Empty()
        invariant Valid() && Wait(View(), cap) == Look(before, cap)
        decreases |coming|
      {
        WaitNext(View(), cap);
        Interrupt();
      }
      WaitNext(View(), cap);
      var status;
      status, value := mFifo.Pop(0);
    }

    method GetBit() returns (ok: bool, value: u8)
      requires Valid() && !ReadBit(SpansOf(mBaud), Upcoming()).BitWait?
      modifies this, mFifo, mFifo.mBuffer
      ensures Valid()
      ensures var r := ReadBit(SpansOf(mBaud), old(Upcoming()));
              && Upcoming() == r.rest
              && ok == r.GoodBit?
              && (ok ==> value == if r.bit then 1 else 0)
    {
      hide Delivered;
      value := GetDelta();
      var periods := Periods(mBaud, value);
      match periods {
        case 1 =>
          value := GetDelta();
          if Periods(mBaud, value) == 1 {
            value := 0;
          } else {
            return false, value;
          }
        case 2 =>
          value := 1;
        case _ =>
          return false, value;
      }
      return true, value;
    }
  }

  lemma BaudValue(carrierHz: u32)
    requires carrierHz > 0
    ensures carrierHz as real / 1_000_000.0 > 0.0
    ensures 1.0 / (carrierHz as real / 1_000_000.0) * 16.0 == 16_000_000.0 / carrierHz as real
    ensures 16_000_000.0 / carrierHz as real > 0.0
  {
    var h := carrierHz as real;
    var p := h / 1_000_000.0;
    assert p * 1_000_000.0 == h;
    assert (1.0 / p) * p == 1.0;
    var q := 16_000_000.0 / h;
    assert q * h == 16_000_000.0;
    assert (1.0 / p) * 16.0 * h == 16_000_000.0 by {
      assert (1.0 / p) * 16.0 * h == (1.0 / p) * p * 16_000_000.0;
    }
  }
}

/** Error bursts as they happen on the air, control bits included. */
module Burst {
  import opened Words
  import opened Crc
  import opened Wire
  import CrcCode

  /** Where bit p of a block goes on the air: one control bit follows each eight. */
  function OnAir(p: nat): nat {
    p / 8 * 9 + p % 8
  }

  lemma {:induction false} BitOnAir(data: seq<u8>, p: nat)
    requires p < 8 * |data|
    ensures OnAir(p) < 9 * |data| && Frames(data)[OnAir(p)] == BlockBits(data)[p]
    decreases |data|
  {
    if p >= 8 {
      BitOnAir(data[1..], p - 8);
      assert OnAir(p) == 9 + OnAir(p - 8);
    }
  }

  /** The first bit of a block sent at or after air position i. */
  function FirstAt(i: nat): nat {
    i / 9 * 8 + i % 9
  }

  lemma Before(p: nat, i: nat)
    requires p < FirstAt(i)
    ensures OnAir(p) < i
  {}

  lemma After(p: nat, i: nat)
    requires p >= FirstAt(i) + 16
    ensures OnAir(p) >= i + 18
  {
    assert OnAir(p) >= p / 8 * 9;
    assert p / 8 >= (FirstAt(i) + 16) / 8;
  }

  /**
   * Two different blocks that both pass the check never agree on the air outside one window of
   * eighteen consecutive bits: any eighteen hold two control bits and sixteen of the block.
   */
  lemma AirBurstDetected(a: seq<u8>, b: seq<u8>, i: nat)
    requires |a| == |b| == 10 && CrcCode.Accepted(a) && CrcCode.Accepted(b)
    requires i + 18 <= 90
    requires Frames(a)[..i] == Frames(b)[..i]
    requires Frames(a)[i + 18..] == Frames(b)[i + 18..]
    ensures a == b
  {
    hide CrcCode.Accepted;
    var s := FirstAt(i);
    var x, y := BlockBits(a), BlockBits(b);
    forall p | 0 <= p < 80 && !(s <= p < s + 16)
      ensures x[p] == y[p]
    {
      BitOnAir(a, p);
      BitOnAir(b, p);
      var q := OnAir(p);
      if p < s {
        Before(p, i);
        assert Frames(a)[..i][q] == Frames(b)[..i][q];
      } else {
        After(p, i);
        assert Frames(a)[i + 18..][q - (i + 18)] == Frames(b)[i + 18..][q - (i + 18)];
      }
    }
    assert x[..s] == y[..s] && x[s + 16..] == y[s + 16..];
    CrcCode.BurstDetected(a, b, s);
  }
}

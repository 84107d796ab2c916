/** The two beam breaks of the chute: a debounced flag each, set by an interrupt, read and cleared by the loop. */
module Sensors {
  import opened Words

  const DEBOUNCE_US: nat := 5000

  /** A 32-bit clock that wraps. */
  function Clock32(t: nat): u32 {
    t % 0x1_0000_0000
  }

  datatype Edges = Edges(flag: bool, last: u32)

  /** Is an edge at this clock reading within the debounce time of the last one taken? */
  predicate Bounces(e: Edges, now: u32) {
    (now - e.last) % 0x1_0000_0000 < DEBOUNCE_US
  }

  function AfterEdge(e: Edges, now: u32): Edges {
    if Bounces(e, now) then e else Edges(true, now)
  }

  class Beam {
    var flag: bool
    var lastUs: u32

    ghost function View(): Edges
      reads this
    {
      Edges(flag, lastUs)
    }

    constructor ()
      ensures View() == Edges(false, 0)
    {
      flag, lastUs := false, 0;
    }

    /** The interrupt. */
    method OnEdge(now: u32)
      modifies this
      ensures View() == AfterEdge(old(View()), now)
    {
      if (now - lastUs) % 0x1_0000_0000 < DEBOUNCE_US { return; }
      lastUs := now;
      flag := true;
    }

    method Take() returns (v: bool)
      modifies this
      ensures v == old(flag)
      ensures View() == old(View()).(flag := false)
    {
      v := flag;
      flag := false;
    }
  }

  /** Edges at these true times, in order, starting from a beam whose last edge was taken at true time t. */
  function EdgesTaken(e: Edges, times: seq<nat>): Edges
    decreases |times|
  {
    if times == [] then e else EdgesTaken(AfterEdge(e, Clock32(times[0])), times[1..])
  }

  /**
   * A burst of edges, however long, in which none comes 5 ms or more after the first is one edge: once the flag is
   * taken it stays down. The clock may wrap in between.
   */
  lemma {:induction false} BurstIsOneEdge(e: Edges, first: nat, times: seq<nat>)
    requires e.last == Clock32(first)
    requires forall i :: 0 <= i < |times| ==> first <= times[i] < first + DEBOUNCE_US
    ensures EdgesTaken(e, times) == e
    decreases |times|
  {
    if times != [] {
      var t := times[0];
      assert (Clock32(t) - Clock32(first)) % 0x1_0000_0000 == t - first;
      assert forall i :: 0 <= i < |times[1..]| ==> times[1..][i] == times[i + 1];
      BurstIsOneEdge(e, first, times[1..]);
    }
  }

  /** The first edge of a burst counts, and starts the debounce time; the rest of the burst adds nothing. */
  lemma FirstOfBurstCounts(e: Edges, first: nat, times: seq<nat>)
    requires !Bounces(e, Clock32(first))
    requires forall i :: 0 <= i < |times| ==> first <= times[i] < first + DEBOUNCE_US
    ensures EdgesTaken(e, [first] + times) == Edges(true, Clock32(first))
  {
    hide Bounces, Clock32;
    assert ([first] + times)[1..] == times;
    BurstIsOneEdge(Edges(true, Clock32(first)), first, times);
  }

  /**
   * An edge is ignored exactly when its distance to the last one taken is below 5 ms modulo 2^32 us: so also about
   * 71.6 minutes later.
   */
  lemma IgnoredExactly(e: Edges, last: nat, t: nat)
    requires e.last == Clock32(last) && t >= last
    ensures Bounces(e, Clock32(t)) <==> exists k: nat {:trigger k * 0x1_0000_0000} :: 0 <= t - last - k * 0x1_0000_0000 < 5000
  {
    hide Clock32;
    var d := t - last;
    Wrapped(last, t);
    if Bounces(e, Clock32(t)) {
      var k := d / 0x1_0000_0000;
      assert d == k * 0x1_0000_0000 + d % 0x1_0000_0000;
    }
    forall k: nat {:trigger k * 0x1_0000_0000} | 0 <= d - k * 0x1_0000_0000 < 5000
      ensures d % 0x1_0000_0000 == d - k * 0x1_0000_0000
    {
      Remainder(d, k);
    }
  }

  lemma Wrapped(last: nat, t: nat)
    requires t >= last
    ensures (Clock32(t) - Clock32(last)) % 0x1_0000_0000 == (t - last) % 0x1_0000_0000
  {}

  lemma Remainder(d: nat, k: nat)
    requires 0 <= d - k * 0x1_0000_0000 < 0x1_0000_0000
    ensures d % 0x1_0000_0000 == d - k * 0x1_0000_0000
  {}
}

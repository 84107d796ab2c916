/** Edges that come in while the receiver reads: what the interrupt pushes, and what the looks at the ring find. */
module Line {
  import opened Words
  import opened Wire
  import Fifo

  /** The gap that an edge at `time` pushes, the previous edge having been at `last`. */
  function Delta(last: u16, time: u16): u8 {
    var gap := if time < last then time + (0xFFFF - last) else time - last;
    if gap > 0xFF then 0xFF else gap
  }

  /**
   * The ring, the last timestamp, the timestamps still to come, and how many of them come before each next look at the
   * ring. A look at an empty ring lasts until an edge comes. So bursts and looks are any interleaving of the interrupt
   * with the reader.
   */
  datatype Line = Line(ring: Deltas, last: u16, coming: seq<u16>, bursts: seq<nat>)

  function Edge(l: Line, cap: nat): Line
    requires l.coming != []
  {
    Line(Fifo.Pushed(l.ring, cap, Delta(l.last, l.coming[0])), l.coming[0], l.coming[1..], l.bursts)
  }

  /** n edges, or as many as there are. */
  function Burst(l: Line, cap: nat, n: nat): (r: Line)
    ensures |r.coming| <= |l.coming| && r.bursts == l.bursts
    ensures |r.ring| + |r.coming| <= |l.ring| + |l.coming|
    decreases n
  {
    if n == 0 || l.coming == [] then l else Burst(Edge(l, cap), cap, n - 1)
  }

  /** Edges until the ring holds something, if ever. */
  function Wait(l: Line, cap: nat): (r: Line)
    ensures |r.coming| <= |l.coming| && r.bursts == l.bursts
    ensures |r.ring| + |r.coming| <= |l.ring| + |l.coming|
    decreases |l.coming|
  {
    if l.ring != [] || l.coming == [] then l else Wait(Edge(l, cap), cap)
  }

  function Look(l: Line, cap: nat): (r: Line)
    ensures |r.ring| + |r.coming| <= |l.ring| + |l.coming|
  {
    Wait(if l.bursts == [] then l else Burst(l.(bursts := l.bursts[1..]), cap, l.bursts[0]), cap)
  }

  /** The gaps that successive looks take from the ring. */
  function Delivered(l: Line, cap: nat): Deltas
    decreases |l.ring| + |l.coming|
  {
    var r := Look(l, cap);
    if r.ring == [] then [] else [r.ring[0]] + Delivered(r.(ring := r.ring[1..]), cap)
  }

  lemma DeliveredNext(l: Line, cap: nat)
    requires Delivered(l, cap) != []
    ensures var r := Look(l, cap);
            r.ring != [] && Delivered(l, cap) == [r.ring[0]] + Delivered(r.(ring := r.ring[1..]), cap)
  {}

  /** The gaps between timestamps. */
  function DeltasOf(last: u16, times: seq<u16>): Deltas
    decreases |times|
  {
    if times == [] then [] else [Delta(last, times[0])] + DeltasOf(times[0], times[1..])
  }

  // ---------------------------------------------------------------------------
  // Without an overflow
  // ---------------------------------------------------------------------------

  /** A reader that looks in time: no edge ever finds the ring full. Held values and edges to come are counted. */
  predicate InTime(held: nat, left: nat, bursts: seq<nat>, cap: nat)
    decreases held + left
  {
    var k := if bursts == [] then 0 else if bursts[0] < left then bursts[0] else left;
    var rest := if bursts == [] then [] else bursts[1..];
    held + k <= cap && cap > 0
    && if held + k > 0 then InTime(held + k - 1, left - k, rest, cap)
       else left > 0 ==> InTime(0, left - 1, rest, cap)
  }

  predicate Keeps(l: Line, cap: nat) {
    InTime(|l.ring|, |l.coming|, l.bursts, cap)
  }

  lemma EdgeInTime(l: Line, cap: nat)
    requires l.coming != [] && |l.ring| < cap
    ensures var r := Edge(l, cap);
            |r.ring| == |l.ring| + 1 && r.ring + DeltasOf(r.last, r.coming) == l.ring + DeltasOf(l.last, l.coming)
  {
    var d := Delta(l.last, l.coming[0]);
    assert l.ring + [d] + DeltasOf(l.coming[0], l.coming[1..]) == l.ring + ([d] + DeltasOf(l.coming[0], l.coming[1..]));
  }

  lemma {:induction false} BurstInTime(l: Line, cap: nat, n: nat)
    requires |l.ring| + (if n < |l.coming| then n else |l.coming|) <= cap
    ensures var r := Burst(l, cap, n); var k := if n < |l.coming| then n else |l.coming|;
            && |r.ring| == |l.ring| + k && |r.coming| == |l.coming| - k
            && r.ring + DeltasOf(r.last, r.coming) == l.ring + DeltasOf(l.last, l.coming)
    decreases n
  {
    hide DeltasOf;
    if n > 0 && l.coming != [] {
      EdgeInTime(l, cap);
      BurstInTime(Edge(l, cap), cap, n - 1);
    }
  }

  /** The edges before a look, and the one it waits for if there is none. */
  lemma LookInTime(l: Line, cap: nat)
    requires Keeps(l, cap)
    ensures var r := Look(l, cap);
            && r.ring + DeltasOf(r.last, r.coming) == l.ring + DeltasOf(l.last, l.coming)
            && if r.ring == [] then r.coming == [] else Keeps(r.(ring := r.ring[1..]), cap)
  {
    hide DeltasOf, Burst, Edge;
    var b := l;
    if l.bursts != [] {
      BurstInTime(l.(bursts := l.bursts[1..]), cap, l.bursts[0]);
      b := Burst(l.(bursts := l.bursts[1..]), cap, l.bursts[0]);
    }
    if b.ring == [] && b.coming != [] {
      EdgeInTime(b, cap);
      EdgeTakes(b, cap);
    }
    LookFinds(b, cap);
  }

  /** As long as no edge finds the ring full, the reader is handed every gap, in order, however edges and looks interleave. */
  lemma {:induction false} EveryGapDelivered(l: Line, cap: nat)
    requires Keeps(l, cap)
    ensures Delivered(l, cap) == l.ring + DeltasOf(l.last, l.coming)
    decreases |l.ring| + |l.coming|
  {
    hide DeltasOf, Look, Keeps;
    var r := Look(l, cap);
    LookInTime(l, cap);
    if r.ring != [] {
      EveryGapDelivered(r.(ring := r.ring[1..]), cap);
      assert r.ring + DeltasOf(r.last, r.coming) == [r.ring[0]] + (r.ring[1..] + DeltasOf(r.last, r.coming));
    } else {
      NoGaps(r.last);
    }
  }

  lemma NoGaps(last: u16)
    ensures DeltasOf(last, []) == []
  {}

  lemma BurstNext(l: Line, cap: nat, n: nat)
    ensures Burst(l, cap, n) == if n == 0 || l.coming == [] then l else Burst(Edge(l, cap), cap, n - 1)
  {}

  lemma WaitNext(l: Line, cap: nat)
    ensures Wait(l, cap) == if l.ring != [] || l.coming == [] then l else Wait(Edge(l, cap), cap)
  {}

  lemma EdgeTakes(l: Line, cap: nat)
    requires l.coming != []
    ensures Edge(l, cap).coming == l.coming[1..] && Edge(l, cap).bursts == l.bursts
  {}

  /** A look at an empty ring takes exactly the next edge. */
  lemma LookFinds(l: Line, cap: nat)
    requires cap > 0
    ensures Wait(l, cap) == if l.ring == [] && l.coming != [] then Edge(l, cap) else l
  {}
}

/** The edge buffer: a ring whose indices count down and which drops its oldest value when full. */
module Fifo {
  import opened Words

  type Queue = seq<u8>

  // ---------------------------------------------------------------------------
  // The queue a ring of capacity cap refines
  // ---------------------------------------------------------------------------

  function LastN(q: Queue, n: nat): Queue {
    if |q| <= n then q else q[|q| - n..]
  }

  function Pushed(q: Queue, cap: nat, v: u8): Queue {
    LastN(q + [v], cap)
  }

  function Popped(q: Queue): Queue {
    if q == [] then q else q[1..]
  }

  datatype Op = Push(v: u8) | Pop

  /** A run: the queue, everything pushed, everything popped, and how far into the pushes the pops got. */
  datatype Run = Run(queue: Queue, sent: Queue, received: Queue, after: int)

  function Apply(cap: nat, s: Run, op: Op): Run {
    match op
    case Push(v) => Run(Pushed(s.queue, cap, v), s.sent + [v], s.received, s.after)
    case Pop =>
      if s.queue == [] then s
      else Run(Popped(s.queue), s.sent, s.received + [s.queue[0]], |s.sent| - |s.queue| + 1)
  }

  function RunOf(cap: nat, ops: seq<Op>): Run {
    if ops == [] then Run([], [], [], 0)
    else Apply(cap, RunOf(cap, ops[..|ops| - 1]), ops[|ops| - 1])
  }

  /** The queue never holds as many values as it can when a further one is pushed. */
  predicate NeverFull(cap: nat, ops: seq<Op>) {
    ops == []
    || (NeverFull(cap, ops[..|ops| - 1])
        && (ops[|ops| - 1].Push? ==> |RunOf(cap, ops[..|ops| - 1]).queue| < cap))
  }

  ghost predicate HoldsLatest(cap: nat, s: Run) {
    && 0 <= s.after <= |s.sent|
    && s.queue == LastN(s.sent[s.after..], cap)
    && (s.received != [] ==> s.after > 0 && s.received[|s.received| - 1] == s.sent[s.after - 1])
  }

  lemma PushKeepsLatest(cap: nat, s: Run, v: u8)
    requires HoldsLatest(cap, s)
    ensures HoldsLatest(cap, Apply(cap, s, Push(v)))
  {
    assert (s.sent + [v])[s.after..] == s.sent[s.after..] + [v];
  }

  lemma PopKeepsLatest(cap: nat, s: Run)
    requires HoldsLatest(cap, s)
    ensures HoldsLatest(cap, Apply(cap, s, Pop))
  {
    if s.queue != [] {
      var k := |s.sent| - |s.queue|;
      assert s.queue == s.sent[k..];
      assert s.queue[1..] == s.sent[k + 1..];
    }
  }

  /**
   * After any pushes and pops, the queue holds the last min(n, cap) of the n values pushed since
   * the most recently popped one, in order.
   */
  lemma {:induction false} ContentsAreLatest(cap: nat, ops: seq<Op>)
    ensures HoldsLatest(cap, RunOf(cap, ops))
  {
    if ops != [] {
      var s, op := RunOf(cap, ops[..|ops| - 1]), ops[|ops| - 1];
      ContentsAreLatest(cap, ops[..|ops| - 1]);
      match op
      case Push(v) => PushKeepsLatest(cap, s, v);
      case Pop => PopKeepsLatest(cap, s);
    }
  }

  /** Without an overflow nothing is lost, duplicated or reordered, however pushes and pops interleave. */
  lemma {:induction false} NothingLost(cap: nat, ops: seq<Op>)
    requires NeverFull(cap, ops)
    ensures var s := RunOf(cap, ops); s.received + s.queue == s.sent
  {
    if ops != [] {
      NothingLost(cap, ops[..|ops| - 1]);
      var s := RunOf(cap, ops[..|ops| - 1]);
      if ops[|ops| - 1].Pop? && s.queue != [] {
        assert s.queue == [s.queue[0]] + s.queue[1..];
      }
    }
  }

  // ---------------------------------------------------------------------------
  // The ring
  // ---------------------------------------------------------------------------

  /** Index of the i-th oldest value in a ring of n slots read from r. */
  function Slot(n: nat, r: nat, i: nat): (k: nat)
    requires r < n && i < n
    ensures k < n
  {
    if i <= r then r - i else r + n - i
  }

  /** The values of a ring read from r, oldest first. */
  function RingView(b: seq<u8>, r: nat, len: nat): (q: Queue)
    requires r < |b| && len <= |b|
    ensures |q| == len
    ensures forall i :: 0 <= i < len ==> q[i] == b[Slot(|b|, r, i)]
  {
    seq(len, i requires 0 <= i < len <= |b| && r < |b| => b[Slot(|b|, r, i)])
  }

  lemma PushView(b: seq<u8>, r: nat, len: nat, v: u8)
    requires r < |b| && len < |b|
    ensures var b' := b[Slot(|b|, r, len) := v];
            if len + 1 < |b| then RingView(b', r, len + 1) == Pushed(RingView(b, r, len), |b| - 1, v)
            else RingView(b', if r != 0 then r - 1 else |b| - 1, len) == Pushed(RingView(b, r, len), |b| - 1, v)
  {
    var w := Slot(|b|, r, len);
    var b', q := b[w := v], RingView(b, r, len) + [v];
    assert forall i :: 0 <= i <= len ==> q[i] == b'[Slot(|b|, r, i)];
    if len + 1 == |b| {
      var r' := if r != 0 then r - 1 else |b| - 1;
      assert forall i :: 0 <= i < len ==> Slot(|b|, r', i) == Slot(|b|, r, i + 1);
      assert RingView(b', r', len) == q[1..];
    }
  }

  lemma PopView(b: seq<u8>, r: nat, len: nat)
    requires r < |b| && 0 < len < |b|
    ensures RingView(b, if r != 0 then r - 1 else |b| - 1, len - 1) == RingView(b, r, len)[1..]
  {}

  class Fifo {
    const mSize: u8
    const mBuffer: array<u8>
    var mRead: u8
    var mWrite: u8

    ghost predicate Valid()
      reads this
    {
      mBuffer.Length == mSize + 1 && mRead <= mSize && mWrite <= mSize
    }

    /** Distance from the read index down to the write index. */
    ghost function Length(): (n: nat)
      requires Valid()
      ensures n <= mSize
      reads this
    {
      if mRead >= mWrite then mRead - mWrite else mRead + mSize + 1 - mWrite
    }

    ghost function Contents(): Queue
      requires Valid()
      reads this, mBuffer
    {
      RingView(mBuffer[..], mRead, Length())
    }

    /** One slot always stays free: a buffer of `size` bytes holds at most size - 1 values. */
    ghost function Capacity(): nat {
      mSize
    }

    constructor (size: u8)
      requires size > 0
      ensures Valid() && fresh(mBuffer) && Capacity() == size - 1 && Contents() == []
    {
      mBuffer := new u8[size];
      mSize := size - 1;
      mRead, mWrite := 0, 0;
    }

    function Next(index: u8): u8
      requires index <= mSize
    {
      if index != 0 then index - 1 else mSize
    }

    predicate Empty()
      requires Valid()
      reads this
    {
      mRead == mWrite
    }

    method Push(value: u8)
      requires Valid()
      modifies this, mBuffer
      ensures Valid() && Contents() == Pushed(old(Contents()), Capacity(), value)
    {
      PushView(mBuffer[..], mRead, Length(), value);
      assert mWrite == Slot(mBuffer.Length, mRead, Length());
      mBuffer[mWrite] := value;
      assert mBuffer[..] == old(mBuffer[..])[mWrite := value];
      mWrite := Next(mWrite);
      if Empty() {
        mRead := Next(mRead);
      }
    }

    method Peek(value0: u8) returns (status: bool, value: u8)
      requires Valid()
      ensures status <==> Contents() != []
      ensures value == if status then Contents()[0] else value0
    {
      value := value0;
      if Empty() {
        return false, value;
      }
      return true, mBuffer[mRead];
    }

    method Pop(value0: u8) returns (status: bool, value: u8)
      requires Valid()
      modifies this
      ensures Valid() && Contents() == Popped(old(Contents()))
      ensures status <==> old(Contents()) != []
      ensures value == if status then old(Contents())[0] else value0
    {
      status, value := Peek(value0);
      if status {
        PopView(mBuffer[..], mRead, Length());
        mRead := Next(mRead);
      }
    }
  }
}

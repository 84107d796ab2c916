/** The chute's answer comes in time, on a clock that wraps. */
module ChuteClock {
  import opened Words
  import opened Sensors
  import opened Chute
  import opened ChuteRuns

  /** The signed comparison on the wrapping clock is the comparison of true times while these are less than 2^31 ms apart. */
  lemma DueIsUnbounded(t: nat, due: nat)
    requires -0x8000_0000 <= t - due < 0x8000_0000
    ensures Due(Clock32(t), Clock32(due)) <==> t >= due
  {
    assert (Clock32(t) - Clock32(due)) % 0x1_0000_0000 == (t - due) % 0x1_0000_0000;
  }

  lemma AfterIsSum(t: nat, ms: u32)
    ensures After(Clock32(t), ms) == Clock32(t + ms)
  {}

  /** The loop comes around at most d ms after it last did, or after this time. */
  predicate Paced(last: nat, es: seq<Event>, d: nat)
    decreases |es|
  {
    if es == [] then true
    else match es[0]
      case Loop(at) => last <= at <= last + d && Paced(at, es[1..], d)
      case _ => Paced(last, es[1..], d)
  }

  function LastLoop(last: nat, es: seq<Event>): nat
    decreases |es|
  {
    if es == [] then last else LastLoop(if es[0].Loop? then es[0].at else last, es[1..])
  }

  /** A turn that began at true time t is within the time its phase allows, and its deadline is due at this true time. */
  predicate OnTime(c: Chute, t: nat, d: nat, last: nat, due: nat) {
    && c.deadline == Clock32(due)
    && t <= last && due - 3000 <= last < due
    && match c.state
       case AwaitingFall => due <= t + 3000
       case Identifying => due <= t + 5000 + d
       case Clearing => due <= t + 7000 + 2 * d
       case _ => false
  }

  /** A turn goes on through everything but the loop. */
  lemma OthersWait(c: Chute, e: Event)
    requires InTurn(c.state) && !e.Loop?
    ensures Step(c, e).state == c.state && Step(c, e).deadline == c.deadline
  {
    hide Tag.Hex;
  }

  /** One pass of the loop either keeps the turn on time or ends it with its verdict. */
  lemma LoopInTime(c: Chute, t: nat, d: nat, last: nat, due: nat, at: nat) returns (next: nat)
    requires d <= 0x8000_0000 && OnTime(c, t, d, last, due) && last <= at <= last + d
    ensures var c' := Ticked(c, Clock32(at));
            if InTurn(c'.state) then OnTime(c', t, d, at, next)
            else |c'.history| > 0 && IsVerdict(c'.history[|c'.history| - 1]) && at < t + 7000 + 3 * d
  {
    DueIsUnbounded(at, due);
    AfterIsSum(at, T_ID);
    next := if Ticked(c, Clock32(at)).state == c.state then due else at + 2000;
  }

  /**
   * Bounded response: if the loop comes around at least every d ms, d up to 2^31, then a turn in its first phase gets its
   * verdict, from one pass of the loop, less than 7000 + 3d ms after the arm; whatever else happens meanwhile.
   */
  lemma {:induction false} TurnEnds(c: Chute, t: nat, d: nat, last: nat, due: nat, es: seq<Event>) returns (k: nat)
    requires d <= 0x8000_0000 && OnTime(c, t, d, last, due)
    requires Paced(last, es, d) && LastLoop(last, es) >= t + 7000 + 3 * d
    ensures k < |es| && es[k].Loop? && es[k].at < t + 7000 + 3 * d
    ensures forall j :: 0 <= j <= k ==> InTurn(Run(c, es[..j]).state)
    ensures var c' := Run(c, es[..k + 1]);
            !InTurn(c'.state) && |c'.history| > 0 && IsVerdict(c'.history[|c'.history| - 1])
    decreases |es|
  {
    hide Received, Ticked, TagHeard, EntryBroken, ExitBroken;
    var e, c' := es[0], Step(c, es[0]);
    var next := due;
    if e.Loop? {
      next := LoopInTime(c, t, d, last, due, e.at);
    } else {
      OthersWait(c, e);
    }
    if InTurn(c'.state) {
      var m := TurnEnds(c', t, d, if e.Loop? then e.at else last, next, es[1..]);
      k := m + 1;
      forall j | 0 <= j <= k
        ensures InTurn(Run(c, es[..j]).state)
      {
        if j > 0 { RunFirst(c, es, j); }
      }
      RunFirst(c, es, k + 1);
    } else {
      k := 0;
      RunFirst(c, es, 1);
    }
  }

  lemma RunFirst(c: Chute, es: seq<Event>, j: nat)
    requires 0 < j <= |es|
    ensures Run(c, es[..j]) == Run(Step(c, es[0]), es[1..][..j - 1])
  {
    assert es[..j][1..] == es[1..][..j - 1];
  }

  /** Every accepted arm gets its verdict within 7000 + 3d ms of true time, across rollovers of the clock. */
  lemma BoundedResponse(c: Chute, t: nat, d: nat, es: seq<Event>) returns (k: nat)
    requires c.state.Idle? && d <= 0x8000_0000
    requires Paced(t, es, d) && LastLoop(t, es) >= t + 7000 + 3 * d
    ensures var armed := Received(c, Arm, Clock32(t));
            && k < |es| && es[k].Loop? && es[k].at < t + 7000 + 3 * d
            && (forall j :: 0 <= j <= k ==> InTurn(Run(armed, es[..j]).state))
            && var c' := Run(armed, es[..k + 1]);
               !InTurn(c'.state) && |c'.history| > 0 && IsVerdict(c'.history[|c'.history| - 1])
  {
    AfterIsSum(t, T_FALL);
    k := TurnEnds(Received(c, Arm, Clock32(t)), t, d, t, t + 3000, es);
  }

  /**
   * An enrollment window asked for is already over at the instant it opens exactly when it is longer than 2^31 ms: the
   * signed comparison then takes the deadline for one in the past.
   */
  lemma LongWindowsAreOver(c: Chute, t: nat, timeout: u32)
    requires c.state.Idle?
    ensures var window := Received(c, EnrollRequest(timeout), Clock32(t));
            window.state.Enroll? && (Ticked(window, Clock32(t)).state.Idle? <==> timeout > 0x8000_0000)
  {
    DueAtOnce(Clock32(t), if timeout != 0 then timeout else ENROLL_WINDOW);
  }

  lemma DueAtOnce(now: u32, w: u32)
    ensures Due(now, After(now, w)) <==> w == 0 || w > 0x8000_0000
  {
    var wide := now + w;
    assert After(now, w) == if wide < 0x1_0000_0000 then wide else wide - 0x1_0000_0000;
  }
}

/** What holds in every run of the chute, whatever arrives and whenever. */
module ChuteRuns {
  import opened Words
  import opened Results
  import opened Sensors
  import opened Chute
  import Tag

  type TagBytes = t: seq<u8> | |t| >= 8 witness [0, 0, 0, 0, 0, 0, 0, 0]

  /** Times are true times, in milliseconds for the loop and in microseconds for the interrupts. */
  datatype Event =
    | Message(m: Inbound, at: nat)
    | Loop(at: nat)
    | EntryBreak(us: nat)
    | ExitBreak(us: nat)
    | TagAt(tag: TagBytes)

  function Step(c: Chute, e: Event): Chute {
    match e
    case Message(m, at) => Received(c, m, Clock32(at))
    case Loop(at) => Ticked(c, Clock32(at))
    case EntryBreak(us) => EntryBroken(c, Clock32(us))
    case ExitBreak(us) => ExitBroken(c, Clock32(us))
    case TagAt(tag) => TagHeard(c, tag)
  }

  function Run(c: Chute, es: seq<Event>): Chute
    decreases |es|
  {
    if es == [] then c else Run(Step(c, es[0]), es[1..])
  }

  predicate InTurn(s: State) {
    s.AwaitingFall? || s.Identifying? || s.Clearing?
  }

  // ---------------------------------------------------------------------------
  // Reading the history
  // ---------------------------------------------------------------------------

  /** What says nothing about how a turn goes. */
  predicate Aside(e: Entry) {
    e.EntryEdge? || e.ExitEdge? || e.Heard? || (e.Sent? && e.message.Pong?)
  }

  /** What happened since the last accepted arm. */
  function Turn(h: seq<Entry>): Option<seq<Entry>> {
    if h == [] then None
    else
      var last := h[|h| - 1];
      if last.Armed? then Some([])
      else match Turn(h[..|h| - 1])
        case None => None
        case Some(t) => Some(if Aside(last) then t else t + [last])
  }

  /** Has this happened since the last accepted arm? */
  predicate Since(h: seq<Entry>, e: Entry) {
    h != [] && !h[|h| - 1].Armed? && (h[|h| - 1] == e || Since(h[..|h| - 1], e))
  }

  /** The last serial heard since the last accepted arm, else the one that waited in the mailbox at that arm. */
  function Waiting(h: seq<Entry>): Option<string> {
    if h == [] then None
    else match h[|h| - 1]
      case Armed(w) => w
      case Heard(uid) => Some(uid)
      case _ => Waiting(h[..|h| - 1])
  }

  function Arms(h: seq<Entry>): nat {
    if h == [] then 0 else Arms(h[..|h| - 1]) + if h[|h| - 1].Armed? then 1 else 0
  }

  predicate IsVerdict(e: Entry) {
    e.Sent? && e.message.Verdict?
  }

  function Verdicts(h: seq<Entry>): nat {
    if h == [] then 0 else Verdicts(h[..|h| - 1]) + if IsVerdict(h[|h| - 1]) then 1 else 0
  }

  /** The one turn that each verdict may end; no turn for a verdict that makes no sense. */
  function Explains(m: Message): Option<seq<Entry>> {
    match m
    case Verdict(NoFall, None) => Some([])
    case Verdict(NoRead, None) => Some([Fell])
    case Verdict(NoExit, Some(u)) => Some([Fell, SerialRead(u)])
    case Verdict(Ok, Some(u)) => Some([Fell, SerialRead(u), Left])
    case _ => None
  }

  // ---------------------------------------------------------------------------
  // The invariant
  // ---------------------------------------------------------------------------

  /** What an entry says is true of the history before it. */
  predicate Justified(before: seq<Entry>, e: Entry) {
    match e
    case Sent(Verdict(o, s)) => Explains(Verdict(o, s)).Some? && Turn(before) == Explains(Verdict(o, s))
    case Fell => Since(before, EntryEdge)
    case Left => Since(before, ExitEdge)
    case SerialRead(u) => Waiting(before) == Some(u)
    case _ => true
  }

  ghost predicate AllJustified(h: seq<Entry>) {
    forall i :: 0 <= i < |h| ==> Justified(h[..i], h[i])
  }

  predicate TurnMatches(c: Chute) {
    match c.state
    case AwaitingFall => Turn(c.history) == Some([])
    case Identifying => Turn(c.history) == Some([Fell])
    case Clearing => Turn(c.history) == Some([Fell, SerialRead(c.pending)]) && c.pending != ""
    case _ => true
  }

  ghost predicate Safe(c: Chute) {
    && (c.solenoid <==> c.state.Clearing?)
    && (c.fault.Some? <==> c.state.Blocked?)
    && Arms(c.history) == Verdicts(c.history) + (if InTurn(c.state) then 1 else 0)
    && TurnMatches(c)
    && (c.slot.Some? ==> c.slot.value != "")
    && (c.state.AwaitingFall? ==> (c.entryBeam.flag <==> Since(c.history, EntryEdge)))
    && (InTurn(c.state) ==> (c.exitBeam.flag <==> Since(c.history, ExitEdge)))
    && (c.state.AwaitingFall? || c.state.Identifying? ==> Waiting(c.history) == c.slot)
    && AllJustified(c.history)
  }

  lemma Justify(h: seq<Entry>, e: Entry)
    requires AllJustified(h) && Justified(h, e)
    ensures AllJustified(h + [e])
  {
    forall i | 0 <= i <= |h|
      ensures Justified((h + [e])[..i], (h + [e])[i])
    {
      assert (h + [e])[..i] == h[..i];
      if i == |h| { assert h[..i] == h; }
    }
  }

  /** What appending an entry does to everything that is read off the history. */
  lemma Note(h: seq<Entry>, e: Entry)
    requires AllJustified(h) && Justified(h, e)
    ensures AllJustified(h + [e])
    ensures Turn(h + [e]) == if e.Armed? then Some([])
                             else if Turn(h).None? || Aside(e) then Turn(h) else Some(Turn(h).value + [e])
    ensures Since(h + [e], EntryEdge) <==> e.EntryEdge? || (!e.Armed? && Since(h, EntryEdge))
    ensures Since(h + [e], ExitEdge) <==> e.ExitEdge? || (!e.Armed? && Since(h, ExitEdge))
    ensures Waiting(h + [e]) == match e case Armed(w) => w case Heard(u) => Some(u) case _ => Waiting(h)
    ensures Arms(h + [e]) == Arms(h) + if e.Armed? then 1 else 0
    ensures Verdicts(h + [e]) == Verdicts(h) + if IsVerdict(e) then 1 else 0
  {
    assert (h + [e])[..|h|] == h;
    Justify(h, e);
  }

  lemma ReceivedSafe(c: Chute, m: Inbound, now: u32)
    requires Safe(c)
    ensures Safe(Received(c, m, now))
  {
    hide AllJustified, Turn, Since, Waiting, Arms, Verdicts;
    match m
    case Ping(n) => Note(c.history, Sent(Pong(n)));
    case FaultClear =>
    case Arm =>
      if c.state.Blocked? {
        Note(c.history, Sent(StillBlocked(c.fault)));
      } else if c.state.Idle? {
        Note(c.history, Armed(c.slot));
      }
    case EnrollRequest(_) =>
    case Unknown =>
  }

  lemma TickedSafe(c: Chute, now: u32)
    requires Safe(c)
    ensures Safe(Ticked(c, now))
  {
    hide Safe, Ticked;
    match c.state
    case Idle => QuietTickSafe(c, now);
    case Blocked => QuietTickSafe(c, now);
    case AwaitingFall => FallTickSafe(c, now);
    case Identifying => ReadTickSafe(c, now);
    case Clearing => if c.exitBeam.flag { LeftSafe(c, now); } else { StuckTickSafe(c, now); }
    case Enroll => EnrollTickSafe(c, now);
  }

  lemma QuietTickSafe(c: Chute, now: u32)
    requires Safe(c) && (c.state.Idle? || c.state.Blocked?)
    ensures Safe(Ticked(c, now))
  {}

  lemma FallTickSafe(c: Chute, now: u32)
    requires Safe(c) && c.state.AwaitingFall?
    ensures Safe(Ticked(c, now))
  {
    hide AllJustified, Turn, Since, Waiting, Arms, Verdicts;
    if c.entryBeam.flag {
      Note(c.history, Fell);
      assert [] + [Fell] == [Fell];
    } else if Due(now, c.deadline) {
      Note(c.history, Sent(Verdict(NoFall, None)));
    }
  }

  lemma ReadTickSafe(c: Chute, now: u32)
    requires Safe(c) && c.state.Identifying?
    ensures Safe(Ticked(c, now))
  {
    hide AllJustified, Turn, Since, Waiting, Arms, Verdicts;
    if c.slot.Some? {
      Note(c.history, SerialRead(c.slot.value));
      assert [Fell] + [SerialRead(c.slot.value)] == [Fell, SerialRead(c.slot.value)];
    } else if Due(now, c.deadline) {
      Note(c.history, Sent(Verdict(NoRead, None)));
    }
  }

  lemma StuckTickSafe(c: Chute, now: u32)
    requires Safe(c) && c.state.Clearing? && !c.exitBeam.flag
    ensures Safe(Ticked(c, now))
  {
    hide AllJustified, Turn, Since, Waiting, Arms, Verdicts;
    if Due(now, c.deadline) {
      Note(c.history, Sent(Verdict(NoExit, Some(c.pending))));
    }
  }

  lemma EnrollTickSafe(c: Chute, now: u32)
    requires Safe(c) && c.state.Enroll?
    ensures Safe(Ticked(c, now))
  {
    hide AllJustified, Turn, Since, Waiting, Arms, Verdicts;
    if c.slot.Some? {
      Note(c.history, Sent(TagScanned(c.slot.value)));
    } else if Due(now, c.deadline) {
      Note(c.history, Sent(EnrollTimeout));
    }
  }

  lemma LeftSafe(c: Chute, now: u32)
    requires Safe(c) && c.state.Clearing? && c.exitBeam.flag
    ensures Safe(Ticked(c, now))
  {
    hide AllJustified, Turn, Since, Waiting, Arms, Verdicts;
    var h := c.history;
    Note(h, Left);
    assert [Fell, SerialRead(c.pending)] + [Left] == [Fell, SerialRead(c.pending), Left];
    Note(h + [Left], Sent(Verdict(Ok, Some(c.pending))));
  }

  lemma HeardSafe(c: Chute, e: Event)
    requires Safe(c) && !e.Message? && !e.Loop?
    ensures Safe(Step(c, e))
  {
    hide AllJustified, Turn, Since, Waiting, Arms, Verdicts, Tag.Hex;
    match e
    case EntryBreak(us) => Note(c.history, EntryEdge);
    case ExitBreak(us) => Note(c.history, ExitEdge);
    case TagAt(tag) => Note(c.history, Heard(Tag.Hex(tag)));
  }

  lemma StepSafe(c: Chute, e: Event)
    requires Safe(c)
    ensures Safe(Step(c, e))
  {
    hide Safe, Received, Ticked;
    match e
    case Message(m, at) => ReceivedSafe(c, m, Clock32(at));
    case Loop(at) => TickedSafe(c, Clock32(at));
    case _ => HeardSafe(c, e);
  }

  lemma {:induction false} RunSafe(c: Chute, es: seq<Event>)
    requires Safe(c)
    ensures Safe(Run(c, es))
    decreases |es|
  {
    hide Safe;
    if es != [] {
      StepSafe(c, es[0]);
      RunSafe(Step(c, es[0]), es[1..]);
    }
  }

  // ---------------------------------------------------------------------------
  // Safety
  // ---------------------------------------------------------------------------

  lemma BootSafe()
    ensures Safe(BOOT)
  {}

  /**
   * In every reachable state the solenoid is energised exactly in CLEARING, a fault is latched exactly in BLOCKED, and
   * the verdicts sent are the arms accepted, less the one whose turn is still on.
   */
  lemma ChuteSafety(es: seq<Event>)
    ensures var c := Run(BOOT, es);
            && (c.solenoid <==> c.state.Clearing?)
            && (c.fault.Some? <==> c.state.Blocked?)
            && Verdicts(c.history) == Arms(c.history) - (if InTurn(c.state) then 1 else 0)
  {
    BootSafe();
    RunSafe(BOOT, es);
  }

  /**
   * In every run, each verdict tells exactly what happened since the arm: nothing fell; something fell and no serial was
   * read; one serial was read; one was read and something left. It names a serial exactly in the last two cases, and it
   * is the one read in this turn.
   */
  lemma VerdictTellsTurn(es: seq<Event>, i: nat)
    requires i < |Run(BOOT, es).history| && IsVerdict(Run(BOOT, es).history[i])
    ensures var h := Run(BOOT, es).history; var v := h[i].message;
            && Turn(h[..i]).Some? && Turn(h[..i]) == Explains(v)
            && (v.serial.Some? <==> v.outcome.NoExit? || v.outcome.Ok?)
            && (v.serial.Some? ==> SerialRead(v.serial.value) in Turn(h[..i]).value)
  {
    BootSafe();
    RunSafe(BOOT, es);
    var h := Run(BOOT, es).history;
    assert Justified(h[..i], h[i]);
    var v := h[i].message;
    if v.serial.Some? {
      var t := Turn(h[..i]).value;
      assert t[1] == SerialRead(v.serial.value);
    }
  }

  /**
   * In every run, something is taken to have fallen only after an entry edge since the arm, and to have left only after
   * an exit edge since the arm; and a serial read is the last one heard, or the one that already waited at the arm.
   */
  lemma TurnHasCause(es: seq<Event>, i: nat)
    requires i < |Run(BOOT, es).history|
    ensures var h := Run(BOOT, es).history;
            && (h[i].Fell? ==> Since(h[..i], EntryEdge))
            && (h[i].Left? ==> Since(h[..i], ExitEdge))
            && (h[i].SerialRead? ==> Waiting(h[..i]) == Some(h[i].uid))
  {
    BootSafe();
    RunSafe(BOOT, es);
    var h := Run(BOOT, es).history;
    assert Justified(h[..i], h[i]);
  }

  // ---------------------------------------------------------------------------
  // What an arm does not forget
  // ---------------------------------------------------------------------------

  /** Every serial read at or after position n was heard after the arm of its turn. */
  ghost predicate FreshFrom(h: seq<Entry>, n: nat) {
    forall i :: n <= i < |h| && h[i].SerialRead? ==> Since(h[..i], Heard(h[i].uid))
  }

  predicate ArmFree(es: seq<Event>) {
    forall i :: 0 <= i < |es| ==> !(es[i].Message? && es[i].m.Arm?)
  }

  ghost predicate Clean(c: Chute, n: nat) {
    && FreshFrom(c.history, n)
    && ((c.state.AwaitingFall? || c.state.Identifying?) && c.slot.Some? ==> Since(c.history, Heard(c.slot.value)))
  }

  lemma NoteFresh(h: seq<Entry>, e: Entry, n: nat)
    requires FreshFrom(h, n) && (e.SerialRead? ==> Since(h, Heard(e.uid)))
    ensures FreshFrom(h + [e], n)
    ensures forall u :: Since(h + [e], Heard(u)) <==> e == Heard(u) || (!e.Armed? && Since(h, Heard(u)))
  {
    var h' := h + [e];
    assert h'[..|h|] == h;
    forall i | n <= i <= |h| && h'[i].SerialRead?
      ensures Since(h'[..i], Heard(h'[i].uid))
    {
      assert h'[..i] == h[..i];
      if i == |h| { assert h[..i] == h; }
    }
  }

  lemma TickedClean(c: Chute, now: u32, n: nat)
    requires Clean(c, n)
    ensures Clean(Ticked(c, now), n)
  {
    hide FreshFrom, Since;
    var h, c' := c.history, Ticked(c, now);
    if c.state.Clearing? && c.exitBeam.flag {
      NoteFresh(h, Left, n);
      NoteFresh(h + [Left], Sent(VerdictMessage(Ok, c.pending)), n);
    } else if c'.history != h {
      NoteFresh(h, c'.history[|h|], n);
      assert c'.history == h + [c'.history[|h|]];
    }
  }

  lemma ReceivedClean(c: Chute, m: Inbound, now: u32, n: nat)
    requires Clean(c, n) && !m.Arm?
    ensures Clean(Received(c, m, now), n)
  {
    hide FreshFrom, Since;
    var h, c' := c.history, Received(c, m, now);
    if c'.history != h {
      NoteFresh(h, c'.history[|h|], n);
      assert c'.history == h + [c'.history[|h|]];
    }
  }

  lemma StepClean(c: Chute, e: Event, n: nat)
    requires Clean(c, n) && !(e.Message? && e.m.Arm?)
    ensures Clean(Step(c, e), n)
  {
    hide FreshFrom, Since, Tag.Hex, Received, Ticked;
    match e
    case Message(m, at) => ReceivedClean(c, m, Clock32(at), n);
    case Loop(at) => TickedClean(c, Clock32(at), n);
    case EntryBreak(_) => NoteFresh(c.history, EntryEdge, n);
    case ExitBreak(_) => NoteFresh(c.history, ExitEdge, n);
    case TagAt(tag) => NoteFresh(c.history, Heard(Tag.Hex(tag)), n);
  }

  lemma {:induction false} RunClean(c: Chute, es: seq<Event>, n: nat)
    requires Clean(c, n) && ArmFree(es)
    ensures Clean(Run(c, es), n)
    decreases |es|
  {
    hide Clean;
    if es != [] {
      StepClean(c, es[0], n);
      assert forall i :: 0 <= i < |es[1..]| ==> es[1..][i] == es[i + 1];
      RunClean(Step(c, es[0]), es[1..], n);
    }
  }

  /** A serial that waits at the arm is read as soon as anything falls. */
  lemma StaleRead(c: Chute, at: nat) returns (es: seq<Event>)
    requires c.state.Idle? && c.slot.Some?
    ensures var armed := Received(c, Arm, Clock32(at));
            ArmFree(es) && !FreshFrom(Run(armed, es).history, |armed.history|)
  {
    hide Since, AfterEdge;
    var armed := Received(c, Arm, Clock32(at));
    var us := (c.entryBeam.last + DEBOUNCE_US) % 0x1_0000_0000;
    es := [EntryBreak(us), Loop(at), Loop(at)];
    EdgeTaken(armed, us);
    var broken := Step(armed, es[0]);
    var fallen := Step(broken, es[1]);
    var read := Step(fallen, es[2]);
    RunThree(armed, es[0], es[1], es[2]);
    var h, u := c.history, c.slot.value;
    var before := h + [Armed(c.slot)] + [EntryEdge] + [Fell];
    assert read.history == before + [SerialRead(u)];
    assert read.history[..|before|] == before;
    NotSince(h, c.slot, u);
  }

  /** An edge 5 ms after the last one taken is taken. */
  lemma EdgeTaken(c: Chute, us: nat)
    requires us == (c.entryBeam.last + DEBOUNCE_US) % 0x1_0000_0000
    ensures var c' := EntryBroken(c, Clock32(us));
            c' == c.(entryBeam := c'.entryBeam, history := c.history + [EntryEdge]) && c'.entryBeam.flag
  {
    assert (us - c.entryBeam.last) % 0x1_0000_0000 == DEBOUNCE_US;
  }

  lemma RunThree(c: Chute, a: Event, b: Event, d: Event)
    ensures Run(c, [a, b, d]) == Step(Step(Step(c, a), b), d)
  {
    hide Step;
    assert [a, b, d][1..] == [b, d] && [b, d][1..] == [d] && [d][1..] == [];
    var x := Step(c, a);
    var y := Step(x, b);
    assert Run(y, [d]) == Run(Step(y, d), []);
    assert Run(x, [b, d]) == Run(y, [d]);
    assert Run(c, [a, b, d]) == Run(x, [b, d]);
  }

  lemma NotSince(h: seq<Entry>, w: Option<string>, u: string)
    ensures !Since(h + [Armed(w)] + [EntryEdge] + [Fell], Heard(u))
  {
    var a := h + [Armed(w)];
    var b := a + [EntryEdge];
    assert (b + [Fell])[..|b|] == b;
    assert b[..|a|] == a;
    assert !Since(a, Heard(u));
    assert !Since(b, Heard(u));
  }

  /**
   * A turn is safe from reporting a ball seen before it exactly when the mailbox is empty at its arm, whatever earlier
   * turns have reported: accepting an arm forgets the serial it captured last but does not drain the mailbox.
   */
  lemma FreshExactlyWhenDrained(c: Chute, at: nat)
    requires c.state.Idle?
    ensures var armed := Received(c, Arm, Clock32(at));
            c.slot.None? <==> forall es :: ArmFree(es) ==> FreshFrom(Run(armed, es).history, |armed.history|)
  {
    var armed := Received(c, Arm, Clock32(at));
    var n := |armed.history|;
    if c.slot.None? {
      forall es | ArmFree(es)
        ensures FreshFrom(Run(armed, es).history, n)
      {
        RunClean(armed, es, n);
      }
    } else {
      var es := StaleRead(c, at);
      assert ArmFree(es) && !FreshFrom(Run(armed, es).history, n);
    }
  }

  /** An exit edge was taken at or after position n. */
  ghost predicate NewEdge(h: seq<Entry>, n: nat) {
    exists j :: n <= j < |h| && h[j].ExitEdge?
  }

  /** Whatever is taken to have left at or after position n had an exit edge since. */
  ghost predicate LeavesByNewEdge(h: seq<Entry>, n: nat) {
    forall i :: n <= i < |h| && h[i].Left? ==> NewEdge(h[..i], n)
  }

  ghost predicate Tight(c: Chute, n: nat) {
    n <= |c.history| && LeavesByNewEdge(c.history, n) && (c.exitBeam.flag ==> NewEdge(c.history, n))
  }

  lemma NoteTight(h: seq<Entry>, e: Entry, n: nat)
    requires n <= |h| && LeavesByNewEdge(h, n) && (e.Left? ==> NewEdge(h, n))
    ensures LeavesByNewEdge(h + [e], n)
    ensures NewEdge(h, n) || e.ExitEdge? ==> NewEdge(h + [e], n)
  {
    var h' := h + [e];
    assert h'[..|h|] == h;
    forall i | n <= i < |h'| && h'[i].Left?
      ensures NewEdge(h'[..i], n)
    {
      assert h'[..i] == h[..i];
      if i == |h| { assert h[..i] == h; }
    }
    if NewEdge(h, n) {
      var j :| n <= j < |h| && h[j].ExitEdge?;
      assert h'[j].ExitEdge?;
    }
    if e.ExitEdge? { assert h'[|h|].ExitEdge?; }
  }

  lemma TickedTight(c: Chute, now: u32, n: nat)
    requires Tight(c, n)
    ensures Tight(Ticked(c, now), n)
  {
    hide LeavesByNewEdge, NewEdge;
    var h, c' := c.history, Ticked(c, now);
    if c.state.Clearing? && c.exitBeam.flag {
      NoteTight(h, Left, n);
      NoteTight(h + [Left], Sent(VerdictMessage(Ok, c.pending)), n);
    } else if c'.history != h {
      NoteTight(h, c'.history[|h|], n);
      assert c'.history == h + [c'.history[|h|]];
    }
  }

  lemma ReceivedTight(c: Chute, m: Inbound, now: u32, n: nat)
    requires Tight(c, n)
    ensures Tight(Received(c, m, now), n)
  {
    hide LeavesByNewEdge, NewEdge;
    var h, c' := c.history, Received(c, m, now);
    if c'.history != h {
      NoteTight(h, c'.history[|h|], n);
      assert c'.history == h + [c'.history[|h|]];
    }
  }

  lemma StepTight(c: Chute, e: Event, n: nat)
    requires Tight(c, n)
    ensures Tight(Step(c, e), n)
  {
    hide LeavesByNewEdge, NewEdge, Tag.Hex, Received, Ticked;
    match e
    case Message(m, at) => ReceivedTight(c, m, Clock32(at), n);
    case Loop(at) => TickedTight(c, Clock32(at), n);
    case EntryBreak(_) => NoteTight(c.history, EntryEdge, n);
    case ExitBreak(_) => NoteTight(c.history, ExitEdge, n);
    case TagAt(tag) => NoteTight(c.history, Heard(Tag.Hex(tag)), n);
  }

  lemma {:induction false} RunTight(c: Chute, es: seq<Event>, n: nat)
    requires Tight(c, n)
    ensures Tight(Run(c, es), n)
    decreases |es|
  {
    hide Tight;
    if es != [] {
      StepTight(c, es[0], n);
      RunTight(Step(c, es[0]), es[1..], n);
    }
  }

  /**
   * The exit beam is waited for after the release exactly when no exit edge is already flagged then: if none is, whatever
   * is taken to have left in any later run had an edge after the release; if one is, the next pass of the loop takes the
   * prize to have left.
   */
  lemma ExitAwaitedExactlyWhenClear(c: Chute, now: u32)
    requires c.state.Identifying? && c.slot.Some?
    ensures var read := Ticked(c, now);
            !c.exitBeam.flag <==> forall es :: LeavesByNewEdge(Run(read, es).history, |read.history|)
  {
    var read := Ticked(c, now);
    var n := |read.history|;
    if !c.exitBeam.flag {
      forall es
        ensures LeavesByNewEdge(Run(read, es).history, n)
      {
        RunTight(read, es, n);
      }
    } else {
      var es: seq<Event> := [Loop(0)];
      assert es[1..] == [];
      var left := Step(read, es[0]);
      assert Run(left, es[1..]) == left;
      assert Run(read, es) == left;
      assert left.history[n].Left? && left.history[..n] == read.history;
      assert !LeavesByNewEdge(Run(read, es).history, n);
    }
  }

  /** And an exit edge is flagged at the release exactly when one came since the arm. */
  lemma FlaggedSinceArm(es: seq<Event>)
    requires Run(BOOT, es).state.Identifying?
    ensures Run(BOOT, es).exitBeam.flag <==> Since(Run(BOOT, es).history, ExitEdge)
  {
    hide Run, Turn, Since, Waiting, AllJustified, Arms, Verdicts;
    BootSafe();
    RunSafe(BOOT, es);
  }
}

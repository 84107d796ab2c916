/** What each pass of the chute's loop tells, and when, in true time and in terms of what happened. */
module ChuteTurns {
  import opened Words
  import opened Results
  import opened Sensors
  import opened Chute
  import opened ChuteRuns
  import opened ChuteClock
  import Tag

  // ---------------------------------------------------------------------------
  // Phases of a turn
  // ---------------------------------------------------------------------------

  /** The time of an event on the clock of the loop; edges and tags do not read it. */
  function TimeOf(e: Event): nat {
    match e
    case Message(_, at) => at
    case Loop(at) => at
    case _ => 0
  }

  /** Messages and passes come in order of their true times. */
  predicate Ordered(from: nat, es: seq<Event>)
    decreases |es|
  {
    es != [] ==>
      if es[0].Message? || es[0].Loop? then from <= TimeOf(es[0]) && Ordered(TimeOf(es[0]), es[1..]) else Ordered(from, es[1..])
  }

  /** The time of the last event that changed the state. */
  function PhaseStart(es: seq<Event>): nat {
    if es == [] then 0
    else
      var front, e := es[..|es| - 1], es[|es| - 1];
      if Step(Run(BOOT, front), e).state != Run(BOOT, front).state then TimeOf(e) else PhaseStart(front)
  }

  /** How long each phase of a turn waits, in milliseconds. */
  function Patience(s: State): nat {
    match s
    case AwaitingFall => 3000
    case _ => 2000
  }

  lemma {:induction false} RunLast(c: Chute, es: seq<Event>, e: Event)
    ensures Run(c, es + [e]) == Step(Run(c, es), e)
    decreases |es|
  {
    hide Step;
    var longer := es + [e];
    if es == [] {
      assert longer[1..] == [];
      assert Run(Step(c, e), longer[1..]) == Step(c, e);
    } else {
      assert longer[1..] == es[1..] + [e];
      RunLast(Step(c, es[0]), es[1..], e);
    }
  }

  lemma RunFront(es: seq<Event>)
    requires es != []
    ensures Run(BOOT, es) == Step(Run(BOOT, es[..|es| - 1]), es[|es| - 1])
  {
    hide Step, Run;
    RunLast(BOOT, es[..|es| - 1], es[|es| - 1]);
    assert es[..|es| - 1] + [es[|es| - 1]] == es;
  }

  /** The deadline of a turn is the time its phase began plus the phase's patience. */
  ghost predicate InPhase(c: Chute, start: nat) {
    InTurn(c.state) ==> c.deadline == Clock32(start + Patience(c.state))
  }

  lemma StepInPhase(c: Chute, e: Event, start: nat)
    requires InPhase(c, start)
    ensures InPhase(Step(c, e), if Step(c, e).state != c.state then TimeOf(e) else start)
  {
    hide Tag.Hex, Clock32, Due, Bounces, AfterEdge;
    if e.Loop? || e.Message? {
      AfterIsSum(TimeOf(e), T_FALL);
      AfterIsSum(TimeOf(e), T_ID);
    }
  }

  lemma {:induction false} RunInPhase(es: seq<Event>)
    ensures InPhase(Run(BOOT, es), PhaseStart(es))
  {
    hide InPhase, Step;
    if es == [] {
      BootInPhase();
    } else {
      RunInPhase(es[..|es| - 1]);
      RunFront(es);
      StepInPhase(Run(BOOT, es[..|es| - 1]), es[|es| - 1], PhaseStart(es[..|es| - 1]));
    }
  }

  lemma BootInPhase()
    ensures InPhase(BOOT, 0)
  {}

  lemma {:induction false} OrderedFront(from: nat, es: seq<Event>, e: Event)
    requires Ordered(from, es + [e])
    ensures Ordered(from, es) && (e.Message? || e.Loop? ==> from <= TimeOf(e))
    decreases |es|
  {
    var longer := es + [e];
    if es != [] {
      assert longer[1..] == es[1..] + [e];
      OrderedFront(if es[0].Message? || es[0].Loop? then TimeOf(es[0]) else from, es[1..], e);
    }
  }

  /** A later pass does not come before the phase began. */
  lemma {:induction false} PhaseIsPast(es: seq<Event>, at: nat)
    requires Ordered(0, es + [Loop(at)])
    ensures PhaseStart(es) <= at
  {
    hide Run, Step;
    if es != [] {
      var front, e := es[..|es| - 1], es[|es| - 1];
      assert es == front + [e];
      OrderedTwo(0, front, e, Loop(at));
      PhaseIsPast(front, at);
    }
  }

  lemma {:induction false} OrderedTwo(from: nat, es: seq<Event>, e: Event, f: Event)
    requires Ordered(from, es + [e] + [f]) && f.Loop?
    ensures Ordered(from, es + [f]) && TimeOf(e) <= TimeOf(f)
    decreases |es|
  {
    var longer := es + [e] + [f];
    if es == [] {
      assert longer[1..] == [f] && [f][1..] == [] && ([] + [f])[1..] == [];
    } else {
      assert longer[1..] == es[1..] + [e] + [f] && (es + [f])[1..] == es[1..] + [f];
      OrderedTwo(if es[0].Message? || es[0].Loop? then TimeOf(es[0]) else from, es[1..], e, f);
    }
  }

  // ---------------------------------------------------------------------------
  // What a pass tells
  // ---------------------------------------------------------------------------

  /** What a pass tells of a turn in which these things have happened, and whose phase has waited so long. */
  function Told(h: seq<Entry>, waited: int): seq<Entry> {
    var t := Turn(h);
    if t == Some([]) then
      if Since(h, EntryEdge) then [Fell] else if waited >= 3000 then [Sent(Verdict(NoFall, None))] else []
    else if t == Some([Fell]) then
      if Waiting(h).Some? then [SerialRead(Waiting(h).value)]
      else if waited >= 2000 then [Sent(Verdict(NoRead, None))]
      else []
    else if t.Some? && |t.value| == 2 && t.value[1].SerialRead? then
      var u := t.value[1].uid;
      if Since(h, ExitEdge) then [Left, Sent(Verdict(Ok, Some(u)))]
      else if waited >= 2000 then [Sent(Verdict(NoExit, Some(u)))]
      else []
    else []
  }

  /** The state a turn is in after this was told. */
  function StateAfter(s: State, told: seq<Entry>): State {
    if told == [] then s
    else match told[|told| - 1]
      case Fell => Identifying
      case SerialRead(_) => Clearing
      case Sent(Verdict(NoFall, _)) => Idle
      case Sent(Verdict(Ok, _)) => Idle
      case _ => Blocked
  }

  lemma PassTells(c: Chute, start: nat, at: nat)
    requires Safe(c) && InTurn(c.state) && InPhase(c, start) && start <= at
    ensures var c' := Ticked(c, Clock32(at));
            && (at < start + 0x8000_0000 ==>
                  c'.history == c.history + Told(c.history, at - start) && c'.state == StateAfter(c.state, Told(c.history, at - start)))
            && (at < start + Patience(c.state) ==> c'.history == c.history + Told(c.history, 0))
  {
    hide Turn, Since, Waiting, AllJustified, Arms, Verdicts, Clock32, Due;
    DueAfter(start + Patience(c.state), at, start);
    assert c.history + [] == c.history;
    if c.state.Clearing? {
      var u := c.pending;
      assert c.history + [Left] + [Sent(Verdict(Ok, Some(u)))] == c.history + [Left, Sent(Verdict(Ok, Some(u)))];
    }
  }

  /** No deadline that lies ahead is due, however the clock wraps. */
  lemma DueAfter(due: nat, at: nat, start: nat)
    requires start <= at && start <= due <= start + 3000
    ensures Due(Clock32(at), Clock32(due)) ==> at >= due
    ensures at < start + 0x8000_0000 ==> (Due(Clock32(at), Clock32(due)) <==> at >= due)
  {
    hide Clock32, Due;
    if at < start + 0x8000_0000 { DueIsUnbounded(at, due); }
  }

  /**
   * In every run, whatever happened and whenever: what a pass of the loop tells of the turn that is on follows from what
   * happened since its arm and from how long its phase has waited, and from nothing else. Something fell if and only if
   * there was an entry edge; a serial is reported if and only if one is there; and a turn is given up if and only if its
   * phase has waited 3000 or 2000 ms in vain. The chute is blocked by the two outcomes that say so, and by no other.
   */
  lemma PassTellsExactly(es: seq<Event>, at: nat)
    requires Ordered(0, es + [Loop(at)]) && InTurn(Run(BOOT, es).state) && at < PhaseStart(es) + 0x8000_0000
    ensures var c := Run(BOOT, es);
            var told := Told(c.history, at - PhaseStart(es));
            Step(c, Loop(at)).history == c.history + told && Step(c, Loop(at)).state == StateAfter(c.state, told)
  {
    hide Run, Safe, InPhase, Ticked, PhaseStart, Told, StateAfter;
    BootSafe();
    RunSafe(BOOT, es);
    RunInPhase(es);
    PhaseIsPast(es, at);
    PassTells(Run(BOOT, es), PhaseStart(es), at);
  }

  /** The event with which the current phase began: the arm, the pass that noted the fall, or the one that read the serial. */
  ghost predicate Begins(es: seq<Event>, j: nat)
    requires j < |es|
  {
    var before, after := Run(BOOT, es[..j]), Step(Run(BOOT, es[..j]), es[j]);
    match Run(BOOT, es).state
    case AwaitingFall => es[j].Message? && es[j].m.Arm? && before.state.Idle? && after.history == before.history + [Armed(before.slot)]
    case Identifying => es[j].Loop? && after.history == before.history + [Fell]
    case _ => es[j].Loop? && after.history == before.history + [SerialRead(after.pending)]
  }

  lemma {:induction false} PhaseBegan(es: seq<Event>) returns (j: nat)
    requires InTurn(Run(BOOT, es).state)
    ensures j < |es| && PhaseStart(es) == TimeOf(es[j]) && Begins(es, j)
    ensures forall k :: j < k <= |es| ==> Run(BOOT, es[..k]).state == Run(BOOT, es).state
  {
    hide Step, Run;
    BootIsIdle();
    var n := |es| - 1;
    var front, e := es[..n], es[n];
    RunFront(es);
    assert es[..|es|] == es;
    if Run(BOOT, es).state == Run(BOOT, front).state {
      j := PhaseBegan(front);
      forall k | j < k <= |es|
        ensures Run(BOOT, es[..k]).state == Run(BOOT, es).state
      {
        if k < |es| { assert es[..k] == front[..k]; }
      }
      assert es[..j] == front[..j];
    } else {
      j := n;
      TurnsBegin(Run(BOOT, front), e);
    }
  }

  lemma BootIsIdle()
    ensures Run(BOOT, []).state.Idle?
  {}

  lemma TurnsBegin(c: Chute, e: Event)
    requires InTurn(Step(c, e).state) && Step(c, e).state != c.state
    ensures var c' := Step(c, e);
            match c'.state
            case AwaitingFall => e.Message? && e.m.Arm? && c.state.Idle? && c'.history == c.history + [Armed(c.slot)]
            case Identifying => e.Loop? && c'.history == c.history + [Fell]
            case _ => e.Loop? && c'.history == c.history + [SerialRead(c'.pending)]
  {
    hide Tag.Hex, Due, Bounces, AfterEdge, After;
  }

  /**
   * No turn is given up too soon, on whatever run and however far the clock has wrapped: a pass that says nothing fell
   * comes at least 3000 ms after the arm, one that gives up on the serial at least 2000 ms after the pass that noted the
   * fall, and then nothing was heard since the arm or waiting at it; one that gives up on the exit at least 2000 ms after
   * the pass that read the serial.
   */
  lemma NeverTooSoon(es: seq<Event>, at: nat) returns (j: nat)
    requires Ordered(0, es + [Loop(at)])
    requires InTurn(Run(BOOT, es).state)
    ensures j < |es| && Begins(es, j)
    ensures forall k :: j < k <= |es| ==> Run(BOOT, es[..k]).state == Run(BOOT, es).state
    ensures var h, h' := Run(BOOT, es).history, Step(Run(BOOT, es), Loop(at)).history;
            && (h' == h + [Sent(Verdict(NoFall, None))] ==> at >= TimeOf(es[j]) + 3000)
            && (h' == h + [Sent(Verdict(NoRead, None))] ==> at >= TimeOf(es[j]) + 2000 && Waiting(h).None?)
            && (forall u :: h' == h + [Sent(Verdict(NoExit, u))] ==> at >= TimeOf(es[j]) + 2000)
  {
    hide Run, Ticked, InPhase, Begins, PhaseStart, AllJustified, Turn, Since, Waiting, Arms, Verdicts;
    j := PhaseBegan(es);
    BootSafe();
    RunSafe(BOOT, es);
    RunInPhase(es);
    PhaseIsPast(es, at);
    var c := Run(BOOT, es);
    PassTells(c, PhaseStart(es), at);
    GivesUp(c, Clock32(at));
    forall o, u | Ticked(c, Clock32(at)).history == c.history + [Sent(Verdict(o, u))] && !o.Ok?
      ensures at >= PhaseStart(es) + Patience(c.state)
    {
      NotYet(c.history, o, u);
    }
  }

  lemma NotYet(h: seq<Entry>, o: Outcome, u: Option<string>)
    requires !o.Ok?
    ensures h + Told(h, 0) != h + [Sent(Verdict(o, u))]
  {
    assert (h + Told(h, 0))[|h|..] == Told(h, 0);
    assert (h + [Sent(Verdict(o, u))])[|h|..] == [Sent(Verdict(o, u))];
  }

  lemma GivesUp(c: Chute, now: u32)
    requires Safe(c) && InTurn(c.state)
    ensures var h, h' := c.history, Ticked(c, now).history;
            && (h' == h + [Sent(Verdict(NoFall, None))] ==> c.state.AwaitingFall?)
            && (h' == h + [Sent(Verdict(NoRead, None))] ==> c.state.Identifying? && Waiting(h).None?)
  {
    hide AllJustified, Turn, Since, Waiting, Arms, Verdicts, Due;
    var h, h' := c.history, Ticked(c, now).history;
    assert forall e :: (h + [e])[|h|] == e;
    if |h'| > |h| { assert h'[|h|] == h'[|h|..][0]; }
  }

  ghost predicate NoVerdictFrom(h: seq<Entry>, n: nat) {
    forall i :: n <= i < |h| ==> !IsVerdict(h[i])
  }

  /** The first verdict at or after position n says that a serial was read. */
  ghost predicate EndsWithSerial(h: seq<Entry>, n: nat) {
    forall i :: n <= i < |h| && IsVerdict(h[i]) && NoVerdictFrom(h[..i], n) ==>
      h[i].message.outcome.Ok? || h[i].message.outcome.NoExit?
  }

  ghost predicate SerialOnCourse(c: Chute, n: nat) {
    && n <= |c.history| && EndsWithSerial(c.history, n)
    && (NoVerdictFrom(c.history, n) ==> (c.state.Identifying? && c.slot.Some?) || c.state.Clearing?)
  }

  lemma NoteSerial(h: seq<Entry>, e: Entry, n: nat)
    requires n <= |h| && EndsWithSerial(h, n)
    requires IsVerdict(e) && NoVerdictFrom(h, n) ==> e.message.outcome.Ok? || e.message.outcome.NoExit?
    ensures EndsWithSerial(h + [e], n)
    ensures NoVerdictFrom(h + [e], n) <==> NoVerdictFrom(h, n) && !IsVerdict(e)
  {
    var h' := h + [e];
    forall i | n <= i < |h'| && IsVerdict(h'[i]) && NoVerdictFrom(h'[..i], n)
      ensures h'[i].message.outcome.Ok? || h'[i].message.outcome.NoExit?
    {
      assert h'[..i] == h[..i];
      if i == |h| { assert h[..i] == h; }
    }
    if NoVerdictFrom(h', n) {
      assert forall i :: n <= i < |h| ==> h'[i] == h[i];
      assert h'[|h|] == e;
    }
  }

  lemma StepOnCourse(c: Chute, e: Event, n: nat)
    requires SerialOnCourse(c, n)
    ensures SerialOnCourse(Step(c, e), n)
  {
    hide EndsWithSerial, NoVerdictFrom, Tag.Hex, Due, Clock32, Bounces, AfterEdge, After;
    var h, c' := c.history, Step(c, e);
    if e.Loop? && c.state.Clearing? && c.exitBeam.flag {
      NoteSerial(h, Left, n);
      NoteSerial(h + [Left], Sent(VerdictMessage(Ok, c.pending)), n);
    } else if c'.history != h {
      var x := c'.history[|h|];
      assert c'.history == h + [x];
      NoteSerial(h, x, n);
    }
  }

  lemma {:induction false} RunOnCourse(c: Chute, es: seq<Event>, n: nat)
    requires SerialOnCourse(c, n)
    ensures SerialOnCourse(Run(c, es), n)
    decreases |es|
  {
    hide SerialOnCourse, Step;
    if es != [] {
      StepOnCourse(c, es[0], n);
      RunOnCourse(Step(c, es[0]), es[1..], n);
    }
  }

  /**
   * Once something fell and a serial is there, heard since the arm or waiting at it, before the turn is given up, the turn
   * ends as one whose serial was read, on every run; it is not given up before then, however late the next pass is.
   */
  lemma SerialInTimeIsReported(es: seq<Event>, more: seq<Event>)
    requires Run(BOOT, es).state.Identifying? && Waiting(Run(BOOT, es).history).Some?
    ensures EndsWithSerial(Run(Run(BOOT, es), more).history, |Run(BOOT, es).history|)
  {
    hide Run, AllJustified, Turn, Since, Waiting, Arms, Verdicts;
    BootSafe();
    RunSafe(BOOT, es);
    RunOnCourse(Run(BOOT, es), more, |Run(BOOT, es).history|);
  }

  // ---------------------------------------------------------------------------
  // Enrollment
  // ---------------------------------------------------------------------------

  /** The last serial heard. */
  function LastHeard(h: seq<Entry>): Option<string> {
    if h == [] then None
    else if h[|h| - 1].Heard? then Some(h[|h| - 1].uid)
    else LastHeard(h[..|h| - 1])
  }

  lemma HeardAppended(h: seq<Entry>, e: Entry)
    ensures LastHeard(h + [e]) == if e.Heard? then Some(e.uid) else LastHeard(h)
  {
    assert (h + [e])[..|h|] == h;
  }

  /** While the window is open its deadline stands and the mailbox holds what was heard since. */
  ghost predicate Enrolling(c: Chute, deadline: u32, n: nat) {
    c.state.Enroll? && c.deadline == deadline && n <= |c.history| && c.slot == LastHeard(c.history[n..])
  }

  lemma StepEnrolling(c: Chute, e: Event, deadline: u32, n: nat)
    requires Enrolling(c, deadline, n) && Step(c, e).state.Enroll?
    ensures Enrolling(Step(c, e), deadline, n)
  {
    hide LastHeard, Tag.Hex, Due, Clock32, Bounces, AfterEdge, After;
    var h, h' := c.history, Step(c, e).history;
    if h' != h {
      var x := h'[|h|];
      assert h' == h + [x];
      HeardAppended(h[n..], x);
      assert h'[n..] == h[n..] + [x];
    }
  }

  lemma {:induction false} RunEnrolling(c: Chute, es: seq<Event>, deadline: u32, n: nat)
    requires Enrolling(c, deadline, n) && forall j :: 0 <= j <= |es| ==> Run(c, es[..j]).state.Enroll?
    ensures Enrolling(Run(c, es), deadline, n)
    decreases |es|
  {
    hide Enrolling, Step;
    if es != [] {
      forall j | 0 <= j <= |es[1..]|
        ensures Run(Step(c, es[0]), es[1..][..j]) == Run(c, es[..j + 1])
      {
        assert es[..j + 1][1..] == es[1..][..j];
      }
      assert es[1..][..0] == [];
      assert Run(c, es[..1]).state.Enroll?;
      StepEnrolling(c, es[0], deadline, n);
      RunEnrolling(Step(c, es[0]), es[1..], deadline, n);
    }
  }

  /**
   * An enrollment window of at most 2^31 ms, 10 s if none is asked for: a pass reports the last tag heard since the window
   * began, never one from before; if none was heard it ends the window if and only if its time is over.
   */
  lemma EnrollmentExactly(c: Chute, t: nat, timeout: u32, es: seq<Event>, at: nat)
    requires c.state.Idle? && timeout <= 0x8000_0000 && t <= at < t + 0x8000_0000
    requires forall j :: 0 <= j <= |es| ==> Run(Received(c, EnrollRequest(timeout), Clock32(t)), es[..j]).state.Enroll?
    ensures var began := Received(c, EnrollRequest(timeout), Clock32(t)); |began.history| <= |Run(began, es).history|
    ensures var began := Received(c, EnrollRequest(timeout), Clock32(t));
            var open := Run(began, es);
            var heard := LastHeard(open.history[|began.history|..]);
            var over := at >= t + if timeout != 0 then timeout else 10_000;
            var told := if heard.Some? then [Sent(TagScanned(heard.value))] else if over then [Sent(EnrollTimeout)] else [];
            && Step(open, Loop(at)).history == open.history + told
            && Step(open, Loop(at)).state == if told == [] then Enroll else Idle
  {
    hide LastHeard, Run, Clock32, Due;
    var began := Received(c, EnrollRequest(timeout), Clock32(t));
    var w := if timeout != 0 then timeout else 10_000;
    AfterIsSum(t, w);
    assert began.history[|began.history|..] == [] && LastHeard([]) == None by { NothingHeard(); }
    RunEnrolling(began, es, began.deadline, |began.history|);
    DueIsUnbounded(at, t + w);
    var open := Run(began, es);
    assert open.history + [] == open.history;
  }

  lemma NothingHeard()
    ensures LastHeard([]) == None
  {}

  // ---------------------------------------------------------------------------
  // A blocked chute
  // ---------------------------------------------------------------------------

  /** The outcome of the last verdict sent. */
  function LastOutcome(h: seq<Entry>): Option<Outcome> {
    if h == [] then None
    else if IsVerdict(h[|h| - 1]) then Some(h[|h| - 1].message.outcome)
    else LastOutcome(h[..|h| - 1])
  }

  /** The fault this outcome stands for. */
  function FaultOf(o: Option<Outcome>): Option<Fault> {
    match o
    case Some(NoRead) => Some(RfidFailed)
    case Some(NoExit) => Some(ExitTimeout)
    case _ => None
  }

  predicate Blames(before: seq<Entry>, e: Entry) {
    e.Sent? && e.message.StillBlocked? ==> e.message.kind.Some? && e.message.kind == FaultOf(LastOutcome(before))
  }

  ghost predicate Blamed(c: Chute) {
    && (c.state.Blocked? ==> c.fault.Some? && c.fault == FaultOf(LastOutcome(c.history)))
    && forall i :: 0 <= i < |c.history| ==> Blames(c.history[..i], c.history[i])
  }

  lemma NoteBlamed(h: seq<Entry>, e: Entry)
    requires (forall i :: 0 <= i < |h| ==> Blames(h[..i], h[i])) && Blames(h, e)
    ensures forall i :: 0 <= i < |h + [e]| ==> Blames((h + [e])[..i], (h + [e])[i])
    ensures LastOutcome(h + [e]) == if IsVerdict(e) then Some(e.message.outcome) else LastOutcome(h)
  {
    var h' := h + [e];
    assert h'[..|h|] == h;
    forall i | 0 <= i < |h'|
      ensures Blames(h'[..i], h'[i])
    {
      assert h'[..i] == h[..i];
      if i == |h| { assert h[..i] == h; }
    }
  }

  lemma TickBlamed(c: Chute, now: u32)
    requires Blamed(c)
    ensures Blamed(Ticked(c, now))
  {
    hide Blames, LastOutcome, Due, After;
    var h, c' := c.history, Ticked(c, now);
    if c.state.Clearing? && c.exitBeam.flag {
      NotBlaming(h, Left);
      NoteBlamed(h, Left);
      NotBlaming(h + [Left], Sent(VerdictMessage(Ok, c.pending)));
      NoteBlamed(h + [Left], Sent(VerdictMessage(Ok, c.pending)));
    } else if c'.history != h {
      var x := c'.history[|h|];
      assert c'.history == h + [x];
      NotBlaming(h, x);
      NoteBlamed(h, x);
    }
  }

  lemma StepBlamed(c: Chute, e: Event)
    requires Blamed(c)
    ensures Blamed(Step(c, e))
  {
    hide Blames, LastOutcome, Tag.Hex, Ticked, Clock32, Bounces, AfterEdge, After;
    if e.Loop? {
      TickBlamed(c, Clock32(e.at));
    } else {
      var h, c' := c.history, Step(c, e);
      if c'.history != h {
        var x := c'.history[|h|];
        assert c'.history == h + [x];
        NotBlaming(h, x);
        NoteBlamed(h, x);
      }
    }
  }

  lemma NotBlaming(h: seq<Entry>, e: Entry)
    ensures Blames(h, e) <==> !(e.Sent? && e.message.StillBlocked?) || (e.message.kind.Some? && e.message.kind == FaultOf(LastOutcome(h)))
  {}

  lemma {:induction false} RunBlamed(c: Chute, es: seq<Event>)
    requires Blamed(c)
    ensures Blamed(Run(c, es))
    decreases |es|
  {
    hide Blamed, Step;
    if es != [] {
      StepBlamed(c, es[0]);
      RunBlamed(Step(c, es[0]), es[1..]);
    }
  }

  /** In every run the fault of a blocked chute is the one its last verdict stood for, and so is the one an arm is told. */
  lemma FaultIsLastVerdicts(es: seq<Event>)
    ensures var c := Run(BOOT, es);
            && (c.state.Blocked? ==> c.fault.Some? && c.fault == FaultOf(LastOutcome(c.history)))
            && forall i, k :: 0 <= i < |c.history| && c.history[i] == Sent(StillBlocked(k)) ==>
                 k.Some? && k == FaultOf(LastOutcome(c.history[..i]))
  {
    hide Run, LastOutcome;
    BootBlamed();
    RunBlamed(BOOT, es);
    var c := Run(BOOT, es);
    assert forall i :: 0 <= i < |c.history| ==> Blames(c.history[..i], c.history[i]);
  }

  lemma BootBlamed()
    ensures Blamed(BOOT)
  {}

  predicate ClearFree(es: seq<Event>) {
    forall i :: 0 <= i < |es| ==> !(es[i].Message? && es[i].m.FaultClear?)
  }

  /**
   * A blocked chute stays blocked, released, with its fault, on every run without a message that clears it; it answers
   * each arm with that fault and nothing else. When it is cleared, the next arm is accepted.
   */
  lemma {:induction false} BlockedUntilCleared(c: Chute, es: seq<Event>, at: nat)
    requires c.state.Blocked? && ClearFree(es)
    ensures var d := Run(c, es);
            && d.state.Blocked? && d.fault == c.fault && d.solenoid == c.solenoid
            && Step(d, Message(Arm, at)) == d.(history := d.history + [Sent(StillBlocked(c.fault))])
            && var armed := Step(Step(d, Message(FaultClear, at)), Message(Arm, at));
               armed.state.AwaitingFall? && armed.fault.None? && armed.history == d.history + [Armed(d.slot)]
    decreases |es|
  {
    hide Tag.Hex, Due, Clock32, Bounces, After;
    if es != [] {
      assert ClearFree(es[1..]) by { assert forall i :: 0 <= i < |es[1..]| ==> es[1..][i] == es[i + 1]; }
      StaysBlocked(c, es[0]);
      BlockedUntilCleared(Step(c, es[0]), es[1..], at);
    }
  }

  /** During a turn or an enrollment nothing but a ping is listened to; at rest a pass of the loop does nothing. */
  lemma DeafWhileBusy(c: Chute, m: Inbound, at: nat)
    ensures (InTurn(c.state) || c.state.Enroll?) && !m.Ping? ==> Step(c, Message(m, at)) == c
    ensures c.state.Idle? || c.state.Blocked? ==> Step(c, Loop(at)) == c
  {}

  lemma StaysBlocked(c: Chute, e: Event)
    requires c.state.Blocked? && !(e.Message? && e.m.FaultClear?)
    ensures var c' := Step(c, e); c'.state.Blocked? && c'.fault == c.fault && c'.solenoid == c.solenoid
  {
    hide Tag.Hex, Due, Clock32, Bounces, After;
  }

  // ---------------------------------------------------------------------------
  // Pings
  // ---------------------------------------------------------------------------

  function Pings(es: seq<Event>): seq<int> {
    if es == [] then []
    else Pings(es[..|es| - 1]) + if es[|es| - 1].Message? && es[|es| - 1].m.Ping? then [es[|es| - 1].m.seqno] else []
  }

  function Pongs(h: seq<Entry>): seq<int> {
    if h == [] then []
    else Pongs(h[..|h| - 1]) + if h[|h| - 1].Sent? && h[|h| - 1].message.Pong? then [h[|h| - 1].message.seqno] else []
  }

  lemma PongAppended(h: seq<Entry>, e: Entry)
    ensures Pongs(h + [e]) == Pongs(h) + if e.Sent? && e.message.Pong? then [e.message.seqno] else []
  {
    assert (h + [e])[..|h|] == h;
  }

  lemma StepAnswers(c: Chute, e: Event)
    ensures Pongs(Step(c, e).history) == Pongs(c.history) + if e.Message? && e.m.Ping? then [e.m.seqno] else []
  {
    hide Pongs, Tag.Hex, Due, Clock32, Bounces, AfterEdge, After;
    var h, c' := c.history, Step(c, e);
    assert Pongs(h) + [] == Pongs(h);
    if e.Loop? && c.state.Clearing? && c.exitBeam.flag {
      PongAppended(h, Left);
      PongAppended(h + [Left], Sent(VerdictMessage(Ok, c.pending)));
    } else if c'.history != h {
      var x := c'.history[|h|];
      assert c'.history == h + [x];
      PongAppended(h, x);
    }
  }

  /** In every run, whatever state the chute is in, each ping gets its pong, with its number and in order. */
  lemma {:induction false} PongsAnswerPings(es: seq<Event>)
    ensures Pongs(Run(BOOT, es).history) == Pings(es)
  {
    hide Step;
    if es == [] {
      BootIsSilent();
    } else {
      PongsAnswerPings(es[..|es| - 1]);
      RunFront(es);
      StepAnswers(Run(BOOT, es[..|es| - 1]), es[|es| - 1]);
    }
  }

  lemma BootIsSilent()
    ensures Pongs(Run(BOOT, []).history) == []
  {}
}

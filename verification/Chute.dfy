/** The chute's state machine: what each message, edge, tag and tick does. */
module Chute {
  import opened Words
  import opened Results
  import opened Sensors
  import Tag

  // Milliseconds.
  const T_FALL: u32 := 3000
  const T_ID: u32 := 2000
  const T_EXIT: u32 := 2000
  const ENROLL_WINDOW: u32 := 10000

  datatype State = Idle | AwaitingFall | Identifying | Clearing | Enroll | Blocked

  datatype Fault = RfidFailed | ExitTimeout

  datatype Outcome = NoFall | NoRead | NoExit | Ok

  datatype Inbound = Unknown | Arm | FaultClear | Ping(seqno: int) | EnrollRequest(timeoutMs: u32)

  datatype Message =
    | Verdict(outcome: Outcome, serial: Option<string>)
    | StillBlocked(kind: Option<Fault>)
    | Pong(seqno: int)
    | TagScanned(uid: string)
    | EnrollTimeout

  /** What has happened so far, in order. An accepted arm notes the serial that waits in the reader's mailbox. */
  datatype Entry =
    | Armed(waiting: Option<string>)
    | Heard(uid: string)
    | EntryEdge
    | ExitEdge
    | Fell
    | Left
    | SerialRead(uid: string)
    | Sent(message: Message)

  datatype Chute = Chute(state: State, fault: Option<Fault>, deadline: u32, pending: string, solenoid: bool,
                         entryBeam: Edges, exitBeam: Edges, slot: Option<string>, history: seq<Entry>)

  /** After `install`. */
  const BOOT: Chute := Chute(Idle, None, 0, "", false, Edges(false, 0), Edges(false, 0), None, [])

  /** A deadline, on the 32-bit clock. */
  function After(now: u32, ms: u32): u32 {
    (now + ms) % 0x1_0000_0000
  }

  /** `(int32_t)(now - deadline) >= 0`. */
  predicate Due(now: u32, deadline: u32) {
    (now - deadline) % 0x1_0000_0000 < 0x8000_0000
  }

  function Noted(c: Chute, e: Entry): Chute {
    c.(history := c.history + [e])
  }

  function Emitted(c: Chute, m: Message): Chute {
    Noted(c, Sent(m))
  }

  /** An empty serial goes out as null. */
  function VerdictMessage(outcome: Outcome, uid: string): Message {
    Verdict(outcome, if uid == "" then None else Some(uid))
  }

  function Latched(c: Chute, kind: Fault): Chute {
    c.(state := Blocked, fault := Some(kind), solenoid := false)
  }

  function Received(c: Chute, m: Inbound, now: u32): Chute {
    match m
    case Ping(n) => Emitted(c, Pong(n))
    case FaultClear => if c.state.Blocked? then c.(fault := None, state := Idle) else c
    case Arm =>
      if c.state.Blocked? then Emitted(c, StillBlocked(c.fault))
      else if !c.state.Idle? then c
      else Noted(c.(entryBeam := c.entryBeam.(flag := false), exitBeam := c.exitBeam.(flag := false),
                    pending := "", state := AwaitingFall, deadline := After(now, T_FALL)), Armed(c.slot))
    case EnrollRequest(timeout) =>
      if !c.state.Idle? then c
      else c.(slot := None, state := Enroll, deadline := After(now, if timeout != 0 then timeout else ENROLL_WINDOW))
    case Unknown => c
  }

  function Ticked(c: Chute, now: u32): Chute {
    match c.state
    case Idle => c
    case Blocked => c
    case AwaitingFall =>
      var taken := c.(entryBeam := c.entryBeam.(flag := false));
      if c.entryBeam.flag then Noted(taken.(state := Identifying, deadline := After(now, T_ID)), Fell)
      else if Due(now, c.deadline) then Emitted(taken.(state := Idle), Verdict(NoFall, None))
      else taken
    case Identifying =>
      if c.slot.Some? then
        Noted(c.(slot := None, pending := c.slot.value, solenoid := true, state := Clearing, deadline := After(now, T_EXIT)),
              SerialRead(c.slot.value))
      else if Due(now, c.deadline) then Emitted(Latched(c, RfidFailed), Verdict(NoRead, None))
      else c
    case Clearing =>
      var taken := c.(exitBeam := c.exitBeam.(flag := false));
      if c.exitBeam.flag then Emitted(Noted(taken.(solenoid := false, state := Idle), Left), VerdictMessage(Ok, c.pending))
      else if Due(now, c.deadline) then Emitted(Latched(taken, ExitTimeout), VerdictMessage(NoExit, c.pending))
      else taken
    case Enroll =>
      if c.slot.Some? then Emitted(c.(slot := None, state := Idle), TagScanned(c.slot.value))
      else if Due(now, c.deadline) then Emitted(c.(state := Idle), EnrollTimeout)
      else c
  }

  function EntryBroken(c: Chute, us: u32): Chute {
    if Bounces(c.entryBeam, us) then c else Noted(c.(entryBeam := AfterEdge(c.entryBeam, us)), EntryEdge)
  }

  function ExitBroken(c: Chute, us: u32): Chute {
    if Bounces(c.exitBeam, us) then c else Noted(c.(exitBeam := AfterEdge(c.exitBeam, us)), ExitEdge)
  }

  function TagHeard(c: Chute, tag: seq<u8>): Chute
    requires |tag| >= 8
  {
    Noted(c.(slot := Some(Tag.Hex(tag))), Heard(Tag.Hex(tag)))
  }

  // ---------------------------------------------------------------------------
  // The machine
  // ---------------------------------------------------------------------------

  class Machine {
    var state: State
    var fault: Option<Fault>
    var deadline: u32
    var pending: string
    var solenoid: bool
    const entryBeam: Beam
    const exitBeam: Beam
    const reader: Tag.Mailbox
    ghost var history: seq<Entry>

    ghost predicate Valid()
      reads this, entryBeam, exitBeam, reader
    {
      entryBeam != exitBeam && reader.Valid()
    }

    ghost function View(): Chute
      requires Valid()
      reads this, entryBeam, exitBeam, reader
    {
      Chute(state, fault, deadline, pending, solenoid, entryBeam.View(), exitBeam.View(), reader.Slot(), history)
    }

    constructor ()
      ensures Valid() && View() == BOOT
      ensures fresh(this) && fresh(entryBeam) && fresh(exitBeam) && fresh(reader)
    {
      entryBeam := new Beam();
      exitBeam := new Beam();
      reader := new Tag.Mailbox();
      state, fault, deadline, pending, solenoid, history := Idle, None, 0, "", false, [];
    }

    method Emit(m: Message)
      modifies this`history
      ensures history == old(history) + [Sent(m)]
    {
      history := history + [Sent(m)];
    }

    method EmitVerdict(outcome: Outcome, uid: string)
      modifies this`history
      ensures history == old(history) + [Sent(VerdictMessage(outcome, uid))]
    {
      if uid != "" {
        Emit(Verdict(outcome, Some(uid)));
      } else {
        Emit(Verdict(outcome, None));
      }
    }

    /** Latches without emitting: the caller sends the one verdict of this arm. */
    method LatchBlocked(kind: Fault)
      modifies this`state, this`fault, this`solenoid
      ensures state == Blocked && fault == Some(kind) && !solenoid
    {
      state := Blocked;
      fault := Some(kind);
      solenoid := false;
    }

    method OnInbound(m: Inbound, now: u32)
      requires Valid()
      modifies this, entryBeam, exitBeam, reader
      ensures Valid() && View() == Received(old(View()), m, now)
    {
      match m {
        case Ping(n) =>
          Emit(Pong(n));
        case FaultClear =>
          if state == Blocked {
            fault := None;
            state := Idle;
          }
        case Arm =>
          if state == Blocked {
            Emit(StillBlocked(fault));
            return;
          }
          if state != Idle { return; }
          var _ := entryBeam.Take();
          var _ := exitBeam.Take();
          pending := "";
          state := AwaitingFall;
          deadline := After(now, T_FALL);
          history := history + [Armed(reader.Slot())];
        case EnrollRequest(timeout) =>
          if state != Idle { return; }
          var dummy := new char[17];
          var _ := reader.TryReadOnce(dummy);
          state := Enroll;
          deadline := After(now, if timeout != 0 then timeout else ENROLL_WINDOW);
        case Unknown =>
      }
    }

    method Tick(now: u32)
      requires Valid()
      modifies this, entryBeam, exitBeam, reader
      ensures Valid() && View() == Ticked(old(View()), now)
    {
      match state {
        case Idle =>
        case Blocked =>
        case AwaitingFall =>
          var fell := entryBeam.Take();
          if fell {
            state := Identifying;
            deadline := After(now, T_ID);
            history := history + [Fell];
            return;
          }
          if Due(now, deadline) {
            state := Idle;
            EmitVerdict(NoFall, "");
          }
        case Identifying =>
          var uid := new char[17];
          var got := reader.TryReadOnce(uid);
          if got {
            pending := uid[..16];
            solenoid := true;
            state := Clearing;
            deadline := After(now, T_EXIT);
            history := history + [SerialRead(pending)];
            return;
          }
          if Due(now, deadline) {
            LatchBlocked(RfidFailed);
            EmitVerdict(NoRead, "");
          }
        case Clearing =>
          var left := exitBeam.Take();
          if left {
            solenoid := false;
            state := Idle;
            history := history + [Left];
            EmitVerdict(Ok, pending);
            return;
          }
          if Due(now, deadline) {
            LatchBlocked(ExitTimeout);
            EmitVerdict(NoExit, pending);
          }
        case Enroll =>
          var uid := new char[17];
          var got := reader.TryReadOnce(uid);
          if got {
            state := Idle;
            Emit(TagScanned(uid[..16]));
            return;
          }
          if Due(now, deadline) {
            state := Idle;
            Emit(EnrollTimeout);
          }
      }
    }

    method OnEntryEdge(us: u32)
      requires Valid()
      modifies this, entryBeam
      ensures Valid() && View() == EntryBroken(old(View()), us)
    {
      if !Bounces(entryBeam.View(), us) { history := history + [EntryEdge]; }
      entryBeam.OnEdge(us);
    }

    method OnExitEdge(us: u32)
      requires Valid()
      modifies this, exitBeam
      ensures Valid() && View() == ExitBroken(old(View()), us)
    {
      if !Bounces(exitBeam.View(), us) { history := history + [ExitEdge]; }
      exitBeam.OnEdge(us);
    }

    method OnTag(tag: seq<u8>)
      requires Valid() && |tag| >= 8
      modifies this, reader
      ensures Valid() && View() == TagHeard(old(View()), tag)
    {
      history := history + [Heard(Tag.Hex(tag))];
      reader.Deliver(tag);
    }
  }
}

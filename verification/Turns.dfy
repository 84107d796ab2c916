/** Turns and verdicts: which turn a chute verdict belongs to. */
module Turns {
  import opened Results
  import opened Tables
  import Chute

  /** What the operator sees. */
  datatype Fault = RfidFailed | ExitTimeout | InternalError

  datatype Note =
    | Ended(key: Option<Key>, player: Option<Address>)
    | Judged(key: Option<Key>, player: Option<Address>, outcome: Option<Chute.Outcome>, serial: Option<Serial>)

  /** The turn that is on, the turn that awaits its verdict, the cabinet's fault, and what happened so far. */
  datatype Turn = Turn(key: Option<Key>, player: Option<Address>, awaitingKey: Option<Key>, awaitingPlayer: Option<Address>,
                       fault: Option<Fault>, ready: bool, history: seq<Note>)

  const NO_TURN: Turn := Turn(None, None, None, None, None, false, [])

  // An outcome the table does not know is None.

  /** Outcomes that hand out a prize. */
  predicate Won(outcome: Option<Chute.Outcome>) {
    outcome == Some(Chute.NoExit) || outcome == Some(Chute.Ok)
  }

  /** Is the chute still usable? */
  predicate Healthy(outcome: Option<Chute.Outcome>) {
    outcome == Some(Chute.NoFall) || outcome == Some(Chute.Ok)
  }

  function FaultOf(outcome: Option<Chute.Outcome>): Fault {
    match outcome
    case Some(NoRead) => RfidFailed
    case Some(NoExit) => ExitTimeout
    case _ => InternalError
  }

  function Start(t: Turn, key: Key, player: Address): Turn {
    t.(key := Some(key), player := Some(player))
  }

  function Clear(t: Turn): Turn {
    t.(key := None, player := None)
  }

  /** `turn_end` up to its first wait. */
  function End(t: Turn): Turn {
    t.(awaitingKey := t.key, awaitingPlayer := t.player, ready := false, history := t.history + [Ended(t.key, t.player)])
  }

  /** `on_chute_verdict` up to its first wait: the snapshot is consumed. */
  function Judge(t: Turn, outcome: Option<Chute.Outcome>, serial: Option<Serial>): Turn {
    t.(awaitingKey := None, awaitingPlayer := None, ready := t.ready || t.awaitingKey.None?,
       history := t.history + [Judged(t.awaitingKey, t.awaitingPlayer, outcome, serial)])
  }

  /** `on_chute_verdict` when its winner or loser has been told. */
  function Report(t: Turn, outcome: Option<Chute.Outcome>): Turn {
    t.(fault := if Healthy(outcome) then t.fault else Some(FaultOf(outcome)))
  }

  /** The end of `on_chute_verdict`, whatever ended it. */
  function Release(t: Turn): Turn {
    t.(ready := true)
  }

  /** `turn_end` when the grace period ends without a verdict. */
  function GiveUp(t: Turn): Turn {
    t.(fault := if t.fault.None? then Some(InternalError) else t.fault)
  }

  // ---------------------------------------------------------------------------
  // The process-wide state
  // ---------------------------------------------------------------------------

  class State {
    var currentKey: Option<Key>
    var currentPlayer: Option<Address>
    var awaitingKey: Option<Key>
    var awaitingPlayer: Option<Address>
    var cabinetFault: Option<Fault>
    var verdictReady: bool
    ghost var history: seq<Note>

    ghost function View(): Turn
      reads this
    {
      Turn(currentKey, currentPlayer, awaitingKey, awaitingPlayer, cabinetFault, verdictReady, history)
    }

    constructor ()
      ensures View() == NO_TURN
    {
      currentKey, currentPlayer, awaitingKey, awaitingPlayer := None, None, None, None;
      cabinetFault, verdictReady, history := None, false, [];
    }

    method StartTurn(key: Key, player: Address)
      modifies this
      ensures View() == Start(old(View()), key, player)
    {
      currentPlayer := Some(player);
      currentKey := Some(key);
    }

    method TurnEnd()
      modifies this
      ensures View() == End(old(View()))
    {
      awaitingKey := currentKey;
      awaitingPlayer := currentPlayer;
      verdictReady := false;
      history := history + [Ended(currentKey, currentPlayer)];
    }

    /** Takes the snapshot for the handler that goes on with it. */
    method TakeVerdict(outcome: Option<Chute.Outcome>, serial: Option<Serial>)
      returns (key: Option<Key>, winner: Option<Address>, won: bool, healthy: bool)
      modifies this
      ensures View() == Judge(old(View()), outcome, serial)
      ensures key == old(awaitingKey) && winner == old(awaitingPlayer)
      ensures won == Won(outcome) && healthy == Healthy(outcome)
    {
      key, winner := awaitingKey, awaitingPlayer;
      awaitingKey := None;
      awaitingPlayer := None;
      match outcome {
        case Some(NoFall) => won, healthy := false, true;
        case Some(NoRead) => won, healthy := false, false;
        case Some(NoExit) => won, healthy := true, false;
        case Some(Ok) => won, healthy := true, true;
        case None => won, healthy := false, false;
      }
      if key == None { verdictReady := true; }
      history := history + [Judged(key, winner, outcome, serial)];
    }

    method ReportVerdict(outcome: Option<Chute.Outcome>, healthy: bool)
      requires healthy == Healthy(outcome)
      modifies this
      ensures View() == Report(old(View()), outcome)
    {
      if !healthy {
        cabinetFault := Some(FaultOf(outcome));
      }
    }

    method ReleaseTurnEnd()
      modifies this
      ensures View() == Release(old(View()))
    {
      verdictReady := true;
    }

    method GiveUpTurn()
      modifies this
      ensures View() == GiveUp(old(View()))
    {
      if cabinetFault == None { cabinetFault := Some(InternalError); }
    }

    method FinishTurn()
      modifies this
      ensures View() == Clear(old(View()))
    {
      currentPlayer := None;
      currentKey := None;
    }
  }

  // ---------------------------------------------------------------------------
  // Attribution
  // ---------------------------------------------------------------------------

  /** The snapshot that awaits a verdict after this history: of the last turn end, unless a verdict came since. */
  function Awaited(h: seq<Note>): (Option<Key>, Option<Address>) {
    if h == [] then (None, None)
    else match h[|h| - 1]
      case Ended(k, p) => (k, p)
      case Judged(_, _, _, _) => (None, None)
  }

  /** Every verdict was given to the snapshot awaited then, so each turn end is judged at most once. */
  ghost predicate Attributed(h: seq<Note>) {
    forall i :: 0 <= i < |h| && h[i].Judged? ==> (h[i].key, h[i].player) == Awaited(h[..i])
  }

  ghost predicate TurnOk(t: Turn) {
    Attributed(t.history) && (t.awaitingKey, t.awaitingPlayer) == Awaited(t.history)
  }

  lemma NoteKeeps(h: seq<Note>, n: Note)
    requires Attributed(h) && (n.Judged? ==> (n.key, n.player) == Awaited(h))
    ensures Attributed(h + [n])
  {
    forall i | 0 <= i <= |h| && (h + [n])[i].Judged?
      ensures ((h + [n])[i].key, (h + [n])[i].player) == Awaited((h + [n])[..i])
    {
      assert (h + [n])[..i] == h[..i];
      if i == |h| { assert h[..i] == h; }
    }
  }

  /** Two verdicts are never given to the same turn end: there is another turn end between them. */
  lemma JudgedOnce(t: Turn, i: nat, j: nat)
    requires TurnOk(t) && i < j < |t.history|
    requires t.history[i].Judged? && t.history[j].Judged? && t.history[j].key.Some?
    ensures exists k :: i < k < j && t.history[k] == Ended(t.history[j].key, t.history[j].player)
  {
    var h := t.history;
    assert h[..j][j - 1] == h[j - 1];
    assert (h[j].key, h[j].player) == Awaited(h[..j]);
    assert h[j - 1].Ended?;
  }
}

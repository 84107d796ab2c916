/** Chute and central server: what the one sends is what the other understands. */
module EndToEnd {
  import opened Results
  import opened Words
  import Chute
  import ChuteRuns
  import Turns

  /** The fault the chute latched, as the server names it. */
  function Named(fault: Option<Chute.Fault>): Option<Turns.Fault> {
    match fault
    case None => None
    case Some(RfidFailed) => Some(Turns.RfidFailed)
    case Some(ExitTimeout) => Some(Turns.ExitTimeout)
  }

  /**
   * Whatever verdict the chute sends, in any state it can reach, the server reads it right: the player won exactly when a
   * serial came with it, the chute is fit exactly when no fault is latched, and what is reported as the fault is the one
   * latched. An outcome it does not know is reported as an internal error.
   */
  lemma VerdictIsUnderstood(c: Chute.Chute, now: u32, turn: Turns.Turn)
    requires ChuteRuns.Safe(c)
    ensures var c' := Chute.Ticked(c, now);
            |c'.history| > |c.history| && ChuteRuns.IsVerdict(c'.history[|c'.history| - 1]) ==>
              var v := c'.history[|c'.history| - 1].message;
              && (Turns.Won(Some(v.outcome)) <==> v.serial.Some? && v.serial.value != "")
              && (Turns.Healthy(Some(v.outcome)) <==> c'.fault.None?)
              && Turns.Report(turn, Some(v.outcome)) == turn.(fault := if c'.fault.Some? then Named(c'.fault) else turn.fault)
    ensures Turns.Report(turn, None) == turn.(fault := Some(Turns.InternalError)) && !Turns.Won(None)
  {
    hide ChuteRuns.AllJustified, ChuteRuns.Since, ChuteRuns.Waiting, ChuteRuns.Arms, ChuteRuns.Verdicts, ChuteRuns.Turn;
  }
}

/** From a verdict to its end: what its handler leaves when nothing comes in between and nothing fails. */
module Handover {
  import opened Results
  import opened Tables
  import opened Inventory
  import opened Turns
  import opened Central
  import CentralTurns
  import Prizes
  import Transactions
  import Payments
  import Chute

  /** The blocks of the handler of a verdict that reserves a prize. */
  ghost function Winning(w: World, outcome: Option<Chute.Outcome>, s: Serial, task: nat, id: Id): World {
    Do(Do(Do(Do(Do(Do(w, Verdict(outcome, Some(s), task)), MarkWin(task)), GrabBall(task)), ClaimPrize(task, id)),
          ReportVerdict(task)), Release(task))
  }

  /** And of one that does not. */
  ghost function Losing(w: World, outcome: Option<Chute.Outcome>, serial: Option<Serial>, task: nat): World {
    Do(Do(Do(w, Verdict(outcome, serial, task)), ReportVerdict(task)), Release(task))
  }

  /** The fault the operator sees afterwards. */
  function FaultAfter(before: Option<Fault>, outcome: Option<Chute.Outcome>): Option<Fault> {
    match outcome
    case Some(Ok) => before
    case Some(NoFall) => before
    case Some(NoExit) => Some(ExitTimeout)
    case Some(NoRead) => Some(RfidFailed)
    case None => Some(InternalError)
  }

  /** The tables have one new pending win for the player of the turn that ended, on this ball and this play, and its prize. */
  ghost predicate WinFor(w: World, db: Db, s: Serial, e: Id, id: Id) {
    && w.turn.awaitingPlayer.Some? && s in w.db.balls && e in w.db.queue && id in db.wins
    && var b, win := w.db.balls[s], db.wins[id];
    && win.user == w.turn.awaitingPlayer.value && win.entry == e && win.ball == s && win.kind == b.kind && win.status.Pending?
    && (match b.kind
        case BoosterPair => b.booster.Some? && BoosterHeldBy(db, b.booster.value, id)
        case SingleCard => b.card.Some? && CardHeldBy(db.wins, b.card.value, id))
    && db == w.db.(wins := w.db.wins[id := win], boosters := db.boosters, cards := db.cards,
                   queue := w.db.queue[e := w.db.queue[e].(won := true)], balls := w.db.balls[s := b.(status := Grabbed)])
  }

  lemma VerdictIsTaken(w: World, outcome: Chute.Outcome, s: Serial, task: nat)
    requires TaskFree(w, task) && s != "" && (outcome.Ok? || outcome.NoExit?) && w.turn.awaitingKey.Some?
    ensures var w' := Do(w, Verdict(Some(outcome), Some(s), task));
            && w' == w.(turn := w'.turn,
                        tasks := w.tasks[task := Recording(w.turn.awaitingKey.value, w.turn.awaitingPlayer, s, Some(outcome))])
            && w'.turn.fault == w.turn.fault && w'.turn.awaitingKey.None?
  {}

  lemma WinIsMarked(w: World, task: nat, e: Id)
    requires Payments.KeysDiffer(w.db.queue) && task in w.tasks && w.tasks[task].Recording? && w.tasks[task].winner.Some?
    requires HasKey(w.db.queue, e, w.tasks[task].key)
    ensures var t := w.tasks[task];
            Do(w, MarkWin(task)) == w.(db := w.db.(queue := w.db.queue[e := w.db.queue[e].(won := true)]),
                                       tasks := w.tasks[task := Reserving(e, t.winner.value, t.serial, t.outcome)])
  {}

  lemma BallIsTaken(w: World, task: nat)
    requires task in w.tasks && w.tasks[task].Reserving?
    requires w.tasks[task].serial in w.db.balls && w.db.balls[w.tasks[task].serial].status.Loaded?
    ensures var t := w.tasks[task]; var b := w.db.balls[t.serial];
            Do(w, GrabBall(task)) == w.(db := w.db.(balls := w.db.balls[t.serial := b.(status := Grabbed)]), tasks := w.tasks - {task},
                                        claims := w.claims[task := Claiming(t.serial, b, t.user, t.entry, t.outcome)])
  {}

  lemma HandlerEnds(w: World, task: nat)
    requires task in w.tasks && w.tasks[task].Reporting?
    ensures var w' := Do(Do(w, ReportVerdict(task)), Release(task));
            && w' == w.(turn := w'.turn, tasks := w.tasks - {task}) && w'.turn.ready
            && w'.turn.awaitingKey == w.turn.awaitingKey && w'.turn.fault == FaultAfter(w.turn.fault, w.tasks[task].outcome)
  {
    assert w.tasks[task := Releasing] - {task} == w.tasks - {task};
  }

  /** A ball that passes the check and is not spent is claimed, whatever its row says after the grab. */
  lemma FitIsClaimed(db: Db, grabbed: Db, s: Serial, user: Address, entry: Id, now: nat, id: Id)
    requires s in db.balls && db.balls[s].status.Loaded? && entry in db.queue && id !in db.wins
    requires Prizes.ProblemOf(db, db.balls[s]).None? && !Spent(db, s, db.balls[s], entry)
    requires grabbed == db.(balls := db.balls[s := db.balls[s].(status := Grabbed)])
    ensures Prizes.Claim(grabbed, s, db.balls[s], user, entry, now, id).Good?
  {
    FitnessIsExact(db, s, user, entry, now, id);
  }

  /**
   * A winning verdict, on a ball that passes the fitness check and is not spent, for the turn that ended: its player has a
   * new pending win on this ball for the play of that turn, with the prize reserved for it; the play is marked as won, the
   * ball is out of the machine, no money moves, and the fault names a jam exactly if the ball got stuck. Both outcomes that
   * come with a serial win, whether or not the chute is blocked.
   */
  lemma WinIsHandedOver(w: World, outcome: Chute.Outcome, s: Serial, task: nat, e: Id, id: Id)
    requires Stocked(w) && TaskFree(w, task) && s != "" && (outcome.Ok? || outcome.NoExit?)
    requires w.turn.awaitingKey.Some? && w.turn.awaitingPlayer.Some? && HasKey(w.db.queue, e, w.turn.awaitingKey.value)
    requires s in w.db.balls && w.db.balls[s].status.Loaded? && id !in w.db.wins
    requires Prizes.ProblemOf(w.db, w.db.balls[s]).None? && !Spent(w.db, s, w.db.balls[s], e)
    ensures var w' := Winning(w, Some(outcome), s, task, id);
            && WinFor(w, w'.db, s, e, id)
            && w' == w.(db := w'.db, turn := w'.turn)
            && w'.turn.ready && w'.turn.awaitingKey.None? && w'.turn.fault == FaultAfter(w.turn.fault, Some(outcome))
  {
    hide Do, Prizes.Claim, Prizes.ProblemOf, TaskFree, Inv, Payments.Funded, Payments.KeysDiffer, FaultAfter, Spent;
    BallFellFor(w, outcome, s, task, e);
    var player, b := w.turn.awaitingPlayer.value, w.db.balls[s];
    var w3 := Do(Do(Do(w, Verdict(Some(outcome), Some(s), task)), MarkWin(task)), GrabBall(task));
    var marked := w.db.(queue := w3.db.queue);
    SameFitness(w.db, marked, s, e);
    FitIsClaimed(marked, w3.db, s, player, e, w.now, id);
    PrizeGoesOut(w3, task, id);
    assert w.claims[task := w3.claims[task]] - {task} == w.claims;
  }

  /** The second half: the prize is claimed, and the handler ends. */
  lemma PrizeGoesOut(w: World, task: nat, id: Id)
    requires task in w.claims && task !in w.tasks && ClaimOf(w, task, id).Good?
    ensures var c, w' := w.claims[task], Do(Do(Do(w, ClaimPrize(task, id)), ReportVerdict(task)), Release(task));
            && w' == w.(db := w'.db, turn := w'.turn, claims := w.claims - {task})
            && w'.db == w.db.(wins := w'.db.wins, boosters := w'.db.boosters, cards := w'.db.cards)
            && IsClaimed(w.db, w'.db, c, id)
            && w'.turn.ready && w'.turn.awaitingKey == w.turn.awaitingKey && w'.turn.fault == FaultAfter(w.turn.fault, c.outcome)
  {
    hide Do, ClaimOf, IsClaimed, FaultAfter;
    PrizeIsClaimed(w, task, id);
    var w4 := Do(w, ClaimPrize(task, id));
    HandlerEnds(w4, task);
    assert w4.tasks - {task} == w.tasks;
  }

  /** The first half: the play is marked, and its ball is grabbed for its player. */
  lemma BallFellFor(w: World, outcome: Chute.Outcome, s: Serial, task: nat, e: Id)
    requires Stocked(w) && TaskFree(w, task) && s != "" && (outcome.Ok? || outcome.NoExit?)
    requires w.turn.awaitingKey.Some? && w.turn.awaitingPlayer.Some? && HasKey(w.db.queue, e, w.turn.awaitingKey.value)
    requires s in w.db.balls && w.db.balls[s].status.Loaded?
    ensures task !in w.tasks && task !in w.claims
    ensures var w' := Do(Do(Do(w, Verdict(Some(outcome), Some(s), task)), MarkWin(task)), GrabBall(task));
            && w' == w.(turn := w'.turn, db := w'.db,
                        claims := w.claims[task := Claiming(s, w.db.balls[s], w.turn.awaitingPlayer.value, e, Some(outcome))])
            && w'.db == w.db.(queue := w.db.queue[e := w.db.queue[e].(won := true)],
                              balls := w.db.balls[s := w.db.balls[s].(status := Grabbed)])
            && w'.turn.fault == w.turn.fault && w'.turn.awaitingKey.None?
  {
    hide Do, TaskFree, Inv, Payments.Funded, Payments.KeysDiffer;
    NoTask(w, task);
    VerdictIsTaken(w, outcome, s, task);
    var w1 := Do(w, Verdict(Some(outcome), Some(s), task));
    WinIsMarked(w1, task, e);
    var w2 := Do(w1, MarkWin(task));
    BallIsTaken(w2, task);
    assert w2.tasks - {task} == w.tasks;
  }

  lemma NoTask(w: World, task: nat)
    requires TaskFree(w, task)
    ensures task !in w.tasks && task !in w.claims
  {}

  /** Marking a play changes nothing for its ball. */
  lemma SameFitness(db: Db, db': Db, s: Serial, e: Id)
    requires db' == db.(queue := db'.queue) && s in db.balls
    ensures Prizes.ProblemOf(db', db'.balls[s]) == Prizes.ProblemOf(db, db.balls[s])
    ensures Spent(db', s, db'.balls[s], e) <==> Spent(db, s, db.balls[s], e)
  {}

  /** The one new win is the claimed one, and holds its prize. */
  ghost predicate IsClaimed(db: Db, db': Db, c: Claiming, id: Id) {
    && id in db'.wins && db'.wins == db.wins[id := db'.wins[id]]
    && var win := db'.wins[id];
    && win.status.Pending? && win.user == c.user && win.entry == c.entry && win.ball == c.serial && win.kind == c.ball.kind
    && match c.ball.kind
       case BoosterPair => c.ball.booster.Some? && BoosterHeldBy(db', c.ball.booster.value, id)
       case SingleCard => c.ball.card.Some? && CardHeldBy(db'.wins, c.ball.card.value, id)
  }

  lemma PrizeIsClaimed(w: World, task: nat, id: Id)
    requires task in w.claims && ClaimOf(w, task, id).Good?
    ensures var c, w' := w.claims[task], Do(w, ClaimPrize(task, id));
            && w' == w.(db := w'.db, claims := w.claims - {task}, tasks := w.tasks[task := Reporting(c.outcome)])
            && w'.db == w.db.(wins := w'.db.wins, boosters := w'.db.boosters, cards := w'.db.cards)
            && IsClaimed(w.db, w'.db, c, id)
  {
    hide Prizes.Insertable, Prizes.InStock, Prizes.BoosterPrice, Prizes.CardPrice;
  }

  /**
   * Any other verdict for the turn that ended wins nothing and touches no table; the fault it leaves is the one its outcome
   * stands for, an internal error if the table does not know it.
   */
  lemma LossIsTold(w: World, outcome: Option<Chute.Outcome>, serial: Option<Serial>, task: nat)
    requires TaskFree(w, task) && w.turn.awaitingKey.Some?
    requires outcome.None? || outcome.value.NoFall? || outcome.value.NoRead? || serial.None? || serial.value == ""
    ensures var w' := Losing(w, outcome, serial, task);
            && w' == w.(turn := w'.turn) && w'.turn.ready && w'.turn.awaitingKey.None?
            && w'.turn.fault == FaultAfter(w.turn.fault, outcome)
  {
    hide FaultAfter;
    var w1 := Do(w, Verdict(outcome, serial, task));
    assert w1.tasks == w.tasks[task := Reporting(outcome)];
    HandlerEnds(w1, task);
    assert w1.tasks - {task} == w.tasks;
  }

  /** A verdict that no turn awaits changes nothing but that nobody has to wait for one. */
  lemma StrayVerdictIsIgnored(w: World, outcome: Option<Chute.Outcome>, serial: Option<Serial>, task: nat)
    requires TaskFree(w, task) && w.turn.awaitingKey.None? && w.turn.awaitingPlayer.None?
    ensures var w' := Do(w, Verdict(outcome, serial, task));
            w' == w.(turn := w.turn.(ready := true, history := w'.turn.history))
  {}

  /** How far the handler of this task still has to go. */
  function BlocksLeft(w: World, task: nat): nat {
    if task in w.claims then 2
    else if task !in w.tasks then 0
    else match w.tasks[task]
      case Recording(_, _, _, _) => 4
      case Reserving(_, _, _, _) => 3
      case _ => 1
  }

  ghost predicate Handling(w: World, task: nat) {
    (task in w.tasks <==> task !in w.claims) && (task in w.tasks ==> !w.tasks[task].Releasing?)
  }

  lemma MarkGoesOn(w: World, task: nat)
    requires Handling(w, task)
    ensures Handling(Do(w, MarkWin(task)), task) && BlocksLeft(Do(w, MarkWin(task)), task) <= 3
  {
    hide HasKey, Marked;
  }

  lemma GrabGoesOn(w: World, task: nat)
    requires Handling(w, task) && BlocksLeft(w, task) <= 3
    ensures Handling(Do(w, GrabBall(task)), task) && BlocksLeft(Do(w, GrabBall(task)), task) <= 2
  {
    hide Prizes.Grab;
  }

  lemma ClaimGoesOn(w: World, task: nat, id: Id)
    requires Handling(w, task) && BlocksLeft(w, task) <= 2
    ensures Handling(Do(w, ClaimPrize(task, id)), task) && BlocksLeft(Do(w, ClaimPrize(task, id)), task) == 1
  {
    hide ClaimOf;
  }

  /**
   * No handler hangs: from wherever it is, with whatever fails on the way, its remaining blocks, one after the other, end
   * it, and `turn_end` may go on.
   */
  lemma HandlersEnd(w: World, task: nat, id: Id)
    requires Handling(w, task)
    ensures var w' := Do(Do(Do(Do(Do(w, MarkWin(task)), GrabBall(task)), ClaimPrize(task, id)), ReportVerdict(task)), Release(task));
            TaskFree(w', task) && w'.turn.ready
  {
    hide Do;
    MarkGoesOn(w, task);
    GrabGoesOn(Do(w, MarkWin(task)), task);
    ClaimGoesOn(Do(Do(w, MarkWin(task)), GrabBall(task)), task, id);
    HandlerEnds(Do(Do(Do(w, MarkWin(task)), GrabBall(task)), ClaimPrize(task, id)), task);
  }

  /** The wait of a turn end begins with it; only the end of a handler, or a verdict that no turn awaits, ends it. */
  lemma WaitIsReleasedByHandlers(w: World, step: Step)
    ensures !Do(w, EndTurn).turn.ready
    ensures Do(w, step).turn.ready && !w.turn.ready ==> step.Release? || (step.Verdict? && w.turn.awaitingKey.None?)
  {
    hide Do;
    TurnEndWaits(w);
    if step.MarkWin? || step.GrabBall? || step.ClaimPrize? || step.ReserveFails? {
      ReserveLeavesTurn(w, step);
    } else if IsBankStep(step) {
      CentralTurns.BankStepTurns(w, step);
    } else {
      OthersKeepWaiting(w, step);
    }
  }

  lemma TurnEndWaits(w: World)
    ensures !Do(w, EndTurn).turn.ready
  {}

  lemma OthersKeepWaiting(w: World, step: Step)
    requires !IsBankStep(step) && !(step.MarkWin? || step.GrabBall? || step.ClaimPrize? || step.ReserveFails?)
    ensures Do(w, step).turn.ready && !w.turn.ready ==> step.Release? || (step.Verdict? && w.turn.awaitingKey.None?)
  {
    hide Marking, Grabbing, Claimed, Unreserved, WithBank, BankOf, Healthy, FaultOf, Transactions.After, Marked, Won;
  }

  lemma ReserveLeavesTurn(w: World, step: Step)
    requires step.MarkWin? || step.GrabBall? || step.ClaimPrize? || step.ReserveFails?
    ensures Do(w, step).turn == w.turn
  {
    hide Prizes.Claim, Prizes.Grab, ClaimOf, Recorded, HasKey;
    if step.MarkWin? { MarkLeavesTurn(w, step.task); }
  }

  lemma MarkLeavesTurn(w: World, task: nat)
    ensures Marking(w, task).turn == w.turn
  {
    hide HasKey;
  }

  /** A cabinet that keeps silent is an internal error, unless it has a fault already; and every fault can be cleared. */
  lemma SilenceIsAFault(w: World)
    ensures Do(w, ClearFault) == w.(turn := w.turn.(fault := None))
    ensures Do(w, GiveUp) == w.(turn := w.turn.(fault := if w.turn.fault.Some? then w.turn.fault else Some(InternalError)))
  {}

  /** A play counts against a new one while it is queued or on, and no longer. */
  lemma PlayedMakesRoom(w: World, e: Id)
    requires e in w.db.queue
    requires forall d :: d in w.db.queue && d != e && w.db.queue[d].address == w.db.queue[e].address ==> w.db.queue[d].status.Played?
    ensures Payments.AlreadyQueued(Do(w, Pick(e)).db.queue, w.db.queue[e].address)
    ensures !Payments.AlreadyQueued(Do(w, MarkPlayed(e)).db.queue, w.db.queue[e].address)
  {
    var queue := Do(w, Pick(e)).db.queue;
    assert e in queue && queue[e].address == w.db.queue[e].address && queue[e].status.Active?;
  }
}

/** Attribution in every run of the central server: whose play a win belongs to, and which turn it ended. */
module CentralTurns {
  import opened Results
  import opened Tables
  import opened Turns
  import opened Transactions
  import opened Central
  import Prizes
  import Payments
  import Chute
  import Withdrawals

  type Queue = map<Id, Entry>
  type History = seq<Note>

  /** Some play of the queue has this key and this player. */
  ghost predicate Owner(queue: Queue, key: Key, user: Address) {
    exists e :: HasKey(queue, e, key) && queue[e].address == user
  }

  predicate WinningVerdict(n: Note, key: Key, user: Address, serial: Serial) {
    n.Judged? && n.key == Some(key) && n.player == Some(user) && n.serial == Some(serial) && Won(n.outcome)
  }

  /** A winning verdict on this ball was given to this turn of this player. */
  ghost predicate JudgedWin(h: History, key: Key, user: Address, serial: Serial) {
    exists i :: 0 <= i < |h| && WinningVerdict(h[i], key, user, serial)
  }

  /** Key and player come together, from one play. */
  ghost predicate PairOk(queue: Queue, key: Option<Key>, player: Option<Address>) {
    (key.Some? <==> player.Some?) && (key.Some? ==> Owner(queue, key.value, player.value))
  }

  /** What is won goes to the player of the entry, on a winning verdict for its key. */
  ghost predicate Traced(queue: Queue, h: History, entry: Id, user: Address, serial: Serial) {
    entry in queue && queue[entry].address == user && JudgedWin(h, queue[entry].key, user, serial)
  }

  ghost predicate TaskOk(queue: Queue, h: History, t: Task) {
    match t
    case Recording(key, winner, serial, _) =>
      winner.Some? ==> Owner(queue, key, winner.value) && JudgedWin(h, key, winner.value, serial)
    case Reserving(entry, user, serial, _) => Traced(queue, h, entry, user, serial)
    case _ => true
  }

  ghost predicate Links(queue: Queue, h: History, starting: set<Id>, tasks: map<nat, Task>,
                        claims: map<nat, Claiming>, wins: map<Id, Win>) {
    && (forall e :: e in starting ==> e in queue)
    && (forall t :: t in tasks ==> TaskOk(queue, h, tasks[t]))
    && (forall t :: t in claims ==> Traced(queue, h, claims[t].entry, claims[t].user, claims[t].serial))
    && (forall v :: v in wins ==> Traced(queue, h, wins[v].entry, wins[v].user, wins[v].ball))
  }

  ghost predicate TurnsOk(queue: Queue, t: Turn) {
    TurnOk(t) && PairOk(queue, t.key, t.player) && PairOk(queue, t.awaitingKey, t.awaitingPlayer)
  }

  ghost predicate Attributable(w: World) {
    && TurnsOk(w.db.queue, w.turn)
    && Links(w.db.queue, w.turn.history, w.starting, w.tasks, w.claims, w.db.wins)
  }

  // ---------------------------------------------------------------------------
  // Plays and verdicts only ever get more
  // ---------------------------------------------------------------------------

  ghost predicate Extends(queue: Queue, queue': Queue) {
    forall e :: e in queue ==> e in queue' && queue'[e].key == queue[e].key && queue'[e].address == queue[e].address
  }

  lemma OwnerSurvives(queue: Queue, queue': Queue, key: Key, user: Address)
    requires Owner(queue, key, user) && Extends(queue, queue')
    ensures Owner(queue', key, user)
  {
    var e :| HasKey(queue, e, key) && queue[e].address == user;
    assert HasKey(queue', e, key);
  }

  lemma PairSurvives(queue: Queue, queue': Queue, key: Option<Key>, player: Option<Address>)
    requires PairOk(queue, key, player) && Extends(queue, queue')
    ensures PairOk(queue', key, player)
  {
    if key.Some? { OwnerSurvives(queue, queue', key.value, player.value); }
  }

  lemma JudgedSurvives(h: History, h': History, key: Key, user: Address, serial: Serial)
    requires JudgedWin(h, key, user, serial) && h <= h'
    ensures JudgedWin(h', key, user, serial)
  {
    var i :| 0 <= i < |h| && WinningVerdict(h[i], key, user, serial);
    assert h'[i] == h[i];
  }

  lemma TracedSurvives(queue: Queue, queue': Queue, h: History, h': History, entry: Id, user: Address, serial: Serial)
    requires Traced(queue, h, entry, user, serial) && Extends(queue, queue') && h <= h'
    ensures Traced(queue', h', entry, user, serial)
  {
    JudgedSurvives(h, h', queue[entry].key, user, serial);
  }

  lemma TaskSurvives(queue: Queue, queue': Queue, h: History, h': History, t: Task)
    requires TaskOk(queue, h, t) && Extends(queue, queue') && h <= h'
    ensures TaskOk(queue', h', t)
  {
    match t
    case Recording(key, winner, serial, _) =>
      if winner.Some? {
        OwnerSurvives(queue, queue', key, winner.value);
        JudgedSurvives(h, h', key, winner.value, serial);
      }
    case Reserving(entry, user, serial, _) => TracedSurvives(queue, queue', h, h', entry, user, serial);
    case _ =>
  }

  lemma LinksSurvive(queue: Queue, queue': Queue, h: History, h': History, starting: set<Id>, tasks: map<nat, Task>,
                     claims: map<nat, Claiming>, wins: map<Id, Win>)
    requires Links(queue, h, starting, tasks, claims, wins) && Extends(queue, queue') && h <= h'
    ensures Links(queue', h', starting, tasks, claims, wins)
  {
    hide TaskOk, Traced;
    forall t | t in tasks ensures TaskOk(queue', h', tasks[t]) { TaskSurvives(queue, queue', h, h', tasks[t]); }
    forall t | t in claims ensures Traced(queue', h', claims[t].entry, claims[t].user, claims[t].serial) {
      TracedSurvives(queue, queue', h, h', claims[t].entry, claims[t].user, claims[t].serial);
    }
    forall v | v in wins ensures Traced(queue', h', wins[v].entry, wins[v].user, wins[v].ball) {
      TracedSurvives(queue, queue', h, h', wins[v].entry, wins[v].user, wins[v].ball);
    }
  }

  lemma TurnsSurvive(queue: Queue, queue': Queue, t: Turn)
    requires TurnsOk(queue, t) && Extends(queue, queue')
    ensures TurnsOk(queue', t)
  {
    PairSurvives(queue, queue', t.key, t.player);
    PairSurvives(queue, queue', t.awaitingKey, t.awaitingPlayer);
  }

  /** The plays get more; the wins change in nothing that matters here. */
  lemma QueueKeeps(w: World, w': World)
    requires Attributable(w) && Extends(w.db.queue, w'.db.queue) && w'.turn == w.turn
    requires w'.starting == w.starting && w'.tasks == w.tasks && w'.claims == w.claims
    requires forall v :: v in w'.db.wins ==> v in w.db.wins && w'.db.wins[v].entry == w.db.wins[v].entry
                                             && w'.db.wins[v].user == w.db.wins[v].user && w'.db.wins[v].ball == w.db.wins[v].ball
    ensures Attributable(w')
  {
    hide TurnsOk, Traced, TaskOk, Extends;
    TurnsSurvive(w.db.queue, w'.db.queue, w.turn);
    LinksSurvive(w.db.queue, w'.db.queue, w.turn.history, w.turn.history, w.starting, w.tasks, w.claims, w.db.wins);
  }

  lemma TxKeepsAttribution(w: World, tx: Tx)
    requires Attributable(w)
    ensures Attributable(w.(db := After(w.db, tx, w.now)))
  {
    hide After, Attributable;
    TouchedAtMost(w.db, tx, w.now);
    QueueKeeps(w, w.(db := After(w.db, tx, w.now)));
  }

  // ---------------------------------------------------------------------------
  // The turn
  // ---------------------------------------------------------------------------

  /** The turn changes; its history grows. */
  lemma TurnKeeps(w: World, turn: Turn, tasks: map<nat, Task>)
    requires Attributable(w) && TurnsOk(w.db.queue, turn) && w.turn.history <= turn.history
    requires forall t :: t in tasks ==> TaskOk(w.db.queue, turn.history, tasks[t]) || (t in w.tasks && tasks[t] == w.tasks[t])
    ensures Attributable(w.(turn := turn, tasks := tasks))
  {
    hide TurnsOk, Traced, TaskOk;
    LinksSurvive(w.db.queue, w.db.queue, w.turn.history, turn.history, w.starting, w.tasks, w.claims, w.db.wins);
  }

  lemma EndKeeps(queue: Queue, t: Turn)
    requires TurnsOk(queue, t)
    ensures TurnsOk(queue, End(t))
  {
    hide PairOk;
    var n := Ended(t.key, t.player);
    NoteKeeps(t.history, n);
  }

  lemma JudgeKeeps(queue: Queue, t: Turn, outcome: Option<Chute.Outcome>, serial: Option<Serial>)
    requires TurnsOk(queue, t)
    ensures TurnsOk(queue, Judge(t, outcome, serial))
  {
    NoteKeeps(t.history, Judged(t.awaitingKey, t.awaitingPlayer, outcome, serial));
  }

  /** The verdict that is noted justifies the win it starts to record. */
  lemma JudgedNow(queue: Queue, t: Turn, outcome: Option<Chute.Outcome>, serial: Serial)
    requires TurnsOk(queue, t) && t.awaitingKey.Some? && Won(outcome)
    ensures TaskOk(queue, Judge(t, outcome, Some(serial)).history, Recording(t.awaitingKey.value, t.awaitingPlayer, serial, outcome))
  {
    hide TurnOk, Owner;
    var h := Judge(t, outcome, Some(serial)).history;
    if t.awaitingPlayer.Some? {
      assert WinningVerdict(h[|t.history|], t.awaitingKey.value, t.awaitingPlayer.value, serial);
    }
  }

  lemma JudgingKeeps(w: World, outcome: Option<Chute.Outcome>, serial: Option<Serial>, task: nat)
    requires Attributable(w)
    ensures Attributable(Judging(w, outcome, serial, task))
  {
    hide TurnsOk, Links, TaskOk, Judge, TaskFree, Won;
    if TaskFree(w, task) {
      var turn := Judge(w.turn, outcome, serial);
      assert w.turn.history <= turn.history by { JudgeAppends(w.turn, outcome, serial); }
      JudgeKeeps(w.db.queue, w.turn, outcome, serial);
      if w.turn.awaitingKey.None? {
        TurnKeeps(w, turn, w.tasks);
      } else if Won(outcome) && serial.Some? && serial.value != "" {
        JudgedNow(w.db.queue, w.turn, outcome, serial.value);
        TurnKeeps(w, turn, w.tasks[task := Recording(w.turn.awaitingKey.value, w.turn.awaitingPlayer, serial.value, outcome)]);
      } else {
        ReportingOk(w.db.queue, turn.history, outcome);
        TurnKeeps(w, turn, w.tasks[task := Reporting(outcome)]);
      }
    }
  }

  lemma JudgeAppends(t: Turn, outcome: Option<Chute.Outcome>, serial: Option<Serial>)
    ensures t.history <= Judge(t, outcome, serial).history
  {}

  lemma ReportingOk(queue: Queue, h: History, outcome: Option<Chute.Outcome>)
    ensures TaskOk(queue, h, Reporting(outcome))
  {}

  /** A turn starts with the key and the player of one play. */
  lemma BeginKeeps(w: World, e: Id)
    requires Attributable(w) && e in w.db.queue
    ensures Attributable(w.(turn := Start(w.turn, w.db.queue[e].key, w.db.queue[e].address)))
  {
    hide Traced, TaskOk, TurnOk;
    assert HasKey(w.db.queue, e, w.db.queue[e].key);
    var turn := Start(w.turn, w.db.queue[e].key, w.db.queue[e].address);
    assert TurnOk(turn) by { SameHistory(w.turn, turn); }
    assert TurnsOk(w.db.queue, turn);
    assert Links(w.db.queue, turn.history, w.starting, w.tasks, w.claims, w.db.wins);
  }

  lemma SameHistory(t: Turn, t': Turn)
    requires TurnOk(t) && t'.history == t.history && t'.awaitingKey == t.awaitingKey && t'.awaitingPlayer == t.awaitingPlayer
    ensures TurnOk(t')
  {}

  lemma QuietTurnKeeps(w: World, turn: Turn, tasks: map<nat, Task>)
    requires Attributable(w) && turn.history == w.turn.history
    requires turn.awaitingKey == w.turn.awaitingKey && turn.awaitingPlayer == w.turn.awaitingPlayer
    requires (turn.key, turn.player) == (w.turn.key, w.turn.player) || (turn.key, turn.player) == (None, None)
    requires forall t :: t in tasks ==> tasks[t].Releasing? || (t in w.tasks && tasks[t] == w.tasks[t])
    ensures Attributable(w.(turn := turn, tasks := tasks))
  {
    hide Links, Owner, TurnOk;
    SameHistory(w.turn, turn);
    TurnKeeps(w, turn, tasks);
  }

  // ---------------------------------------------------------------------------
  // The win
  // ---------------------------------------------------------------------------

  /** Under distinct keys, the play found by key is the play that was judged. */
  lemma FoundIsOwner(queue: Queue, e: Id, key: Key, user: Address)
    requires Payments.KeysDiffer(queue) && HasKey(queue, e, key) && Owner(queue, key, user)
    ensures queue[e].address == user
  {
    var d :| HasKey(queue, d, key) && queue[d].address == user;
    assert d == e;
  }

  lemma TasksKeep(w: World, w': World)
    requires Attributable(w) && w' == w.(tasks := w'.tasks)
    requires forall t :: t in w'.tasks ==> TaskOk(w.db.queue, w.turn.history, w'.tasks[t]) || (t in w.tasks && w'.tasks[t] == w.tasks[t])
    ensures Attributable(w')
  {
    hide TaskOk, Traced, TurnsOk;
  }

  lemma RecordedAttributes(w: World, task: nat, e: Id)
    requires Attributable(w) && Payments.KeysDiffer(w.db.queue)
    requires task in w.tasks && w.tasks[task].Recording? && HasKey(w.db.queue, e, w.tasks[task].key)
    ensures Attributable(Recorded(w, task, e))
  {
    hide Attributable, Payments.KeysDiffer, Traced, Owner, JudgedWin;
    var w' := Recorded(w, task, e);
    var t := w.tasks[task];
    assert TaskOk(w.db.queue, w.turn.history, t) by { TaskKnown(w, task); }
    MarkKeepsAttribution(w, e, w.db.queue[e].(won := true));
    if t.winner.Some? {
      FoundIsOwner(w.db.queue, e, t.key, t.winner.value);
      Combine(w'.db.queue, w.turn.history, e, t.winner.value, t.serial);
    }
    TasksKeep(w.(db := w'.db), w');
  }

  lemma MarkingAttributes(w: World, task: nat)
    requires Attributable(w) && Payments.KeysDiffer(w.db.queue)
    ensures Attributable(Marking(w, task))
  {
    hide Attributable, Payments.KeysDiffer, Recorded;
    if task in w.tasks && w.tasks[task].Recording? {
      if exists e :: HasKey(w.db.queue, e, w.tasks[task].key) {
        var e :| HasKey(w.db.queue, e, w.tasks[task].key) && Marking(w, task) == Recorded(w, task, e);
        RecordedAttributes(w, task, e);
      } else {
        TasksKeep(w, Marking(w, task));
      }
    }
  }

  lemma Combine(queue: Queue, h: History, e: Id, user: Address, serial: Serial)
    requires e in queue && queue[e].address == user && JudgedWin(h, queue[e].key, user, serial)
    ensures Traced(queue, h, e, user, serial)
  {}

  lemma TaskKnown(w: World, task: nat)
    requires Attributable(w) && task in w.tasks
    ensures TaskOk(w.db.queue, w.turn.history, w.tasks[task])
  {}

  lemma GrabbingAttributes(w: World, task: nat)
    requires Attributable(w)
    ensures Attributable(Grabbing(w, task))
  {
    hide TurnsOk, Traced;
  }

  lemma ClaimedAttributes(w: World, task: nat, id: Id)
    requires Attributable(w)
    ensures Attributable(Claimed(w, task, id))
  {
    hide TurnsOk, Traced, Prizes.Claim;
    if task in w.claims && ClaimOf(w, task, id).Good? {
      var c := w.claims[task];
      ClaimTouches(w.db, c.serial, c.ball, c.user, c.entry, w.now, id);
    }
  }

  lemma UnreservedAttributes(w: World, task: nat)
    requires Attributable(w)
    ensures Attributable(Unreserved(w, task))
  {
    hide TurnsOk, Traced;
  }

  lemma MarkKeepsAttribution(w: World, e: Id, entry: Entry)
    requires Attributable(w) && e in w.db.queue && entry.key == w.db.queue[e].key && entry.address == w.db.queue[e].address
    ensures Attributable(w.(db := Marked(w.db, e, entry)))
  {
    hide Attributable;
    QueueKeeps(w, w.(db := Marked(w.db, e, entry)));
  }

  lemma PickKeeps(w: World, e: Id)
    requires Attributable(w) && e in w.db.queue
    ensures Attributable(w.(starting := w.starting + {e}))
  {
    hide TurnsOk, Traced, TaskOk;
  }

  /** A withdrawal changes the ledger only. */
  lemma LedgerKeeps(w: World, w': World)
    requires Attributable(w) && w'.db == w.db.(ledger := w'.db.ledger)
    requires w'.turn == w.turn && w'.starting == w.starting && w'.tasks == w.tasks && w'.claims == w.claims
    ensures Attributable(w')
  {
    hide TurnsOk, Links;
  }

  lemma BankStepTurns(w: World, step: Step)
    requires IsBankStep(step)
    ensures var w' := Do(w, step);
            w'.db == w.db.(ledger := w'.db.ledger) && w'.turn == w.turn && w'.starting == w.starting
            && w'.tasks == w.tasks && w'.claims == w.claims
  {
    hide Withdrawals.Lock, Withdrawals.Read, Withdrawals.Commit, Withdrawals.Answer, Withdrawals.Resolve, BankOf;
  }

  predicate IsTurnStep(step: Step) {
    step.EndTurn? || step.GiveUp? || step.FinishTurn? || step.ClearFault? || step.ReportVerdict? || step.Release?
  }

  lemma TurnStepKeepsAttribution(w: World, step: Step)
    requires Attributable(w) && IsTurnStep(step)
    ensures Attributable(Do(w, step))
  {
    hide Attributable, TurnsOk, Healthy, FaultOf;
    match step
    case EndTurn =>
      assert TurnsOk(w.db.queue, w.turn) by { TurnsKnown(w); }
      EndKeeps(w.db.queue, w.turn);
      TurnKeeps(w, End(w.turn), w.tasks);
    case GiveUp => QuietTurnKeeps(w, Turns.GiveUp(w.turn), w.tasks);
    case FinishTurn => QuietTurnKeeps(w, Clear(w.turn), w.tasks);
    case ClearFault => QuietTurnKeeps(w, w.turn.(fault := None), w.tasks);
    case ReportVerdict(task) =>
      if task in w.tasks && w.tasks[task].Reporting? {
        QuietTurnKeeps(w, Report(w.turn, w.tasks[task].outcome), w.tasks[task := Releasing]);
      }
    case Release(task) =>
      if task in w.tasks && !w.tasks[task].Reserving? { QuietTurnKeeps(w, Turns.Release(w.turn), w.tasks - {task}); }
  }

  /** Every step keeps every win, and every verdict on its way to one, with the play and the turn it belongs to. */
  lemma StepKeepsAttribution(w: World, step: Step)
    requires Attributable(w) && Payments.KeysDiffer(w.db.queue)
    ensures Attributable(Do(w, step))
  {
    hide Attributable, After, Marking, Grabbing, Claimed, Unreserved, Released, Judging, TurnsOk, Start, Clear, End, Turns.GiveUp, Report,
         WithBank, BankOf;
    match step
    case Commit(tx) => TxKeepsAttribution(w, tx);
    case Pick(e) =>
      if e in w.db.queue {
        PickKeeps(w, e);
        MarkKeepsAttribution(w.(starting := w.starting + {e}), e, w.db.queue[e].(status := Active));
      }
    case Begin(e) => if e in w.db.queue { BeginKeeps(w, e); }
    case MarkPlayed(e) => if e in w.db.queue { MarkKeepsAttribution(w, e, w.db.queue[e].(status := Played)); }
    case Verdict(outcome, serial, task) => JudgingKeeps(w, outcome, serial, task);
    case MarkWin(task) => MarkingAttributes(w, task);
    case GrabBall(task) => GrabbingAttributes(w, task);
    case ClaimPrize(task, id) => ClaimedAttributes(w, task, id);
    case ReserveFails(task) => UnreservedAttributes(w, task);
    case Pass(_) => QueueKeeps(w, Do(w, step));
    case _ =>
      if IsTurnStep(step) { TurnStepKeepsAttribution(w, step); } else { BankStepTurns(w, step); LedgerKeeps(w, Do(w, step)); }
  }

  lemma TurnsKnown(w: World)
    requires Attributable(w)
    ensures TurnsOk(w.db.queue, w.turn)
  {}
}

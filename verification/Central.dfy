/** The central server as one state machine: every committed transaction and every step between two waits. */
module Central {
  import opened Results
  import opened Tables
  import opened Inventory
  import opened Withdrawals
  import opened Turns
  import opened Transactions
  import Prizes
  import Payments
  import Chute

  /** A verdict that is being handled. */
  datatype Task =
    | Recording(key: Key, winner: Option<Address>, serial: Serial, outcome: Option<Chute.Outcome>)
    | Reserving(entry: Id, user: Address, serial: Serial, outcome: Option<Chute.Outcome>)
    | Reporting(outcome: Option<Chute.Outcome>)
    | Releasing

  /** One whose ball is grabbed, as it was bound when it fell, and whose prize is about to be claimed. */
  datatype Claiming = Claiming(serial: Serial, ball: Ball, user: Address, entry: Id, outcome: Option<Chute.Outcome>)

  datatype World = World(db: Db, now: nat, turn: Turn, starting: set<Id>, tasks: map<nat, Task>, claims: map<nat, Claiming>,
                         locks: map<Address, Phase>, payouts: map<Id, Payout>, sent: seq<Transfer>)

  datatype Step =
    | Commit(tx: Tx)
    | Pass(seconds: nat)
    | Pick(entry: Id)
    | Begin(entry: Id)
    | EndTurn
    | MarkPlayed(entry: Id)
    | GiveUp
    | FinishTurn
    | ClearFault
    | Verdict(outcome: Option<Chute.Outcome>, serial: Option<Serial>, task: nat)
    | MarkWin(task: nat)
    | GrabBall(task: nat)
    | ClaimPrize(task: nat, id: Id)
    | ReserveFails(task: nat)
    | ReportVerdict(task: nat)
    | Release(task: nat)
    | LockUser(u: Address)
    | ReadNext(u: Address)
    | CommitDebit(u: Address, id: Id)
    | Answered(id: Id, ok: bool)
    | ResolveDebit(id: Id)

  function Flights(claims: map<nat, Claiming>): InFlight {
    map t | t in claims :: claims[t].ball
  }

  function BankOf(w: World): Bank {
    Bank(w.db.wins, w.db.payments, w.db.ledger, w.now, w.locks, w.payouts, w.sent)
  }

  function WithBank(w: World, b: Bank): World {
    w.(db := w.db.(ledger := b.ledger), locks := b.locks, payouts := b.payouts, sent := b.sent)
  }

  function Marked(db: Db, e: Id, entry: Entry): Db {
    db.(queue := db.queue[e := entry])
  }

  predicate HasKey(queue: map<Id, Entry>, e: Id, key: Key) {
    e in queue && queue[e].key == key
  }

  predicate TaskFree(w: World, task: nat) {
    task !in w.tasks && task !in w.claims
  }

  /** `on_chute_verdict` up to its first wait. */
  function Judging(w: World, outcome: Option<Chute.Outcome>, serial: Option<Serial>, task: nat): World {
    if !TaskFree(w, task) then w
    else
      var judged := w.(turn := Judge(w.turn, outcome, serial));
      if w.turn.awaitingKey.None? then judged
      else if Won(outcome) && serial.Some? && serial.value != "" then
        judged.(tasks := w.tasks[task := Recording(w.turn.awaitingKey.value, w.turn.awaitingPlayer, serial.value, outcome)])
      else judged.(tasks := w.tasks[task := Reporting(outcome)])
  }

  /** The play is marked as won; with a player, its prize is reserved next. */
  function Recorded(w: World, task: nat, e: Id): World
    requires task in w.tasks && w.tasks[task].Recording? && e in w.db.queue
  {
    var t := w.tasks[task];
    w.(db := Marked(w.db, e, w.db.queue[e].(won := true)),
       tasks := w.tasks[task := if t.winner.Some? then Reserving(e, t.winner.value, t.serial, t.outcome) else Reporting(t.outcome)])
  }

  /** `_record_win`, first transaction: the play is looked up by its key. */
  ghost function Marking(w: World, task: nat): World {
    if task !in w.tasks || !w.tasks[task].Recording? then w
    else
      var t := w.tasks[task];
      if exists e :: HasKey(w.db.queue, e, t.key) then
        var e :| HasKey(w.db.queue, e, t.key);
        Recorded(w, task, e)
      else w.(tasks := w.tasks[task := Reporting(t.outcome)])
  }

  /** `reserve_win`, first transaction. */
  function Grabbing(w: World, task: nat): World {
    if task !in w.tasks || !w.tasks[task].Reserving? then w
    else
      var t := w.tasks[task];
      match Prizes.Grab(w.db, t.serial)
      case Bad(_) => w.(tasks := w.tasks[task := Reporting(t.outcome)])
      case Good(db') =>
        w.(db := db', tasks := w.tasks - {task},
           claims := w.claims[task := Claiming(t.serial, w.db.balls[t.serial], t.user, t.entry, t.outcome)])
  }

  /** `reserve_win`, second transaction; rolled back if it fails. */
  function ClaimOf(w: World, task: nat, id: Id): Outcome
    requires task in w.claims
  {
    var c := w.claims[task];
    Prizes.Claim(w.db, c.serial, c.ball, c.user, c.entry, w.now, id)
  }

  function Claimed(w: World, task: nat, id: Id): World {
    if task !in w.claims then w
    else
      w.(db := match ClaimOf(w, task, id) case Good(db') => db' case Bad(_) => w.db,
         claims := w.claims - {task}, tasks := w.tasks[task := Reporting(w.claims[task].outcome)])
  }

  /** Any other error of `reserve_win`, before its first commit or before its second, is caught. */
  function Unreserved(w: World, task: nat): World {
    if task in w.claims then
      w.(claims := w.claims - {task}, tasks := w.tasks[task := Reporting(w.claims[task].outcome)])
    else if task in w.tasks && w.tasks[task].Reserving? then
      w.(tasks := w.tasks[task := Reporting(w.tasks[task].outcome)])
    else w
  }

  /** An error of any other step of the handler ends it at once; like its regular end it lets `turn_end` go on. */
  function Released(w: World, task: nat): World {
    if task in w.tasks && !w.tasks[task].Reserving? then w.(turn := Turns.Release(w.turn), tasks := w.tasks - {task}) else w
  }

  ghost function Do(w: World, step: Step): World {
    match step
    case Commit(tx) => w.(db := After(w.db, tx, w.now))
    case Pass(seconds) => w.(now := w.now + seconds)
    case Pick(e) =>
      // What was queued when it was selected may be anything when the selection is committed: two handlers may pick one play.
      if e in w.db.queue
      then w.(db := Marked(w.db, e, w.db.queue[e].(status := Active)), starting := w.starting + {e})
      else w
    case Begin(e) =>
      if e in w.starting && e in w.db.queue
      then w.(turn := Start(w.turn, w.db.queue[e].key, w.db.queue[e].address))
      else w
    case EndTurn => w.(turn := End(w.turn))
    case MarkPlayed(e) => if e in w.db.queue then w.(db := Marked(w.db, e, w.db.queue[e].(status := Played))) else w
    case GiveUp => w.(turn := Turns.GiveUp(w.turn))
    // After the wait, however that ended, or by the scheduler when nobody is left to play.
    case FinishTurn => w.(turn := Clear(w.turn))
    case ClearFault => w.(turn := w.turn.(fault := None))
    case Verdict(outcome, serial, task) => Judging(w, outcome, serial, task)
    case MarkWin(task) => Marking(w, task)
    case GrabBall(task) => Grabbing(w, task)
    case ClaimPrize(task, id) => Claimed(w, task, id)
    case ReserveFails(task) => Unreserved(w, task)
    case ReportVerdict(task) =>
      if task in w.tasks && w.tasks[task].Reporting?
      then w.(turn := Report(w.turn, w.tasks[task].outcome), tasks := w.tasks[task := Releasing])
      else w
    case Release(task) => Released(w, task)
    case LockUser(u) => WithBank(w, Lock(BankOf(w), u))
    case ReadNext(u) => WithBank(w, Read(BankOf(w), u))
    case CommitDebit(u, id) => WithBank(w, Withdrawals.Commit(BankOf(w), u, id))
    case Answered(id, ok) => WithBank(w, Answer(BankOf(w), id, ok))
    case ResolveDebit(id) => WithBank(w, Resolve(BankOf(w), id))
  }

  // ---------------------------------------------------------------------------
  // Stock and payments
  // ---------------------------------------------------------------------------

  ghost predicate Stocked(w: World) {
    Inv(w.db, Flights(w.claims)) && Payments.Funded(w.db) && Payments.KeysDiffer(w.db.queue)
  }

  ghost predicate StepAllowed(w: World, step: Step) {
    step.Commit? ==> Allowed(w.db, Flights(w.claims), step.tx)
  }

  lemma MarkedKeeps(db: Db, f: InFlight, e: Id, entry: Entry)
    requires Inv(db, f) && Payments.Funded(db) && Payments.KeysDiffer(db.queue)
    requires e in db.queue && entry.key == db.queue[e].key && entry.address == db.queue[e].address
    ensures var db' := Marked(db, e, entry); Inv(db', f) && Payments.Funded(db') && Payments.KeysDiffer(db'.queue)
  {
    hide Inv, Payments.PaymentsDiffer;
    var db' := Marked(db, e, entry);
    assert db.queue.Keys <= db'.queue.Keys;
    QueueGrows(db, f, db');
    assert Payments.PaymentsOk(db.payments, db'.queue);
    forall d | d in db'.queue
      ensures exists p :: Payments.Funds(db.payments, p, d)
    {
      assert d in db.queue;
    }
  }

  lemma GrabTouches(db: Db, s: Serial)
    requires Prizes.Grab(db, s).Good?
    ensures s in db.balls && Prizes.Grab(db, s).value == db.(balls := Prizes.Grab(db, s).value.balls)
  {}

  lemma GrabbingKeeps(w: World, task: nat)
    requires Stocked(w)
    ensures Stocked(Grabbing(w, task))
  {
    hide Inv, Payments.PaymentsOk, Payments.PaymentsDiffer, Payments.EntriesPaid, Payments.KeysDiffer, Prizes.Grab;
    var w' := Grabbing(w, task);
    if task in w.tasks && w.tasks[task].Reserving? && Prizes.Grab(w.db, w.tasks[task].serial).Good? {
      var s := w.tasks[task].serial;
      GrabTouches(w.db, s);
      GrabKeeps(w.db, Flights(w.claims), task, s);
      assert Flights(w'.claims) == Flights(w.claims)[task := w.db.balls[s]];
    }
  }

  lemma FewerFlights(db: Db, f: InFlight, t: nat)
    requires Inv(db, f)
    ensures Inv(db, f - {t})
  {
    hide BallsOk, BallsDiffer, BoostersOk, BoostersDiffer, BoostersHeld, CardsOk, CardsHeld, WinsRefer, WinsDiffer, FlightsOk;
    FlightDropped(db, f, t);
  }

  lemma ClaimKeeps(db: Db, f: InFlight, t: nat, s: Serial, user: Address, entry: Id, now: nat, id: Id)
    requires Inv(db, f) && t in f && Prizes.Claim(db, s, f[t], user, entry, now, id).Good?
    ensures Inv(Prizes.Claim(db, s, f[t], user, entry, now, id).value, f - {t})
  {
    hide Inv, Prizes.Claim;
    match f[t].kind
    case BoosterPair => ClaimBoosterKeeps(db, f, t, s, user, entry, now, id);
    case SingleCard => ClaimCardKeeps(db, f, t, s, user, entry, now, id);
  }

  /** What a successful claim does: one pending win, and its prize reserved; nothing else but those two rows. */
  lemma ClaimTouches(db: Db, s: Serial, ball: Ball, user: Address, entry: Id, now: nat, id: Id)
    requires Prizes.Claim(db, s, ball, user, entry, now, id).Good?
    ensures var db' := Prizes.Claim(db, s, ball, user, entry, now, id).value;
            && db' == db.(wins := db'.wins, boosters := db'.boosters, cards := db'.cards)
            && id !in db.wins && id in db'.wins && db'.wins == db.wins[id := db'.wins[id]]
            && db'.wins[id].status.Pending? && db'.wins[id].user == user && db'.wins[id].entry == entry
            && db'.wins[id].ball == s && db'.wins[id].kind == ball.kind && entry in db.queue
  {}

  lemma ClaimedKeeps(w: World, task: nat, id: Id)
    requires Stocked(w)
    ensures Stocked(Claimed(w, task, id))
  {
    hide Inv, Payments.PaymentsOk, Payments.PaymentsDiffer, Payments.EntriesPaid, Payments.KeysDiffer, Prizes.Claim;
    if task in w.claims {
      var c, f := w.claims[task], Flights(w.claims);
      assert Flights(w.claims - {task}) == f - {task};
      if ClaimOf(w, task, id).Good? {
        ClaimKeeps(w.db, f, task, c.serial, c.user, c.entry, w.now, id);
        ClaimTouches(w.db, c.serial, c.ball, c.user, c.entry, w.now, id);
      } else {
        FewerFlights(w.db, f, task);
      }
    }
  }

  lemma UnreservedKeeps(w: World, task: nat)
    requires Stocked(w)
    ensures Stocked(Unreserved(w, task))
  {
    hide Inv, Payments.Funded, Payments.KeysDiffer;
    if task in w.claims {
      assert Flights(w.claims - {task}) == Flights(w.claims) - {task};
      FewerFlights(w.db, Flights(w.claims), task);
    }
  }

  lemma BankKeepsStock(w: World, b: Bank)
    requires Stocked(w)
    ensures Stocked(WithBank(w, b))
  {
    hide Inv, Payments.PaymentsOk, Payments.PaymentsDiffer, Payments.EntriesPaid, Payments.KeysDiffer;
    QueueGrows(w.db, Flights(w.claims), WithBank(w, b).db);
  }

  lemma BankStepKeepsStock(w: World, step: Step)
    requires Stocked(w) && IsBankStep(step)
    ensures Stocked(Do(w, step))
  {
    hide Stocked, Lock, Read, Withdrawals.Commit, Answer, Resolve, BankOf, WithBank;
    match step
    case LockUser(u) => BankKeepsStock(w, Lock(BankOf(w), u));
    case ReadNext(u) => BankKeepsStock(w, Read(BankOf(w), u));
    case CommitDebit(u, id) => BankKeepsStock(w, Withdrawals.Commit(BankOf(w), u, id));
    case Answered(id, ok) => BankKeepsStock(w, Answer(BankOf(w), id, ok));
    case ResolveDebit(id) => BankKeepsStock(w, Resolve(BankOf(w), id));
  }

  predicate IsBankStep(step: Step) {
    step.LockUser? || step.ReadNext? || step.CommitDebit? || step.Answered? || step.ResolveDebit?
  }

  lemma MarkKeepsStock(w: World, e: Id, entry: Entry)
    requires Stocked(w) && e in w.db.queue && entry.key == w.db.queue[e].key && entry.address == w.db.queue[e].address
    ensures Stocked(w.(db := Marked(w.db, e, entry)))
  {
    hide Inv, Payments.Funded, Payments.KeysDiffer;
    MarkedKeeps(w.db, Flights(w.claims), e, entry);
  }

  lemma CommitKeepsStock(w: World, tx: Tx)
    requires Stocked(w) && Allowed(w.db, Flights(w.claims), tx)
    ensures Stocked(w.(db := After(w.db, tx, w.now)))
  {
    hide Inv, Payments.Funded, Payments.KeysDiffer, After, Allowed;
    TxKeepsInventory(w.db, Flights(w.claims), tx, w.now);
    TxKeepsFunded(w.db, tx, w.now);
    TxKeepsKeys(w.db, Flights(w.claims), tx, w.now);
  }

  /** Steps that touch neither the tables nor the claims. */
  lemma SameStock(w: World, w': World)
    requires Stocked(w) && w'.db == w.db && w'.claims == w.claims
    ensures Stocked(w')
  {
    hide Inv, Payments.Funded, Payments.KeysDiffer;
  }

  /** Steps that concern the turn and its handlers only. */
  predicate IsQuiet(step: Step) {
    step.Begin? || step.EndTurn? || step.GiveUp? || step.FinishTurn? || step.ClearFault? || step.Verdict? || step.ReportVerdict?
    || step.Release?
  }

  lemma QuietStepTouches(w: World, step: Step)
    requires IsQuiet(step)
    ensures Do(w, step) == w.(turn := Do(w, step).turn, tasks := Do(w, step).tasks)
  {
    hide Judging, Start, Clear, End, Turns.GiveUp, Report, Turns.Release;
    if step.Verdict? { JudgingTouches(w, step.outcome, step.serial, step.task); }
  }

  lemma StepKeepsStock(w: World, step: Step)
    requires Stocked(w) && StepAllowed(w, step)
    ensures Stocked(Do(w, step))
  {
    hide Stocked, After, Marking, Grabbing, Claimed, Unreserved, Released, Judging, Allowed, Flights, WithBank, BankOf, Marked;
    match step
    case Commit(tx) => CommitKeepsStock(w, tx);
    case Pick(e) =>
      if e in w.db.queue {
        MarkKeepsStock(w, e, w.db.queue[e].(status := Active));
        SameStock(w.(db := Marked(w.db, e, w.db.queue[e].(status := Active))), Do(w, step));
      }
    case MarkPlayed(e) => if e in w.db.queue { MarkKeepsStock(w, e, w.db.queue[e].(status := Played)); }
    case MarkWin(task) => MarkingKeeps(w, task);
    case GrabBall(task) => GrabbingKeeps(w, task);
    case ClaimPrize(task, id) => ClaimedKeeps(w, task, id);
    case ReserveFails(task) => UnreservedKeeps(w, task);
    case Pass(_) => SameStock(w, Do(w, step));
    case _ =>
      hide Do;
      if IsQuiet(step) {
        QuietStepTouches(w, step);
        SameStock(w, Do(w, step));
      } else {
        BankStepKeepsStock(w, step);
      }
  }

  lemma JudgingTouches(w: World, outcome: Option<Chute.Outcome>, serial: Option<Serial>, task: nat)
    ensures var w' := Judging(w, outcome, serial, task); w' == w.(turn := w'.turn, tasks := w'.tasks)
  {}

  lemma RecordedKeeps(w: World, task: nat, e: Id)
    requires Stocked(w) && task in w.tasks && w.tasks[task].Recording? && e in w.db.queue
    ensures Stocked(Recorded(w, task, e))
  {
    hide Stocked;
    var entry := w.db.queue[e].(won := true);
    MarkKeepsStock(w, e, entry);
    SameStock(w.(db := Marked(w.db, e, entry)), Recorded(w, task, e));
  }

  lemma MarkingKeeps(w: World, task: nat)
    requires Stocked(w)
    ensures Stocked(Marking(w, task))
  {
    hide Stocked, Recorded;
    if task in w.tasks && w.tasks[task].Recording? && exists e :: HasKey(w.db.queue, e, w.tasks[task].key) {
      var e :| HasKey(w.db.queue, e, w.tasks[task].key) && Marking(w, task) == Recorded(w, task, e);
      RecordedKeeps(w, task, e);
    } else {
      SameStock(w, Marking(w, task));
    }
  }
}

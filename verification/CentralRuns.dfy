/** What holds in every run of the central server, whatever is committed and however the steps interleave. */
module CentralRuns {
  import opened Results
  import opened Tables
  import opened Inventory
  import opened Ledger
  import opened Withdrawals
  import opened Turns
  import opened Transactions
  import opened Central
  import opened CentralMoney
  import opened CentralTurns
  import Prizes
  import Payments
  import Chute

  /** An empty house: stock that nobody has won, no player, no ball in the machine. */
  ghost predicate Empty(w: World) {
    && w.db.balls == map[] && w.db.wins == map[] && w.db.ledger == [] && w.db.payments == map[] && w.db.queue == map[]
    && (forall o :: o in w.db.boosters ==> w.db.boosters[o].reservedBy.None? && !w.db.boosters[o].status.Reserved?)
    && (forall c :: c in w.db.cards ==> !w.db.cards[c].status.Reserved?)
    && w.turn == NO_TURN && w.starting == {} && w.tasks == map[] && w.claims == map[]
    && w.locks == map[] && w.payouts == map[] && w.sent == []
  }

  ghost function Run(w: World, steps: seq<Step>): World
    decreases |steps|
  {
    if steps == [] then w else Run(Do(w, steps[0]), steps[1..])
  }

  /** The three things the code leaves open are respected at every step. */
  ghost predicate Orderly(w: World, steps: seq<Step>)
    decreases |steps|
  {
    steps != [] ==> StepAllowed(w, steps[0]) && Orderly(Do(w, steps[0]), steps[1..])
  }

  ghost predicate Good(w: World) {
    Stocked(w) && Sound(w) && Attributable(w)
  }

  lemma EmptyIsGood(w: World)
    requires Empty(w)
    ensures Good(w)
  {
    assert Flights(w.claims) == map[];
  }

  lemma StepKeepsGood(w: World, step: Step)
    requires Good(w) && StepAllowed(w, step)
    ensures Good(Do(w, step))
  {
    hide Inv, Payments.Funded, Sound, Attributable, Do, StepAllowed;
    StepKeepsStock(w, step);
    StepKeepsMoney(w, step);
    StepKeepsAttribution(w, step);
  }

  lemma {:induction false} RunKeepsGood(w: World, steps: seq<Step>)
    requires Good(w) && Orderly(w, steps)
    ensures Good(Run(w, steps))
    decreases |steps|
  {
    hide Good, Do, StepAllowed;
    if steps != [] {
      StepKeepsGood(w, steps[0]);
      RunKeepsGood(Do(w, steps[0]), steps[1..]);
    }
  }

  /** A state some orderly run from an empty house leads to. */
  ghost predicate Reachable(w: World) {
    exists w0, steps :: Empty(w0) && Orderly(w0, steps) && Run(w0, steps) == w
  }

  lemma ReachableIsGood(w: World)
    requires Reachable(w)
    ensures Good(w)
  {
    hide Empty, Orderly, Run, Good;
    var w0, steps :| Empty(w0) && Orderly(w0, steps) && Run(w0, steps) == w;
    EmptyIsGood(w0);
    RunKeepsGood(w0, steps);
  }

  lemma {:induction false} OneStepMore(w: World, steps: seq<Step>, step: Step)
    requires Orderly(w, steps) && StepAllowed(Run(w, steps), step)
    ensures Orderly(w, steps + [step]) && Run(w, steps + [step]) == Do(Run(w, steps), step)
    decreases |steps|
  {
    hide Do, StepAllowed;
    var longer := steps + [step];
    if steps == [] {
      assert longer[1..] == [];
      assert Run(Do(w, step), longer[1..]) == Do(w, step) && Orderly(Do(w, step), longer[1..]);
    } else {
      assert longer[1..] == steps[1..] + [step];
      OneStepMore(Do(w, steps[0]), steps[1..], step);
    }
  }

  lemma ReachesNext(w: World, step: Step)
    requires Reachable(w) && StepAllowed(w, step)
    ensures Reachable(Do(w, step))
  {
    hide Empty, Orderly, Run, Do, StepAllowed;
    var w0, steps :| Empty(w0) && Orderly(w0, steps) && Run(w0, steps) == w;
    OneStepMore(w0, steps, step);
  }

  lemma EmptyIsReachable(w: World)
    requires Empty(w)
    ensures Reachable(w)
  {
    assert Orderly(w, []) && Run(w, []) == w;
  }

  // ---------------------------------------------------------------------------
  // The seven truths the simulator checks after every scenario, in every state
  // ---------------------------------------------------------------------------

  /** Every win traces to a confirmed payment for its play, and that by the winner; a play has at most one payment. */
  lemma EveryWinIsPaidFor(w: World, v: Id)
    requires Reachable(w) && v in w.db.wins
    ensures var db := w.db;
            && (exists p :: Payments.Funds(db.payments, p, db.wins[v].entry) && db.payments[p].address == db.wins[v].user)
            && forall p, q ::
                 Payments.Funds(db.payments, p, db.wins[v].entry) && Payments.Funds(db.payments, q, db.wins[v].entry) ==> p == q
  {
    hide Reachable, Inv, Sound, TurnsOk, Payments.Funded, Payments.KeysDiffer;
    ReachableIsGood(w);
    assert Traced(w.db.queue, w.turn.history, w.db.wins[v].entry, w.db.wins[v].user, w.db.wins[v].ball);
    Payments.OnePaymentPerPlay(w.db, w.db.wins[v].entry);
  }

  /** No play has two payments, and no transaction hash or payment intent funds two. */
  lemma NothingIsPaidTwice(w: World, p: Id, q: Id)
    requires Reachable(w)
    requires p in w.db.payments && q in w.db.payments && p != q
    ensures var pays := w.db.payments;
            && (pays[p].entry.Some? ==> pays[p].entry != pays[q].entry)
            && (pays[p].ref.Some? ==> pays[p].ref != pays[q].ref)
  {
    hide Reachable, Inv, Sound, Attributable, Payments.PaymentsOk, Payments.EntriesPaid;
    ReachableIsGood(w);
  }

  /** No ball, no play and no card is won twice. */
  lemma NothingIsWonTwice(w: World, v: Id, u: Id)
    requires Reachable(w)
    requires v in w.db.wins && u in w.db.wins && v != u
    ensures var wins := w.db.wins;
            wins[v].ball != wins[u].ball && wins[v].entry != wins[u].entry && (wins[v].card.Some? ==> wins[v].card != wins[u].card)
  {
    hide Reachable, Sound, Attributable, Payments.Funded, Payments.KeysDiffer;
    ReachableIsGood(w);
  }

  /**
   * A booster is reserved exactly when a pending win holds it, and only one does; every ball in the machine has a free
   * prize, so that voiding it changes no inventory; every pending win can be honoured.
   */
  lemma InventoryHolds(w: World)
    requires Reachable(w)
    ensures var db := w.db;
            && (forall o :: o in db.boosters ==> (db.boosters[o].status.Reserved? <==> exists v :: BoosterHeldBy(db, o, v)))
            && (forall o, u, v :: BoosterHeldBy(db, o, u) && BoosterHeldBy(db, o, v) ==> u == v)
            && (forall c :: c in db.cards ==> (db.cards[c].status.Reserved? <==> exists v :: CardHeldBy(db.wins, c, v)))
            && PrizesFree(db)
            && (forall s :: Prizes.VoidBall(db, s).Good? ==>
                  Prizes.VoidBall(db, s).value.boosters == db.boosters && Prizes.VoidBall(db, s).value.cards == db.cards)
  {
    hide Reachable, Inv, Sound, Attributable, Payments.Funded, Payments.KeysDiffer, Prizes.VoidBall, PrizesFree,
         BoosterHeldBy, CardHeldBy;
    ReachableIsGood(w);
    var f := Flights(w.claims);
    forall o | o in w.db.boosters
      ensures w.db.boosters[o].status.Reserved? <==> exists v :: BoosterHeldBy(w.db, o, v)
      ensures forall u, v :: BoosterHeldBy(w.db, o, u) && BoosterHeldBy(w.db, o, v) ==> u == v
    {
      BoosterReservedExactly(w.db, f, o);
    }
    assert forall o, u :: BoosterHeldBy(w.db, o, u) ==> o in w.db.boosters by { HeldExists(w.db); }
    forall c | c in w.db.cards
      ensures w.db.cards[c].status.Reserved? <==> exists v :: CardHeldBy(w.db.wins, c, v)
    {
      CardReservedExactly(w.db, f, c);
    }
    forall s | Prizes.VoidBall(w.db, s).Good?
      ensures Prizes.VoidBall(w.db, s).value.boosters == w.db.boosters && Prizes.VoidBall(w.db, s).value.cards == w.db.cards
    {
      VoidChangesNoInventory(w.db, f, s);
    }
    LoadedIsFree(w.db, f);
  }

  lemma HeldExists(db: Db)
    ensures forall o, u :: BoosterHeldBy(db, o, u) ==> o in db.boosters
  {}

  lemma LoadedIsFree(db: Db, f: InFlight)
    requires Inv(db, f)
    ensures PrizesFree(db)
  {
    hide BoostersOk, BoostersDiffer, BoostersHeld, CardsOk, CardsHeld, WinsRefer, WinsDiffer, FlightsOk, BallsDiffer;
    forall s | s in db.balls
      ensures BallOk(db.balls[s], db.boosters, db.cards)
    {}
  }

  /**
   * Nobody is ever overdrawn: what was sent to a player and what is held of his card-funded winnings is within what he
   * was credited. A withdrawal without a hash is one the treasury has yet to settle.
   */
  lemma NobodyIsOverdrawn(w: World, u: Address)
    requires Reachable(w)
    ensures && Balance(w.db.ledger, u) >= HeldCents(w.db.wins, w.db.payments, w.db.ledger, u, w.now) >= 0
            && SentTo(w.sent, u) + HeldCents(w.db.wins, w.db.payments, w.db.ledger, u, w.now) <= Credits(w.db.ledger, u)
            && forall i :: 0 <= i < |w.db.ledger| && w.db.ledger[i].kind.Withdrawal? ==> w.db.ledger[i].tx || w.db.ledger[i].id in w.payouts
  {
    hide Reachable, Stocked, Attributable, Credits, Debits, HeldCents, Solvent, GoneCents;
    ReachableIsGood(w);
    NeverOverdrawn(BankOf(w), u);
  }

  /** In every state, the credits under a win are its price if it was sold, by the player or by the clock, and else nothing. */
  lemma CreditsAreThePrice(w: World, v: Id)
    requires Reachable(w) && v in w.db.wins
    ensures var db := w.db;
            WinCredits(db.ledger, v) == if Sold(db.wins[v].status) then db.wins[v].price else 0
  {
    hide Reachable, Stocked, Attributable, WinCredits;
    ReachableIsGood(w);
  }

  /**
   * Every win was judged: a winning verdict on its ball was given to the turn of its play, which was the turn on when
   * the last turn end before that verdict fired, and its player is the winner; whichever turn is on by now.
   */
  lemma WinsGoToTheTurnThatEnded(w: World, v: Id) returns (i: nat)
    requires Reachable(w) && v in w.db.wins
    ensures var win := w.db.wins[v]; var h := w.turn.history;
            && win.entry in w.db.queue && w.db.queue[win.entry].address == win.user
            && 0 < i < |h| && WinningVerdict(h[i], w.db.queue[win.entry].key, win.user, win.ball)
            && h[i - 1] == Ended(Some(w.db.queue[win.entry].key), Some(win.user))
  {
    hide Reachable, Stocked, Sound, Owner;
    ReachableIsGood(w);
    var win, h := w.db.wins[v], w.turn.history;
    assert Traced(w.db.queue, h, win.entry, win.user, win.ball);
    i :| 0 <= i < |h| && WinningVerdict(h[i], w.db.queue[win.entry].key, win.user, win.ball);
    JudgedAfterEnd(h, i);
  }

  lemma JudgedAfterEnd(h: seq<Note>, i: nat)
    requires Attributed(h) && i < |h| && h[i].Judged? && h[i].key.Some?
    ensures i > 0 && h[i - 1] == Ended(h[i].key, h[i].player)
  {
    assert (h[i].key, h[i].player) == Awaited(h[..i]);
    if i > 0 { assert h[..i][i - 1] == h[i - 1]; }
  }

  // ---------------------------------------------------------------------------
  // What never changes again
  // ---------------------------------------------------------------------------

  /** A payment that is confirmed or failed, and a win that is settled, stay exactly as they are. */
  lemma StepKeepsSettled(w: World, step: Step)
    ensures var db, db' := w.db, Do(w, step).db;
            && (forall p :: p in db.payments && !db.payments[p].status.Pending? ==> p in db'.payments && db'.payments[p] == db.payments[p])
            && (forall v :: v in db.wins && !db.wins[v].status.Pending? ==> v in db'.wins && db'.wins[v] == db.wins[v])
  {
    hide After, Marking, Claimed, Grabbing, Judging, WithBank, BankOf;
    if step.Commit? {
      TouchedAtMost(w.db, step.tx, w.now);
    } else if step.ClaimPrize? {
      ClaimedTouches(w, step.task, step.id);
    } else {
      OtherStepTouches(w, step);
    }
  }

  /** Claims add at most one win, under a new id. */
  lemma ClaimedTouches(w: World, task: nat, id: Id)
    ensures var db, db' := w.db, Claimed(w, task, id).db;
            && db' == db.(wins := db'.wins, boosters := db'.boosters, cards := db'.cards)
            && (db'.wins == db.wins || (id !in db.wins && id in db'.wins && db'.wins == db.wins[id := db'.wins[id]]))
  {
    hide Prizes.Claim;
    if task in w.claims && ClaimOf(w, task, id).Good? {
      var c := w.claims[task];
      ClaimTouches(w.db, c.serial, c.ball, c.user, c.entry, w.now, id);
    }
  }

  /** The remaining steps leave wins, payments and inventory alone; only a grab touches the balls. */
  lemma OtherStepTouches(w: World, step: Step)
    requires !step.Commit? && !step.ClaimPrize?
    ensures var db, db' := w.db, Do(w, step).db;
            && db' == db.(balls := db'.balls, ledger := db'.ledger, queue := db'.queue)
            && (!step.GrabBall? ==> db'.balls == db.balls)
  {
    hide Judging, Grabbing, Marking, Claimed, Unreserved, Released, BankOf, WithBank, After, Start, Clear, End, Report;
    if IsBankStep(step) {
      hide Do;
      BankStepTurns(w, step);
    } else if IsQuiet(step) {
      hide Do;
      QuietStepTouches(w, step);
    } else if step.ReserveFails? {
      UnreservedTouches(w, step.task);
    } else if step.GrabBall? {
      GrabbingTouches(w, step.task);
    } else if step.MarkWin? {
      MarkTouches(w, step.task);
    }
  }

  lemma UnreservedTouches(w: World, task: nat)
    ensures Unreserved(w, task) == w.(tasks := Unreserved(w, task).tasks, claims := Unreserved(w, task).claims)
  {}

  lemma GrabbingTouches(w: World, task: nat)
    ensures Grabbing(w, task).db == w.db.(balls := Grabbing(w, task).db.balls)
  {}

  lemma MarkTouches(w: World, task: nat)
    ensures Marking(w, task) == w.(db := w.db.(queue := Marking(w, task).db.queue), tasks := Marking(w, task).tasks)
  {}

  /**
   * Exactly once: in every run from any state on, a payment leaves PENDING at most once and a win is settled at most
   * once; once settled their rows never change. So a success reported after a failure never yields a play.
   */
  lemma {:induction false} SettledForGood(w: World, steps: seq<Step>, p: Id, v: Id)
    ensures p in w.db.payments && !w.db.payments[p].status.Pending? ==>
              p in Run(w, steps).db.payments && Run(w, steps).db.payments[p] == w.db.payments[p]
    ensures v in w.db.wins && !w.db.wins[v].status.Pending? ==>
              v in Run(w, steps).db.wins && Run(w, steps).db.wins[v] == w.db.wins[v]
    decreases |steps|
  {
    hide Do;
    if steps != [] {
      StepKeepsSettled(w, steps[0]);
      SettledForGood(Do(w, steps[0]), steps[1..], p, v);
    }
  }

  // ---------------------------------------------------------------------------
  // Reservation in two transactions
  // ---------------------------------------------------------------------------

  predicate Binds(step: Step, s: Serial) {
    step.Commit? && ((step.tx.BindBooster? && step.tx.s == s) || (step.tx.BindCard? && step.tx.s == s))
  }

  /** A grab takes balls that are in the machine only. */
  lemma GrabLeavesOthers(w: World, task: nat, s: Serial)
    requires s in w.db.balls && !w.db.balls[s].status.Loaded?
    ensures s in Grabbing(w, task).db.balls && Grabbing(w, task).db.balls[s] == w.db.balls[s]
  {}

  lemma StepKeepsBallOut(w: World, step: Step, s: Serial)
    requires s in w.db.balls && !w.db.balls[s].status.Loaded? && !Binds(step, s)
    ensures s in Do(w, step).db.balls && Do(w, step).db.balls[s] == w.db.balls[s]
  {
    hide After, Claimed, Grabbing;
    if step.Commit? {
      TxKeepsBallOut(w.db, step.tx, w.now, s);
    } else if step.ClaimPrize? {
      ClaimedTouches(w, step.task, step.id);
    } else if step.GrabBall? {
      GrabLeavesOthers(w, step.task, s);
    } else {
      hide Do;
      OtherStepTouches(w, step);
    }
  }

  /**
   * Once a ball is grabbed it is out of the machine for good, whatever happens to its prize: until an operator binds it
   * again, no step of any run returns it, and every attempt to win it again is refused.
   */
  lemma {:induction false} GrabbedStaysOut(w: World, steps: seq<Step>, s: Serial)
    requires s in w.db.balls && !w.db.balls[s].status.Loaded?
    requires forall i :: 0 <= i < |steps| ==> !Binds(steps[i], s)
    ensures s in Run(w, steps).db.balls && Run(w, steps).db.balls[s] == w.db.balls[s]
    ensures Prizes.Grab(Run(w, steps).db, s) == Bad(BallNotAvailable)
    decreases |steps|
  {
    hide Do, Binds;
    if steps != [] {
      StepKeepsBallOut(w, steps[0], s);
      assert forall i :: 0 <= i < |steps[1..]| ==> steps[1..][i] == steps[i + 1];
      GrabbedStaysOut(Do(w, steps[0]), steps[1..], s);
    }
  }

  /**
   * The claim is all or nothing: either there is one new pending win, its prize reserved for it, or wins and inventory
   * are exactly as before; no ball is touched either way.
   */
  lemma ClaimIsAllOrNothing(w: World, task: nat, id: Id)
    requires Stocked(w) && task in w.claims
    ensures var db, db' := w.db, Claimed(w, task, id).db;
            && db'.balls == db.balls
            && if ClaimOf(w, task, id).Good? then
                 && id !in db.wins && id in db'.wins && db'.wins == db.wins[id := db'.wins[id]]
                 && db'.wins[id].status.Pending? && db'.wins[id].ball == w.claims[task].serial && db'.wins[id].user == w.claims[task].user
                 && match db'.wins[id].kind
                    case BoosterPair => Prizes.Held(db', id).Some? && BoosterHeldBy(db', Prizes.Held(db', id).value, id)
                    case SingleCard => db'.wins[id].card.Some? && CardHeldBy(db'.wins, db'.wins[id].card.value, id)
               else db' == db
  {
    hide Inv, Payments.Funded, Payments.KeysDiffer, Prizes.Claim;
    var w' := Claimed(w, task, id);
    ClaimedTouches(w, task, id);
    if ClaimOf(w, task, id).Good? {
      var c := w.claims[task];
      ClaimedKeeps(w, task, id);
      ClaimTouches(w.db, c.serial, c.ball, c.user, c.entry, w.now, id);
      PendingWinHasPrize(w'.db, Flights(w'.claims), id);
    }
  }

  /**
   * Whatever is committed between the grab of a ball and its claim, in every reachable state: the claim finds the pool
   * exhausted exactly when the ball had no booster when it fell, or the operator has taken the SKU of its booster out of
   * stock.
   */
  lemma ExhaustedOnlyByStock(w: World, task: nat, id: Id)
    requires Reachable(w) && task in w.claims
    ensures var ball := w.claims[task].ball;
            ClaimOf(w, task, id) == Bad(PoolExhausted)
            <==> ball.kind.BoosterPair?
                 && (ball.booster.None? || (ball.booster.value in w.db.boosters
                                            && !Prizes.InStock(w.db, w.db.boosters[ball.booster.value].sku)))
  {
    hide Reachable, Inv, Sound, Attributable, Payments.Funded, Payments.KeysDiffer, Prizes.Claim, Prizes.InStock;
    ReachableIsGood(w);
    var c := w.claims[task];
    ExhaustedExactly(w.db, Flights(w.claims), task, c.serial, c.user, c.entry, w.now, id);
  }

  // ---------------------------------------------------------------------------
  // Why runs have to be orderly
  // ---------------------------------------------------------------------------

  lemma BoundNow(db: Db, s: Serial, o: Id, now: nat)
    requires o in db.boosters && db.boosters[o].status.Available? && db.boosters[o].complete
    requires Prizes.Bindable(db, s) && forall r :: r in db.balls && r != s ==> db.balls[r].booster != Some(o)
    ensures After(db, BindBooster(s, o), now) == db.(balls := db.balls[s := Ball(BoosterPair, Some(o), None, Loaded)])
  {}

  lemma PaidNow(db: Db, addr: Address, key: Key, now: nat)
    requires db.payments == map[] && db.queue == map[]
    ensures var db' := After(db, PayFree(0, addr, 0, key), now);
            db' == db.(payments := db'.payments, queue := map[0 := Entry(addr, key, Queued, false)])
  {}

  /** From an empty house with one booster to win: a ball is bound to it, a play is paid, and the play begins. */
  lemma PlayBegins(w: World, s: Serial, o: Id, addr: Address, key: Key) returns (w': World)
    requires Empty(w) && o in w.db.boosters
    requires w.db.boosters[o].status.Available? && w.db.boosters[o].complete
    ensures Reachable(w')
    ensures w'.db == w.db.(balls := map[s := Ball(BoosterPair, Some(o), None, Loaded)], payments := w'.db.payments,
                           queue := map[0 := Entry(addr, key, Active, false)])
    ensures w'.turn == NO_TURN.(key := Some(key), player := Some(addr)) && w'.tasks == map[] && w'.claims == map[]
  {
    hide Reachable, After, Marking, Grabbing, Claimed, Unreserved, Released, Judging, WithBank;
    EmptyIsReachable(w);
    BoundNow(w.db, s, o, w.now);
    var bound := Do(w, Commit(BindBooster(s, o)));
    assert bound.db.balls == map[s := Ball(BoosterPair, Some(o), None, Loaded)];
    ReachesNext(w, Commit(BindBooster(s, o)));
    PaidNow(bound.db, addr, key, bound.now);
    var paid := Do(bound, Commit(PayFree(0, addr, 0, key)));
    assert paid.db.queue == map[0 := Entry(addr, key, Queued, false)];
    ReachesNext(bound, Commit(PayFree(0, addr, 0, key)));
    var picked := Do(paid, Pick(0));
    assert picked.db.queue == map[0 := Entry(addr, key, Active, false)];
    ReachesNext(paid, Pick(0));
    w' := Do(picked, Begin(0));
    ReachesNext(picked, Begin(0));
  }

  /** The play ends, and its verdict is a win on this ball. */
  lemma VerdictComes(w: World, s: Serial, addr: Address, key: Key) returns (w': World)
    requires Reachable(w) && s != ""
    requires w.turn.key == Some(key) && w.turn.player == Some(addr) && w.tasks == map[] && w.claims == map[]
    ensures Reachable(w') && w'.db == w.db && w'.claims == map[]
    ensures w'.tasks == map[0 := Recording(key, Some(addr), s, Some(Chute.Ok))]
  {
    hide Reachable, After, Claimed, Unreserved, Released, Marking, Grabbing, WithBank, Report;
    var ended := Do(w, EndTurn);
    ReachesNext(w, EndTurn);
    w' := Do(ended, Verdict(Some(Chute.Ok), Some(s), 0));
    ReachesNext(ended, Verdict(Some(Chute.Ok), Some(s), 0));
  }

  /** It is recorded, and the ball is grabbed. */
  lemma BallIsGrabbed(w: World, s: Serial, addr: Address, key: Key) returns (w': World)
    requires Reachable(w) && s != "" && s in w.db.balls && w.db.balls[s].status.Loaded?
    requires w.db.queue == map[0 := Entry(addr, key, Active, false)]
    requires w.turn.key == Some(key) && w.turn.player == Some(addr) && w.tasks == map[] && w.claims == map[]
    ensures Reachable(w') && w'.claims == map[0 := Claiming(s, w.db.balls[s], addr, 0, Some(Chute.Ok))]
    ensures w'.db == w.db.(balls := w.db.balls[s := w.db.balls[s].(status := Grabbed)], queue := w'.db.queue)
    ensures 0 in w'.db.queue
  {
    hide Reachable, After, Claimed, Unreserved, Released, Judging, WithBank, Report;
    var judged := VerdictComes(w, s, addr, key);
    var marked := Do(judged, MarkWin(0));
    assert HasKey(judged.db.queue, 0, key);
    assert marked.tasks[0] == Reserving(0, addr, s, Some(Chute.Ok));
    ReachesNext(judged, MarkWin(0));
    w' := Do(marked, GrabBall(0));
    ReachesNext(marked, GrabBall(0));
  }

  /** The claim of a ball that is back in the machine with the same booster. */
  lemma ClaimBreaks(w: World, s: Serial, o: Id)
    requires 0 in w.claims && w.claims[0].serial == s && w.claims[0].ball == Ball(BoosterPair, Some(o), None, Loaded)
    requires s in w.db.balls && w.db.balls[s] == w.claims[0].ball && o in w.db.boosters && w.db.boosters[o].status.Available?
    requires Prizes.InStock(w.db, w.db.boosters[o].sku) && w.claims[0].entry in w.db.queue && w.db.wins == map[]
    ensures var broken := Claimed(w, 0, 0);
            && broken.db.balls == w.db.balls && !PrizesFree(broken.db)
            && Prizes.ProblemOf(broken.db, broken.db.balls[s]) == Some(Prizes.BoosterIs(BoosterStatus.Reserved))
  {
    var broken := Claimed(w, 0, 0);
    assert broken.db.boosters[o].status.Reserved?;
  }

  /**
   * From any empty house with one booster that can be won, an orderly run reaches a state in which binding the grabbed
   * ball again, to its own booster, is accepted and makes the claim leave it in the machine with a prize that is taken.
   */
  lemma RebindingInFlightBreaks(w0: World, s: Serial, o: Id, addr: Address, key: Key) returns (w: World)
    requires Empty(w0) && s != "" && o in w0.db.boosters
    requires w0.db.boosters[o].status.Available? && w0.db.boosters[o].complete && Prizes.InStock(w0.db, w0.db.boosters[o].sku)
    ensures Reachable(w) && 0 in w.claims
    ensures var rebound := Do(w, Commit(BindBooster(s, o)));
            var broken := Do(rebound, ClaimPrize(0, 0));
            && s in rebound.db.balls && rebound.db.balls[s].status.Loaded?
            && s in broken.db.balls && broken.db.balls[s].status.Loaded? && !PrizesFree(broken.db)
            && Prizes.ProblemOf(broken.db, broken.db.balls[s]) == Some(Prizes.BoosterIs(BoosterStatus.Reserved))
  {
    hide Reachable, After, Claimed, Marking, Grabbing, Unreserved, Released, Judging, WithBank, PrizesFree;
    var begun := PlayBegins(w0, s, o, addr, key);
    w := BallIsGrabbed(begun, s, addr, key);
    BoundNow(w.db, s, o, w.now);
    var rebound := Do(w, Commit(BindBooster(s, o)));
    assert rebound.db.balls[s] == Ball(BoosterPair, Some(o), None, Loaded);
    assert rebound.claims[0].ball == Ball(BoosterPair, Some(o), None, Loaded);
    ClaimBreaks(rebound, s, o);
  }

  // ---------------------------------------------------------------------------
  // A fault stays
  // ---------------------------------------------------------------------------

  lemma StepKeepsFault(w: World, step: Step)
    requires w.turn.fault.Some? && !step.ClearFault?
    ensures Do(w, step).turn.fault.Some?
  {
    hide After, Claimed, Unreserved, Released, Judging, Marking, Grabbing;
    if IsBankStep(step) {
      hide Do;
      BankStepTurns(w, step);
    } else {
      TurnOnlyBy(w, step);
    }
  }

  /** What recording a win does to the turn: a verdict notes itself, the rest nothing. */
  lemma TurnOnlyBy(w: World, step: Step)
    ensures step.Verdict? ==> Judging(w, step.outcome, step.serial, step.task).turn.fault == w.turn.fault
    ensures step.MarkWin? ==> Marking(w, step.task).turn == w.turn
    ensures step.GrabBall? ==> Grabbing(w, step.task).turn == w.turn
    ensures step.ClaimPrize? ==> Claimed(w, step.task, step.id).turn == w.turn
    ensures step.ReserveFails? ==> Unreserved(w, step.task).turn == w.turn
    ensures step.Release? ==> Released(w, step.task).turn.fault == w.turn.fault
  {
    hide Prizes.Claim, Prizes.Grab, ClaimOf, Recorded, HasKey, TaskFree, Won;
    if step.MarkWin? { MarkTouches(w, step.task); }
  }

  lemma {:induction false} RunKeepsFault(w: World, steps: seq<Step>)
    requires w.turn.fault.Some? && forall i :: 0 <= i < |steps| ==> !steps[i].ClearFault?
    ensures Run(w, steps).turn.fault.Some?
    decreases |steps|
  {
    hide Do;
    if steps != [] {
      StepKeepsFault(w, steps[0]);
      assert forall i :: 0 <= i < |steps[1..]| ==> steps[1..][i] == steps[i + 1];
      RunKeepsFault(Do(w, steps[0]), steps[1..]);
    }
  }

  /** An unfit verdict is reported, or the wait for one is given up. */
  predicate SetsFault(w: World, step: Step) {
    match step
    case ReportVerdict(task) => task in w.tasks && w.tasks[task].Reporting? && !Healthy(w.tasks[task].outcome)
    case GiveUp => true
    case _ => false
  }

  /** It leaves a fault that lasts through every run until it is cleared, by the operator or by a status report without a latch. */
  lemma UnfitUntilCleared(w: World, step: Step, steps: seq<Step>)
    requires SetsFault(w, step)
    requires forall i :: 0 <= i < |steps| ==> !steps[i].ClearFault?
    ensures Run(Do(w, step), steps).turn.fault.Some?
  {
    hide Run;
    RunKeepsFault(Do(w, step), steps);
  }

  lemma OnlyReportsFault(w: World, step: Step)
    requires w.turn.fault.None?
    ensures Do(w, step).turn.fault.Some? <==> SetsFault(w, step)
  {
    hide After, Claimed, Unreserved, Released, Judging, Marking, Grabbing;
    if IsBankStep(step) {
      hide Do;
      BankStepTurns(w, step);
    } else {
      TurnOnlyBy(w, step);
    }
  }

  /** Somewhere on this run a fault is set. */
  ghost predicate Faulted(w: World, steps: seq<Step>) {
    exists i :: 0 <= i < |steps| && SetsFault(Run(w, steps[..i]), steps[i])
  }

  lemma FaultedAhead(w: World, steps: seq<Step>)
    requires steps != []
    ensures Faulted(w, steps) <==> SetsFault(w, steps[0]) || Faulted(Do(w, steps[0]), steps[1..])
  {
    hide Do, SetsFault;
    forall i | 0 < i < |steps|
      ensures Run(w, steps[..i]) == Run(Do(w, steps[0]), steps[1..][..i - 1]) && steps[i] == steps[1..][i - 1]
    {
      assert steps[..i][1..] == steps[1..][..i - 1];
    }
    assert Run(w, steps[..0]) == w;
    if i :| 0 <= i < |steps[1..]| && SetsFault(Run(Do(w, steps[0]), steps[1..][..i]), steps[1..][i]) {
      assert SetsFault(Run(w, steps[..i + 1]), steps[i + 1]);
    }
  }

  /**
   * On a run on which no fault is cleared there is a fault at the end exactly when there was one before or some step of it
   * reports an unfit verdict or gives up waiting for one. A verdict alone sets none.
   */
  lemma {:induction false} FaultExactlyWhenReported(w: World, steps: seq<Step>)
    requires forall i :: 0 <= i < |steps| ==> !steps[i].ClearFault?
    ensures Run(w, steps).turn.fault.Some? <==> w.turn.fault.Some? || Faulted(w, steps)
    decreases |steps|
  {
    hide Do, SetsFault, Faulted;
    if steps == [] {
      assert !Faulted(w, steps) by { NeverFaulted(w); }
    } else if w.turn.fault.Some? {
      RunKeepsFault(w, steps);
    } else {
      OnlyReportsFault(w, steps[0]);
      FaultedAhead(w, steps);
      assert forall i :: 0 <= i < |steps[1..]| ==> steps[1..][i] == steps[i + 1];
      FaultExactlyWhenReported(Do(w, steps[0]), steps[1..]);
    }
  }

  lemma NeverFaulted(w: World)
    ensures !Faulted(w, [])
  {}

  /**
   * From any empty house with one booster to win: a run whose last turn ends with the verdict that a ball fell unread,
   * and which is over, with no fault. The handler of that verdict raised before it came to report it.
   */
  lemma UnfitVerdictCanBeLost(w0: World, s: Serial, o: Id, addr: Address, key: Key) returns (w: World)
    requires Empty(w0) && o in w0.db.boosters && w0.db.boosters[o].status.Available? && w0.db.boosters[o].complete
    ensures Reachable(w) && w.turn.fault.None? && w.turn.ready && w.turn.key.None? && w.tasks == map[]
    ensures w.turn.history == [Ended(Some(key), Some(addr)), Judged(Some(key), Some(addr), Some(Chute.NoRead), None)]
    ensures !Healthy(Some(Chute.NoRead))
  {
    hide Reachable, After, Claimed, Unreserved, Marking, Grabbing, WithBank;
    w := PlayBegins(w0, s, o, addr, key);
    var verdict := Verdict(Some(Chute.NoRead), None, 0);
    ReachesNext(w, EndTurn);
    w := Do(w, EndTurn);
    ReachesNext(w, verdict);
    w := Do(w, verdict);
    assert w.tasks == map[0 := Reporting(Some(Chute.NoRead))];
    ReachesNext(w, Release(0));
    w := Do(w, Release(0));
    assert w.tasks == map[];
    ReachesNext(w, FinishTurn);
    w := Do(w, FinishTurn);
  }

  // ---------------------------------------------------------------------------
  // A gap the code documents
  // ---------------------------------------------------------------------------

  /**
   * A card that was won, kept and then sold from the collection is credited without its win, so nothing of it is held,
   * whoever paid for the play and however: its whole price raises what can be withdrawn at once.
   */
  lemma KeptCardsEscapeTheHold(db: Db, c: Id, u: Address, id: Id, now: nat)
    requires Prizes.SellOwned(db, c, u, id).Good?
    ensures c in db.cards
    ensures var db' := Prizes.SellOwned(db, c, u, id).value;
            && Credits(db'.ledger, u) == Credits(db.ledger, u) + Prizes.CardPrice(db.cards[c])
            && HeldCents(db'.wins, db'.payments, db'.ledger, u, now) == HeldCents(db.wins, db.payments, db.ledger, u, now)
  {
    hide Credits, HeldCents, Prizes.CardBecomes, Prizes.PostingFree;
    var p := Posting(id, u, PostingKind.CardResell, Prizes.CardPrice(db.cards[c]), None, false);
    Appended(db.ledger, p, u, 0);
    HeldAppended(db.wins, db.payments, db.ledger, p, u, now);
  }
}

/** What players can rely on in every run of the central server: winnings, holds, references, used-up prizes. */
module CentralPromises {
  import opened Results
  import opened Tables
  import opened Inventory
  import opened Ledger
  import opened Holds
  import opened Withdrawals
  import opened Transactions
  import opened Central
  import opened CentralMoney
  import opened CentralTurns
  import opened CentralRuns
  import Prizes
  import Payments

  // ---------------------------------------------------------------------------
  // Winnings and holds
  // ---------------------------------------------------------------------------

  /** Whatever is posted under a win is a sale of it, credited to its winner. */
  lemma SalesGoToTheWinner(w: World, i: nat)
    requires Reachable(w) && i < |w.db.ledger| && w.db.ledger[i].win.Some?
    ensures var p := w.db.ledger[i];
            p.win.value in w.db.wins && p.user == w.db.wins[p.win.value].user && (p.kind.Resell? || p.kind.AutoResell?)
  {
    hide Reachable, Stocked, Attributable, WinCredits, Accounted, Solvent;
    ReachableIsGood(w);
    assert PostingOk(w.db.wins, w.db.ledger[i]);
  }

  /**
   * What was sent to a player, and what he won on plays paid for by card less than seven days ago, is together within what
   * he was credited; and his balance covers the latter.
   */
  lemma CardWinningsStay(w: World, u: Address)
    requires Reachable(w)
    ensures var recent := FreshCardCents(w.db.wins, w.db.payments, w.db.ledger, u, w.now);
            SentTo(w.sent, u) + recent <= Credits(w.db.ledger, u) && Balance(w.db.ledger, u) >= recent
  {
    hide Reachable, Inv, Sound, Attributable, Credits, Debits, HeldCents, FreshCardCents, SentTo, Payments.PaymentsOk,
         Payments.PaymentsDiffer, Payments.EntriesPaid, Payments.KeysDiffer;
    ReachableIsGood(w);
    NobodyIsOverdrawn(w, u);
    HeldIsFreshCard(w.db.wins, w.db.payments, w.db.queue, w.db.ledger, u, w.now);
  }

  // ---------------------------------------------------------------------------
  // Payments
  // ---------------------------------------------------------------------------

  /**
   * Once anything was reported for a payment under a reference, success or failure, nothing that is reported under the same
   * reference at any later time, for this payment or another, by card or by transfer, changes any table.
   */
  lemma RefIsUsedOnce(w: World, tx: Tx, ref: string, steps: seq<Step>, again: Tx)
    requires UsesRef(tx, ref) && UsesRef(again, ref) && Apply(w.db, tx, w.now).Good?
    ensures var later := Run(Do(w, Commit(tx)), steps); After(later.db, again, later.now) == later.db
  {
    hide Apply, After, Run;
    assert After(w.db, tx, w.now) == Apply(w.db, tx, w.now).value by { GoodIsAfter(w.db, tx, w.now); }
    RefIsStored(w.db, tx, w.now, ref);
    var paid := Do(w, Commit(tx));
    SettledForGood(paid, steps, tx.p, 0);
    var later := Run(paid, steps);
    StoredRefIsRefused(later.db, again, later.now, tx.p, ref);
  }

  lemma GoodIsAfter(db: Db, tx: Tx, now: nat)
    requires Apply(db, tx, now).Good?
    ensures After(db, tx, now) == Apply(db, tx, now).value
  {}

  /** A play costs the ticket price unless it is free, and what is not confirmed is a card payment. */
  predicate RowOk(pay: Payment) {
    && pay.cents == (if pay.rail.Comp? then 0 else 1000)
    && (pay.rail.Comp? ==> pay.ref.None?)
    && (!pay.status.Confirmed? ==> pay.rail.CreditCard?)
  }

  ghost predicate RowsOk(payments: Pays) {
    forall p :: p in payments ==> RowOk(payments[p])
  }

  lemma TxKeepsRows(db: Db, tx: Tx, now: nat)
    requires RowsOk(db.payments)
    ensures RowsOk(After(db, tx, now).payments)
  {
    hide Apply, RowsOk;
    if Apply(db, tx, now).Good? {
      if IsPayment(tx) {
        PaymentKeepsRows(db, tx, now);
      } else if Settles(tx) {
        SettlementTouches(db, tx, now);
      } else {
        OtherTouches(db, tx, now);
      }
    }
  }

  lemma PaymentKeepsRows(db: Db, tx: Tx, now: nat)
    requires RowsOk(db.payments) && IsPayment(tx) && Apply(db, tx, now).Good?
    ensures RowsOk(Apply(db, tx, now).value.payments)
  {
    hide Payments.RefFree;
  }

  lemma StepKeepsRows(w: World, step: Step)
    requires RowsOk(w.db.payments)
    ensures RowsOk(Do(w, step).db.payments)
  {
    hide RowsOk, After, Claimed;
    if step.Commit? {
      TxKeepsRows(w.db, step.tx, w.now);
    } else if step.ClaimPrize? {
      ClaimedTouches(w, step.task, step.id);
    } else {
      OtherStepTouches(w, step);
    }
  }

  lemma {:induction false} RunKeepsRows(w: World, steps: seq<Step>)
    requires RowsOk(w.db.payments)
    ensures RowsOk(Run(w, steps).db.payments)
    decreases |steps|
  {
    hide RowsOk, Do;
    if steps != [] {
      StepKeepsRows(w, steps[0]);
      RunKeepsRows(Do(w, steps[0]), steps[1..]);
    }
  }

  /** In every reachable state each payment is of the ticket price, by card or by transfer, or a free play. */
  lemma TicketsHaveOnePrice(w: World)
    requires Reachable(w)
    ensures RowsOk(w.db.payments)
  {
    hide Orderly, Run;
    var w0, steps :| Empty(w0) && Orderly(w0, steps) && Run(w0, steps) == w;
    RunKeepsRows(w0, steps);
  }

  lemma RailOf(db: Db, tx: Tx, now: nat)
    requires Enqueues(tx) && Apply(db, tx, now).Good? && RowsOk(db.payments)
    ensures var db' := Apply(db, tx, now).value;
            && Payments.Funds(db'.payments, tx.p, tx.e) && db'.payments[tx.p].confirmedAt == Some(now)
            && (db'.payments[tx.p].rail.CreditCard? <==> tx.ConfirmCard?)
  {
    hide Payments.RefFree;
  }

  /**
   * From the payment of a play to the sale of what it won: the credit is held if and only if the play was paid for by card
   * less than seven days ago. Nothing won on a play paid for by transfer, or given away, is ever held.
   */
  lemma PlayIsHeldByItsRail(w: World, tx: Tx, steps: seq<Step>, v: Id, p: Posting)
    requires Reachable(w) && StepAllowed(w, Commit(tx)) && Enqueues(tx) && Apply(w.db, tx, w.now).Good?
    requires Orderly(Do(w, Commit(tx)), steps)
    requires v in Run(Do(w, Commit(tx)), steps).db.wins && Run(Do(w, Commit(tx)), steps).db.wins[v].entry == tx.e
    requires IsCredit(p.kind) && p.win == Some(v)
    ensures var later := Run(Do(w, Commit(tx)), steps); var db := later.db;
            HeldCents(db.wins, db.payments, db.ledger + [p], p.user, later.now)
            - HeldCents(db.wins, db.payments, db.ledger, p.user, later.now)
            == if tx.ConfirmCard? && later.now < w.now + 7 * 86_400 then p.cents else 0
  {
    hide Apply, After, Run, Orderly, Reachable, CentralRuns.Good, HeldCents, RowsOk, StepAllowed;
    assert After(w.db, tx, w.now) == Apply(w.db, tx, w.now).value by { GoodIsAfter(w.db, tx, w.now); }
    TicketsHaveOnePrice(w);
    RailOf(w.db, tx, w.now);
    ReachableIsGood(w);
    var paid := Do(w, Commit(tx));
    StepKeepsGood(w, Commit(tx));
    RunKeepsGood(paid, steps);
    SettledForGood(paid, steps, tx.p, 0);
    var later := Run(paid, steps);
    assert Payments.Funded(later.db) by { GoodIsFunded(later); }
    CreditIsHeldExactly(later.db.wins, later.db.payments, later.db.queue, later.db.ledger, p, tx.p, later.now);
  }

  lemma GoodIsFunded(w: World)
    requires CentralRuns.Good(w)
    ensures Payments.Funded(w.db)
  {
    hide Inv, Payments.Funded, Payments.KeysDiffer, Sound, Attributable;
  }

  // ---------------------------------------------------------------------------
  // Prizes that are used up
  // ---------------------------------------------------------------------------

  lemma TxKeepsConsumed(db: Db, f: InFlight, tx: Tx, now: nat, o: Id)
    requires Inv(db, f) && o in db.boosters && db.boosters[o].status.Consumed?
    ensures o in After(db, tx, now).boosters && After(db, tx, now).boosters[o] == db.boosters[o]
  {
    hide Inv, Apply;
    if Apply(db, tx, now).Good? {
      if IsPayment(tx) {
        PaymentTouches(db, tx, now);
      } else if Settles(tx) {
        SettlementKeepsConsumed(db, f, tx, now, o);
      } else {
        OtherKeepsConsumed(db, f, tx, now, o);
      }
    }
  }

  lemma SettlementKeepsConsumed(db: Db, f: InFlight, tx: Tx, now: nat, o: Id)
    requires Inv(db, f) && Settles(tx) && Apply(db, tx, now).Good? && o in db.boosters && db.boosters[o].status.Consumed?
    ensures o in Apply(db, tx, now).value.boosters && Apply(db, tx, now).value.boosters[o] == db.boosters[o]
  {
    hide BallsOk, BallsDiffer, BoostersOk, CardsOk, CardsHeld, WinsRefer, WinsDiffer, FlightsOk, BoostersHeld, BoostersDiffer,
         Prizes.CardsMoved, Prizes.PostingFree, Prizes.CardBecomes;
    if tx.OpenBooster? || tx.ShipBooster? || tx.SellBooster? { HeldIsReserved(db, tx.w); }
  }

  lemma OtherKeepsConsumed(db: Db, f: InFlight, tx: Tx, now: nat, o: Id)
    requires Inv(db, f) && !IsPayment(tx) && !Settles(tx) && Apply(db, tx, now).Good?
    requires o in db.boosters && db.boosters[o].status.Consumed?
    ensures o in Apply(db, tx, now).value.boosters && Apply(db, tx, now).value.boosters[o] == db.boosters[o]
  {
    hide Inv, Prizes.PostingFree, Prizes.CardBecomes, Prizes.Bindable, Prizes.VoidBall;
    if tx.VoidBall? { VoidChangesNoInventory(db, f, tx.s); }
  }

  lemma ClaimKeepsConsumed(w: World, task: nat, id: Id, o: Id)
    requires o in w.db.boosters && w.db.boosters[o].status.Consumed?
    ensures o in Claimed(w, task, id).db.boosters && Claimed(w, task, id).db.boosters[o] == w.db.boosters[o]
  {
    hide Prizes.Insertable, Prizes.InStock, Prizes.BoosterPrice, Prizes.CardPrice;
  }

  lemma StepKeepsConsumed(w: World, step: Step, o: Id)
    requires CentralRuns.Good(w) && o in w.db.boosters && w.db.boosters[o].status.Consumed?
    ensures o in Do(w, step).db.boosters && Do(w, step).db.boosters[o] == w.db.boosters[o]
  {
    hide Inv, Sound, Attributable, After, Claimed;
    if step.Commit? {
      TxKeepsConsumed(w.db, Flights(w.claims), step.tx, w.now, o);
    } else if step.ClaimPrize? {
      ClaimKeepsConsumed(w, step.task, step.id, o);
    } else {
      OtherStepTouches(w, step);
    }
  }

  /** An opened booster stays opened: in every orderly run from any reachable state its row never changes again. */
  lemma {:induction false} OpenedForGood(w: World, steps: seq<Step>, o: Id)
    requires CentralRuns.Good(w) && Orderly(w, steps) && o in w.db.boosters && w.db.boosters[o].status.Consumed?
    ensures o in Run(w, steps).db.boosters && Run(w, steps).db.boosters[o] == w.db.boosters[o]
    decreases |steps|
  {
    hide CentralRuns.Good, Do, StepAllowed;
    if steps != [] {
      StepKeepsConsumed(w, steps[0], o);
      StepKeepsGood(w, steps[0]);
      OpenedForGood(Do(w, steps[0]), steps[1..], o);
    }
  }
}

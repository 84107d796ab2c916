/** Every transaction that operators, players, the clock and the payment rails may commit, and what all of them keep. */
module Transactions {
  import opened Results
  import opened Tables
  import opened Inventory
  import opened Ledger
  import Prizes
  import Payments

  datatype Tx =
    | CreateBall(s: Serial)
    | BindBooster(s: Serial, o: Id)
    | BindCard(s: Serial, c: Id)
    | VoidBall(s: Serial)
    | SetStock(sku: Sku, flag: bool)
    | OpenBooster(w: Id)
    | ShipBooster(w: Id)
    | SellBooster(w: Id, auto: bool, id: Id)
    | KeepCard(w: Id)
    | ShipCard(w: Id)
    | SellCard(w: Id, auto: bool, id: Id)
    | ShipOwned(c: Id, user: Address)
    | SellOwned(c: Id, user: Address, id: Id)
    | BeginCard(p: Id, addr: Address)
    | ConfirmCard(p: Id, intent: string, e: Id, key: Key)
    | FailCard(p: Id, maybeIntent: Option<string>)
    | Transfer(p: Id, addr: Address, hash: Option<string>, e: Id, key: Key)
    | PayFree(p: Id, addr: Address, e: Id, key: Key)

  ghost function Apply(db: Db, tx: Tx, now: nat): Outcome {
    match tx
    case CreateBall(s) => Prizes.CreateBall(db, s)
    case BindBooster(s, o) => Prizes.BindBooster(db, s, o)
    case BindCard(s, c) => Prizes.BindCard(db, s, c)
    case VoidBall(s) => Prizes.VoidBall(db, s)
    case SetStock(sku, flag) => Prizes.SetStock(db, sku, flag)
    case OpenBooster(w) => Prizes.OpenBooster(db, w)
    case ShipBooster(w) => Prizes.ShipBooster(db, w)
    case SellBooster(w, auto, id) => Prizes.SellBooster(db, w, auto, id)
    case KeepCard(w) => Prizes.KeepCard(db, w)
    case ShipCard(w) => Prizes.ShipCard(db, w)
    case SellCard(w, auto, id) => Prizes.SellCard(db, w, auto, id)
    case ShipOwned(c, user) => Prizes.ShipOwned(db, c, user)
    case SellOwned(c, user, id) => Prizes.SellOwned(db, c, user, id)
    case BeginCard(p, addr) => Payments.CommitCard(db, p, addr)
    case ConfirmCard(p, intent, e, key) => Payments.ConfirmCard(db, p, intent, e, key, now)
    case FailCard(p, intent) => Payments.FailCard(db, p, intent)
    case Transfer(p, addr, hash, e, key) => Payments.CommitTransfer(db, p, addr, hash, e, key, now)
    case PayFree(p, addr, e, key) => Payments.CommitFree(db, p, addr, e, key, now)
  }

  /** A transaction that fails is rolled back. */
  ghost function After(db: Db, tx: Tx, now: nat): Db {
    match Apply(db, tx, now)
    case Good(db') => db'
    case Bad(_) => db
  }

  /**
   * What the code leaves to its operators and to chance: the prize of a ball whose win is being recorded is not bound
   * again, a card bound as a single prize is not inside an opened booster, and the 32 random bytes of a turn key are new.
   */
  ghost predicate Allowed(db: Db, f: InFlight, tx: Tx) {
    match tx
    case BindBooster(_, o) => forall t :: t in f ==> f[t].booster != Some(o)
    case BindCard(_, c) => (forall t :: t in f ==> f[t].card != Some(c)) && (c in db.cards ==> db.cards[c].booster.None?)
    case ConfirmCard(_, _, _, key) => Payments.KeyFree(db.queue, key)
    case Transfer(_, _, _, _, key) => Payments.KeyFree(db.queue, key)
    case PayFree(_, _, _, key) => Payments.KeyFree(db.queue, key)
    case _ => true
  }

  // ---------------------------------------------------------------------------
  // Inventory
  // ---------------------------------------------------------------------------

  lemma QueueGrows(db: Db, f: InFlight, db': Db)
    requires Inv(db, f) && db' == db.(queue := db'.queue, payments := db'.payments, ledger := db'.ledger, stock := db'.stock)
    requires db.queue.Keys <= db'.queue.Keys
    ensures Inv(db', f)
  {
    hide BallsOk, BallsDiffer, BoostersOk, BoostersDiffer, BoostersHeld, CardsOk, CardsHeld, WinsDiffer, FlightsOk;
    assert forall e :: e in db.queue ==> e in db.queue.Keys && e in db'.queue.Keys;
  }

  lemma BoosterTxKeeps(db: Db, f: InFlight, tx: Tx, now: nat)
    requires Inv(db, f) && (tx.OpenBooster? || tx.ShipBooster? || tx.SellBooster?) && Apply(db, tx, now).Good?
    ensures Inv(Apply(db, tx, now).value, f)
  {
    hide BallsOk, BallsDiffer, BoostersOk, CardsOk, CardsHeld, WinsRefer, WinsDiffer, FlightsOk, BoostersHeld, BoostersDiffer;
    var db' := Apply(db, tx, now).value;
    HeldIsReserved(db, tx.w);
    var o := Prizes.Held(db, tx.w).value;
    var b := db'.boosters[o];
    var status := db'.wins[tx.w].status;
    BoosterSettlementKeeps(db, f, tx.w, b, status);
    var settled := Prizes.Settled(db.(boosters := db.boosters[o := b]), tx.w, status);
    match tx
    case OpenBooster(_) => CardsMovedKeep(settled, f, o, db.wins[tx.w].user);
    case ShipBooster(_) =>
    case SellBooster(_, _, _) => QueueGrows(settled, f, db');
  }

  lemma CardTxKeeps(db: Db, f: InFlight, tx: Tx, now: nat)
    requires Inv(db, f) && (tx.KeepCard? || tx.ShipCard? || tx.SellCard?) && Apply(db, tx, now).Good?
    ensures Inv(Apply(db, tx, now).value, f)
  {
    hide BallsOk, BallsDiffer, BoostersOk, CardsOk, CardsHeld, WinsRefer, WinsDiffer, FlightsOk, BoostersHeld, BoostersDiffer;
    var win := db.wins[tx.w];
    match tx
    case KeepCard(w) => CardSettlementKeeps(db, f, w, InCollection, Some(win.user), SettledKeep);
    case ShipCard(w) => CardSettlementKeeps(db, f, w, CardStatus.Shipped, Some(win.user), SettledShip);
    case SellCard(w, auto, _) =>
      CardSettlementKeeps(db, f, w, InPool, None, Prizes.SoldStatus(auto));
      QueueGrows(Prizes.Settled(Prizes.CardBecomes(db, win.card, InPool, None), w, Prizes.SoldStatus(auto)), f, Apply(db, tx, now).value);
  }

  lemma OtherTxKeeps(db: Db, f: InFlight, tx: Tx, now: nat)
    requires Inv(db, f) && Allowed(db, f, tx) && Apply(db, tx, now).Good?
    requires tx.CreateBall? || tx.BindBooster? || tx.BindCard? || tx.VoidBall? || tx.ShipOwned? || tx.SellOwned?
    ensures Inv(Apply(db, tx, now).value, f)
  {
    hide BallsOk, BallsDiffer, BoostersOk, CardsOk, CardsHeld, WinsRefer, WinsDiffer, FlightsOk, BoostersHeld, BoostersDiffer;
    match tx
    case CreateBall(s) => CreateBallKeeps(db, f, s);
    case BindBooster(s, o) => BindBoosterKeeps(db, f, s, o);
    case BindCard(s, c) => BindCardKeeps(db, f, s, c);
    case VoidBall(s) => VoidChangesNoInventory(db, f, s);
    case ShipOwned(c, _) => OwnedCardKeeps(db, f, c, CardStatus.Shipped);
    case SellOwned(c, _, _) =>
      OwnedCardKeeps(db, f, c, Resold);
      QueueGrows(Prizes.CardBecomes(db, Some(c), Resold, None), f, Apply(db, tx, now).value);
  }

  /** Every transaction keeps the inventory invariant. */
  lemma TxKeepsInventory(db: Db, f: InFlight, tx: Tx, now: nat)
    requires Inv(db, f) && Allowed(db, f, tx)
    ensures Inv(After(db, tx, now), f)
  {
    hide Inv, Prizes.OpenBooster, Prizes.ShipBooster, Prizes.SellBooster, Prizes.KeepCard, Prizes.ShipCard, Prizes.SellCard;
    if Apply(db, tx, now).Good? {
      if tx.OpenBooster? || tx.ShipBooster? || tx.SellBooster? {
        BoosterTxKeeps(db, f, tx, now);
      } else if tx.KeepCard? || tx.ShipCard? || tx.SellCard? {
        CardTxKeeps(db, f, tx, now);
      } else if tx.CreateBall? || tx.BindBooster? || tx.BindCard? || tx.VoidBall? || tx.ShipOwned? || tx.SellOwned? {
        OtherTxKeeps(db, f, tx, now);
      } else {
        QueueGrows(db, f, After(db, tx, now));
      }
    }
  }

  // ---------------------------------------------------------------------------
  // What each transaction touches
  // ---------------------------------------------------------------------------

  predicate IsPayment(tx: Tx) {
    tx.BeginCard? || tx.ConfirmCard? || tx.FailCard? || tx.Transfer? || tx.PayFree?
  }

  predicate Enqueues(tx: Tx) {
    tx.ConfirmCard? || tx.Transfer? || tx.PayFree?
  }

  predicate Settles(tx: Tx) {
    tx.OpenBooster? || tx.ShipBooster? || tx.SellBooster? || tx.KeepCard? || tx.ShipCard? || tx.SellCard?
  }

  function SettledStatus(tx: Tx): WinStatus
    requires Settles(tx)
  {
    match tx
    case OpenBooster(_) => SettledOpen
    case ShipBooster(_) => SettledShip
    case SellBooster(_, auto, _) => Prizes.SoldStatus(auto)
    case KeepCard(_) => SettledKeep
    case ShipCard(_) => SettledShip
    case SellCard(_, auto, _) => Prizes.SoldStatus(auto)
  }

  /** The postings a transaction writes. */
  function Posted(db: Db, tx: Tx): seq<Posting>
    requires Settles(tx) ==> tx.w in db.wins
    requires tx.SellOwned? ==> tx.c in db.cards
  {
    match tx
    case SellBooster(w, auto, id) => [Prizes.Resale(w, db.wins[w], auto, id)]
    case SellCard(w, auto, id) => [Prizes.Resale(w, db.wins[w], auto, id)]
    case SellOwned(c, user, id) => [Posting(id, user, PostingKind.CardResell, Prizes.CardPrice(db.cards[c]), None, false)]
    case _ => []
  }

  /** A payment made and confirmed at once adds one row and one play. */
  lemma PaidAtOnceTouches(db: Db, p: Id, addr: Address, rail: Rail, cents: nat, ref: Option<string>, e: Id, key: Key, now: nat)
    requires Payments.PayAtOnce(db, p, addr, rail, cents, ref, e, key, now).Good?
    ensures p !in db.payments && e !in db.queue
    ensures Payments.PayAtOnce(db, p, addr, rail, cents, ref, e, key, now).value
         == db.(queue := db.queue[e := Entry(addr, key, Queued, false)],
                payments := db.payments[p := Payment(addr, rail, cents, Confirmed, ref, Some(e), Some(now))])
  {
    hide Payments.RefFree;
    var pending := Payment(addr, rail, cents, PaymentStatus.Pending, None, None, None);
    var paid := Payment(addr, rail, cents, Confirmed, ref, Some(e), Some(now));
    assert db.payments[p := pending][p := paid] == db.payments[p := paid];
  }

  /** A payment touches one row of its table, which was pending if it was there, and adds at most one play. */
  lemma PaymentTouches(db: Db, tx: Tx, now: nat)
    requires IsPayment(tx) && Apply(db, tx, now).Good?
    ensures var db' := Apply(db, tx, now).value;
            && db' == db.(queue := db'.queue, payments := db'.payments)
            && tx.p in db'.payments && db'.payments == db.payments[tx.p := db'.payments[tx.p]]
            && (tx.p in db.payments ==> db.payments[tx.p].status.Pending?)
            && (if Enqueues(tx) then
                  && tx.e !in db.queue && tx.e in db'.queue && db'.queue == db.queue[tx.e := db'.queue[tx.e]]
                  && db'.queue[tx.e].key == tx.key && db'.payments[tx.p].entry == Some(tx.e)
                else
                  && db'.queue == db.queue
                  && db'.payments[tx.p].entry == if tx.p in db.payments then db.payments[tx.p].entry else None)
  {
    hide Payments.RefFree, Payments.PayAtOnce;
    match tx
    case Transfer(p, addr, hash, e, key) => PaidAtOnceTouches(db, p, addr, Crypto, Payments.TICKET_PRICE, hash, e, key, now);
    case PayFree(p, addr, e, key) => PaidAtOnceTouches(db, p, addr, Comp, 0, None, e, key, now);
    case _ =>
  }

  lemma SettlementTouches(db: Db, tx: Tx, now: nat)
    requires Settles(tx) && Apply(db, tx, now).Good?
    ensures var db' := Apply(db, tx, now).value;
            && db' == db.(boosters := db'.boosters, cards := db'.cards, wins := db'.wins, ledger := db'.ledger)
            && tx.w in db.wins && db.wins[tx.w].status.Pending?
            && db'.wins == db.wins[tx.w := db.wins[tx.w].(status := SettledStatus(tx))]
            && db'.ledger == db.ledger + Posted(db, tx)
            && (Posted(db, tx) != [] ==> Prizes.PostingFree(db.ledger, Posted(db, tx)[0].id))
  {
    hide Prizes.CardsMoved, Prizes.Held, Prizes.PostingFree, Prizes.CardBecomes;
    assert db.ledger + [] == db.ledger;
  }

  lemma OtherTouches(db: Db, tx: Tx, now: nat)
    requires !IsPayment(tx) && !Settles(tx) && Apply(db, tx, now).Good?
    ensures var db' := Apply(db, tx, now).value;
            && db' == db.(balls := db'.balls, boosters := db'.boosters, cards := db'.cards, stock := db'.stock, ledger := db'.ledger)
            && (tx.SellOwned? ==> tx.c in db.cards)
            && db'.ledger == db.ledger + Posted(db, tx)
            && (Posted(db, tx) != [] ==> Prizes.PostingFree(db.ledger, Posted(db, tx)[0].id))
  {
    hide Prizes.PostingFree, Prizes.CardBecomes, Prizes.Bindable;
    assert db.ledger + [] == db.ledger;
  }

  // ---------------------------------------------------------------------------
  // Payments
  // ---------------------------------------------------------------------------

  lemma PaidAtOnceKeeps(db: Db, p: Id, addr: Address, rail: Rail, cents: nat, ref: Option<string>, e: Id, key: Key, now: nat)
    requires Payments.Funded(db) && Payments.PayAtOnce(db, p, addr, rail, cents, ref, e, key, now).Good?
    ensures Payments.Funded(Payments.PayAtOnce(db, p, addr, rail, cents, ref, e, key, now).value)
  {
    hide Payments.Funded, Payments.Confirm;
    var pending := Payment(addr, rail, cents, PaymentStatus.Pending, None, None, None);
    var begun := db.(payments := db.payments[p := pending]);
    Payments.UnconfirmedKeeps(db, p, pending);
    Payments.ConfirmKeeps(begun, p, ref, e, key, now);
  }

  lemma PaymentKeepsFunded(db: Db, tx: Tx, now: nat)
    requires Payments.Funded(db) && IsPayment(tx) && Apply(db, tx, now).Good?
    ensures Payments.Funded(Apply(db, tx, now).value)
  {
    hide Payments.Confirm, Payments.PayAtOnce, Payments.PaymentsOk, Payments.PaymentsDiffer, Payments.EntriesPaid,
         Payments.RefFree;
    match tx
    case BeginCard(p, addr) =>
      NoRefIsFree(db, p);
      Payments.UnconfirmedKeeps(db, p, Payment(addr, CreditCard, Payments.TICKET_PRICE, PaymentStatus.Pending, None, None, None));
    case ConfirmCard(p, intent, e, key) => Payments.ConfirmKeeps(db, p, Some(intent), e, key, now);
    case FailCard(p, intent) =>
      PendingIsOk(db, p);
      Payments.UnconfirmedKeeps(db, p, Apply(db, tx, now).value.payments[p]);
    case Transfer(p, addr, hash, e, key) =>
      PaidAtOnceKeeps(db, p, addr, Crypto, Payments.TICKET_PRICE, hash, e, key, now);
    case PayFree(p, addr, e, key) => PaidAtOnceKeeps(db, p, addr, Comp, 0, None, e, key, now);
  }

  lemma NoRefIsFree(db: Db, p: Id)
    ensures Payments.RefFree(db.payments, p, None)
  {}

  lemma PendingIsOk(db: Db, p: Id)
    requires Payments.PaymentsOk(db.payments, db.queue) && Payments.PaymentsDiffer(db.payments) && p in db.payments
    ensures Payments.PaymentOk(db.payments[p], db.queue) && Payments.RefFree(db.payments, p, db.payments[p].ref)
  {}

  /** Every transaction keeps confirmed payments and plays in bijection, and every reference unique. */
  lemma TxKeepsFunded(db: Db, tx: Tx, now: nat)
    requires Payments.Funded(db)
    ensures Payments.Funded(After(db, tx, now))
  {
    hide Apply, Payments.PaymentsOk, Payments.PaymentsDiffer, Payments.EntriesPaid;
    if Apply(db, tx, now).Good? {
      if IsPayment(tx) {
        PaymentKeepsFunded(db, tx, now);
      } else if Settles(tx) {
        SettlementTouches(db, tx, now);
      } else {
        OtherTouches(db, tx, now);
      }
    }
  }

  /** Once a payment is confirmed or failed nothing changes it any more, and a success reported later does nothing. */
  lemma SettledPaymentIsFinal(db: Db, tx: Tx, now: nat, p: Id)
    requires p in db.payments && !db.payments[p].status.Pending?
    ensures p in After(db, tx, now).payments && After(db, tx, now).payments[p] == db.payments[p]
    ensures tx.ConfirmCard? && tx.p == p ==> After(db, tx, now) == db
  {
    TouchedAtMost(db, tx, now);
  }

  /** All of the above in one: what may differ afterwards. */
  lemma TouchedAtMost(db: Db, tx: Tx, now: nat)
    ensures var db' := After(db, tx, now);
            && (db'.payments == db.payments
                || (IsPayment(tx) && tx.p in db'.payments && db'.payments == db.payments[tx.p := db'.payments[tx.p]]
                    && (tx.p in db.payments ==> db.payments[tx.p].status.Pending?)
                    && db'.payments[tx.p].entry == if Enqueues(tx) then Some(tx.e)
                                                   else if tx.p in db.payments then db.payments[tx.p].entry else None))
            && (db'.queue == db.queue
                || (Enqueues(tx) && tx.e !in db.queue && tx.e in db'.queue && db'.queue == db.queue[tx.e := db'.queue[tx.e]]
                    && db'.queue[tx.e].key == tx.key))
            && (Enqueues(tx) && db'.payments != db.payments ==> tx.e !in db.queue)
            && (db'.wins == db.wins
                || (Settles(tx) && tx.w in db.wins && db.wins[tx.w].status.Pending?
                    && db'.wins == db.wins[tx.w := db.wins[tx.w].(status := SettledStatus(tx))]))
            && (db'.ledger == db.ledger
                || exists p: Posting :: IsCredit(p.kind) && Prizes.PostingFree(db.ledger, p.id) && db'.ledger == db.ledger + [p])
  {
    hide Apply;
    if Apply(db, tx, now).Good? {
      if IsPayment(tx) {
        PaymentTouches(db, tx, now);
      } else if Settles(tx) {
        SettlementTouches(db, tx, now);
      } else {
        OtherTouches(db, tx, now);
      }
    }
  }

  /**
   * A reported success yields its play exactly when the payment is still pending: not if any error of the charge has
   * marked it failed before.
   */
  lemma SuccessPlaysExactlyWhenPending(db: Db, p: Id, intent: string, e: Id, key: Key, now: nat)
    requires p in db.payments && Payments.PaymentOk(db.payments[p], db.queue)
    requires e !in db.queue && Payments.RefFree(db.payments, p, Some(intent))
    ensures Payments.Funds(After(db, ConfirmCard(p, intent, e, key), now).payments, p, e) <==> db.payments[p].status.Pending?
  {
    hide Payments.RefFree;
    if !db.payments[p].status.Pending? { SettledPaymentIsFinal(db, ConfirmCard(p, intent, e, key), now, p); }
  }

  /** Such a run: a card payment begins, its charge reports an error, and its success comes in later. There is no play. */
  lemma LateSuccessIsLost(db: Db, p: Id, addr: Address, intent: string, e: Id, key: Key, now: nat)
    requires p !in db.payments
    ensures var begun := After(db, BeginCard(p, addr), now);
            var failed := After(begun, FailCard(p, None), now);
            var late := After(failed, ConfirmCard(p, intent, e, key), now);
            && p in begun.payments && begun.payments[p].status.Pending?
            && p in late.payments && late.payments[p].status.Failed? && late.payments[p].entry.None? && late.queue == db.queue
  {}

  /** Is this reference, a transaction hash or a payment intent, reported for a payment? */
  predicate UsesRef(tx: Tx, ref: string) {
    match tx
    case ConfirmCard(_, intent, _, _) => intent == ref
    case FailCard(_, intent) => intent == Some(ref)
    case Transfer(_, _, hash, _, _) => hash == Some(ref)
    case _ => false
  }

  /** A play that is bought, whichever way, is its payer's, queued under the new key, and funded by this payment, now. */
  lemma PlayIsBought(db: Db, tx: Tx, now: nat)
    requires Enqueues(tx) && Apply(db, tx, now).Good?
    ensures var db' := Apply(db, tx, now).value;
            && Payments.Funds(db'.payments, tx.p, tx.e) && db'.payments[tx.p].confirmedAt == Some(now)
            && tx.e !in db.queue && db'.queue == db.queue[tx.e := Entry(db'.payments[tx.p].address, tx.key, Queued, false)]
            && (if tx.ConfirmCard? then tx.p in db.payments && db'.payments[tx.p].address == db.payments[tx.p].address
                else db'.payments[tx.p].address == tx.addr)
  {
    hide Payments.RefFree;
  }

  /** What is reported for a payment is stored with it. */
  lemma RefIsStored(db: Db, tx: Tx, now: nat, ref: string)
    requires UsesRef(tx, ref) && Apply(db, tx, now).Good?
    ensures var db' := Apply(db, tx, now).value;
            && tx.p in db'.payments && db'.payments[tx.p].ref == Some(ref)
            && db'.payments[tx.p].status == if tx.FailCard? then Failed else Confirmed
  {
    hide Payments.RefFree;
  }

  /** A stored reference is worth nothing a second time, for whichever payment and on whichever rail. */
  lemma StoredRefIsRefused(db: Db, tx: Tx, now: nat, p: Id, ref: string)
    requires p in db.payments && !db.payments[p].status.Pending? && db.payments[p].ref == Some(ref) && UsesRef(tx, ref)
    ensures After(db, tx, now) == db
  {
    if tx.p != p && tx.Transfer? && tx.p !in db.payments {
      Payments.ReplayIsRefused(db, p, tx.p, tx.addr, ref, tx.e, tx.key, now);
    }
  }

  lemma TxKeepsKeys(db: Db, f: InFlight, tx: Tx, now: nat)
    requires Payments.KeysDiffer(db.queue) && Allowed(db, f, tx)
    ensures Payments.KeysDiffer(After(db, tx, now).queue)
  {
    hide After;
    TouchedAtMost(db, tx, now);
  }

  // ---------------------------------------------------------------------------
  // Wins and balls
  // ---------------------------------------------------------------------------

  /** No transaction takes a win away or changes more of it than its status, and a settled win stays as it is. */
  lemma TxKeepsWins(db: Db, tx: Tx, now: nat, w: Id)
    requires w in db.wins
    ensures var db' := After(db, tx, now);
            && w in db'.wins && db'.wins[w] == db.wins[w].(status := db'.wins[w].status)
            && (!db.wins[w].status.Pending? ==> db'.wins[w] == db.wins[w])
  {
    hide After;
    TouchedAtMost(db, tx, now);
  }

  /** A ball out of the machine stays out of it unless it is bound again. */
  lemma TxKeepsBallOut(db: Db, tx: Tx, now: nat, s: Serial)
    requires s in db.balls && !db.balls[s].status.Loaded?
    requires !(tx.BindBooster? && tx.s == s) && !(tx.BindCard? && tx.s == s)
    ensures s in After(db, tx, now).balls && After(db, tx, now).balls[s] == db.balls[s]
  {
    if Apply(db, tx, now).Good? {
      if IsPayment(tx) {
        PaymentTouches(db, tx, now);
      } else if Settles(tx) {
        SettlementTouches(db, tx, now);
      }
    }
  }

  // ---------------------------------------------------------------------------
  // The ledger
  // ---------------------------------------------------------------------------

  predicate Sold(status: WinStatus) {
    status.SettledResell? || status.Expired?
  }

  /** The credits under each win are its price if it was sold, by the player or by the clock, and nothing else. */
  ghost predicate Conserved(wins: map<Id, Win>, ledger: Postings) {
    && PostingsRefer(wins, ledger)
    && forall w :: w in wins ==> WinCredits(ledger, w) == if Sold(wins[w].status) then wins[w].price else 0
  }

  lemma {:induction false} NoCreditsYet(wins: map<Id, Win>, ledger: Postings, w: Id)
    requires PostingsRefer(wins, ledger) && w !in wins
    ensures WinCredits(ledger, w) == 0
    decreases |ledger|
  {
    if ledger != [] {
      assert PostingsRefer(wins, ledger[..|ledger| - 1]);
      NoCreditsYet(wins, ledger[..|ledger| - 1], w);
    }
  }

  /** Posting under a win, or under none. */
  lemma PostedKeeps(wins: map<Id, Win>, ledger: Postings, p: Posting)
    requires PostingsRefer(wins, ledger) && PostingOk(wins, p)
    ensures PostingsRefer(wins, ledger + [p])
  {}

  lemma SaleRefers(wins: map<Id, Win>, ledger: Postings, w: Id, auto: bool, id: Id)
    requires PostingsRefer(wins, ledger) && w in wins
    ensures PostingsRefer(wins[w := wins[w].(status := Prizes.SoldStatus(auto))], ledger + [Prizes.Resale(w, wins[w], auto, id)])
  {}

  lemma SoldKeeps(wins: map<Id, Win>, ledger: Postings, w: Id, auto: bool, id: Id)
    requires Conserved(wins, ledger) && w in wins && wins[w].status.Pending?
    ensures Conserved(wins[w := wins[w].(status := Prizes.SoldStatus(auto))], ledger + [Prizes.Resale(w, wins[w], auto, id)])
  {
    hide PostingsRefer;
    var p := Prizes.Resale(w, wins[w], auto, id);
    SaleRefers(wins, ledger, w, auto, id);
    forall v | v in wins
      ensures WinCredits(ledger + [p], v) == WinCredits(ledger, v) + if v == w then wins[w].price else 0
    {
      Appended(ledger, p, "", v);
    }
  }

  lemma UnlinkedKeeps(wins: map<Id, Win>, ledger: Postings, p: Posting)
    requires Conserved(wins, ledger) && p.win.None?
    ensures Conserved(wins, ledger + [p])
  {
    PostedKeeps(wins, ledger, p);
    forall v | v in wins
      ensures WinCredits(ledger + [p], v) == WinCredits(ledger, v)
    {
      Appended(ledger, p, "", v);
    }
  }

  lemma UnsoldKeeps(wins: map<Id, Win>, ledger: Postings, w: Id, status: WinStatus)
    requires Conserved(wins, ledger) && w in wins && wins[w].status.Pending? && !Sold(status)
    ensures Conserved(wins[w := wins[w].(status := status)], ledger)
  {}

  /** Every transaction credits a win exactly its price, exactly when it sells it. */
  lemma TxKeepsConserved(db: Db, tx: Tx, now: nat)
    requires Conserved(db.wins, db.ledger)
    ensures Conserved(After(db, tx, now).wins, After(db, tx, now).ledger)
  {
    hide Conserved, Apply;
    if Apply(db, tx, now).Good? {
      assert db.ledger + [] == db.ledger;
      if IsPayment(tx) {
        PaymentTouches(db, tx, now);
      } else if tx.SellBooster? || tx.SellCard? {
        SettlementTouches(db, tx, now);
        SoldKeeps(db.wins, db.ledger, tx.w, tx.auto, tx.id);
      } else if Settles(tx) {
        SettlementTouches(db, tx, now);
        UnsoldKeeps(db.wins, db.ledger, tx.w, SettledStatus(tx));
      } else {
        OtherTouches(db, tx, now);
        if tx.SellOwned? { UnlinkedKeeps(db.wins, db.ledger, Posted(db, tx)[0]); }
      }
    }
  }

  // ---------------------------------------------------------------------------
  // Balances
  // ---------------------------------------------------------------------------

  /** A player's debits stay, and what is newly held is newly credited. */
  ghost predicate Accrues(db: Db, db': Db, u: Address, now: nat) {
    && Debits(db'.ledger, u) == Debits(db.ledger, u)
    && Credits(db'.ledger, u) >= Credits(db.ledger, u)
    && HeldCents(db'.wins, db'.payments, db'.ledger, u, now) - HeldCents(db.wins, db.payments, db.ledger, u, now)
       <= Credits(db'.ledger, u) - Credits(db.ledger, u)
  }

  /** The ledger grows by one credit, and the holds on earlier credits stay. */
  lemma CreditAccrues(db: Db, db': Db, p: Posting, u: Address, now: nat)
    requires PostingsRefer(db.wins, db.ledger) && SameHolds(db.wins, db.payments, db'.wins, db'.payments)
    requires Payments.PaymentsDiffer(db'.payments) && IsCredit(p.kind) && db'.ledger == db.ledger + [p]
    ensures Accrues(db, db', u, now)
  {
    hide PostingsRefer, SameHolds, Payments.PaymentsDiffer, Joined;
    HeldUnchanged(db.wins, db.payments, db'.wins, db'.payments, db.ledger, u, now);
    Appended(db.ledger, p, u, 0);
    HeldAppended(db'.wins, db'.payments, db.ledger, p, u, now);
    if p.win.Some? {
      JoinsOnce(db'.wins, db'.payments, p.win.value, now);
      TimesBit(p.cents, |Joined(db'.wins, db'.payments, p.win.value, now)|);
    }
  }

  lemma TxKeepsHolds(db: Db, tx: Tx, now: nat)
    requires WinsRefer(db.wins, db.balls, db.queue) && Payments.PaymentsOk(db.payments, db.queue)
    ensures SameHolds(db.wins, db.payments, After(db, tx, now).wins, After(db, tx, now).payments)
  {
    hide After, WinsRefer, Payments.PaymentsOk, Holders;
    var db' := After(db, tx, now);
    forall w: Id, t: nat | w in db.wins
      ensures SameHold(db.wins, db.payments, db'.wins, db'.payments, w, t)
    {
      TxKeepsWins(db, tx, now, w);
      WinHasEntry(db, w);
      TxKeepsJoined(db, tx, now, db.wins[w].entry, t);
    }
  }

  lemma WinHasEntry(db: Db, w: Id)
    requires WinsRefer(db.wins, db.balls, db.queue) && w in db.wins
    ensures db.wins[w].entry in db.queue
  {}

  /** A row that changes was pending, so it joined no play before, and it joins a new one now if any. */
  lemma TxKeepsJoined(db: Db, tx: Tx, now: nat, e: Id, t: nat)
    requires Payments.PaymentsOk(db.payments, db.queue) && e in db.queue
    ensures Holders(After(db, tx, now).payments, e, t) == Holders(db.payments, e, t)
  {
    hide After;
    TouchedAtMost(db, tx, now);
    var payments' := After(db, tx, now).payments;
    if payments' != db.payments {
      if tx.p in db.payments {
        assert Payments.PaymentOk(db.payments[tx.p], db.queue);
        assert !OnHold(db.payments[tx.p], e, t);
      }
      assert !OnHold(payments'[tx.p], e, t);
    }
    assert Holders(payments', e, t) == Holders(db.payments, e, t);
  }

  lemma TxAccrues(db: Db, tx: Tx, now: nat, u: Address, t: nat)
    requires WinsRefer(db.wins, db.balls, db.queue) && Payments.Funded(db) && PostingsRefer(db.wins, db.ledger)
    ensures Accrues(db, After(db, tx, now), u, t)
  {
    hide After, PostingsRefer, SameHolds, WinsRefer, Payments.PaymentsOk, Payments.PaymentsDiffer, Payments.EntriesPaid;
    var db' := After(db, tx, now);
    TxKeepsHolds(db, tx, now);
    TxKeepsFunded(db, tx, now);
    TouchedAtMost(db, tx, now);
    if db'.ledger == db.ledger {
      HeldUnchanged(db.wins, db.payments, db'.wins, db'.payments, db.ledger, u, t);
    } else {
      var p: Posting :| IsCredit(p.kind) && Prizes.PostingFree(db.ledger, p.id) && db'.ledger == db.ledger + [p];
      CreditAccrues(db, db', p, u, t);
    }
  }
}

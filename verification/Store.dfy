/** The tables in place, and the code that changes them. */
module Store {
  import opened Results
  import opened Tables
  import opened Prizes
  import Inventory
  import opened Ledger
  import Payments
  import Withdrawals

  /** Whether a call succeeded, or why it refused; a call that refuses rolls its transaction back. */
  type Answer = Option<Refusal>

  function AnswerOf(r: Outcome): Answer {
    match r
    case Good(_) => None
    case Bad(e) => Some(e)
  }

  function Kept(db: Db, r: Outcome): Db {
    match r
    case Good(db') => db'
    case Bad(_) => db
  }

  /** Inserting a win looks at wins, plays and balls only. */
  lemma InsertableSame(db: Db, db': Db, id: Id, win: Win)
    requires db'.wins == db.wins && db'.queue == db.queue && db'.balls == db.balls
    ensures Insertable(db', id, win) == Insertable(db, id, win)
  {}

  /** The constraints on `reserved_by_win_id`: unique, and a foreign key. */
  ghost predicate ReservedByOk(boosters: map<Id, Booster>, wins: map<Id, Win>) {
    && Inventory.BoostersDiffer(boosters)
    && forall o :: o in boosters && boosters[o].reservedBy.Some? ==> boosters[o].reservedBy.value in wins
  }

  /** A booster may name a new win. */
  lemma ReservedByNew(boosters: map<Id, Booster>, wins: map<Id, Win>, o: Id, id: Id, win: Win)
    requires ReservedByOk(boosters, wins) && o in boosters && id !in wins
    ensures ReservedByOk(boosters[o := boosters[o].(status := BoosterStatus.Reserved, reservedBy := Some(id))], wins[id := win])
  {}

  lemma ClaimBoosterCases(db: Db, s: Serial, ball: Ball, user: Address, entry: Id, now: nat, id: Id)
    requires ball.kind.BoosterPair?
    ensures var r := Claim(db, s, ball, user, entry, now, id);
            if ball.booster.None? || ball.booster.value !in db.boosters || !db.boosters[ball.booster.value].status.Available?
            then r == Bad(PoolExhausted)
            else
              var o := ball.booster.value;
              var sku := db.boosters[o].sku;
              var win := Win(user, entry, s, BoosterPair, WinStatus.Pending, now + RESELL_DEADLINE, None, BoosterPrice(sku));
              if !(sku in db.stock && db.stock[sku]) then r == Bad(PoolExhausted)
              else if !Insertable(db, id, win) then r == Bad(Integrity)
              else r == Good(db.(wins := db.wins[id := win],
                        boosters := db.boosters[o := db.boosters[o].(status := BoosterStatus.Reserved, reservedBy := Some(id))]))
  {}

  class Database {
    var balls: map<Serial, Ball>
    var boosters: map<Id, Booster>
    var cards: map<Id, Card>
    var stock: map<Sku, bool>
    var wins: map<Id, Win>
    var ledger: seq<Posting>
    var payments: map<Id, Payment>
    var queue: map<Id, Entry>

    ghost function View(): Db
      reads this
    {
      Db(balls, boosters, cards, stock, wins, ledger, payments, queue)
    }

    ghost predicate Valid()
      reads this
    {
      ReservedByOk(boosters, wins)
    }

    // -------------------------------------------------------------------------
    // Fitness
    // -------------------------------------------------------------------------

    /** Every ball in the machine whose prize could not be handed over, once, and why; and no other ball. */
    method UnclaimableLoadedBalls() returns (bad: seq<(Serial, Problem)>)
      ensures forall s, p :: (s, p) in bad <==> s in balls && balls[s].status.Loaded? && ProblemOf(View(), balls[s]) == Some(p)
      ensures forall i, j :: 0 <= i < j < |bad| ==> bad[i].0 != bad[j].0
    {
      bad := [];
      var todo := balls.Keys;
      while todo != {}
        invariant todo <= balls.Keys
        invariant forall s, p :: (s, p) in bad <==>
                    s in balls && s !in todo && balls[s].status.Loaded? && ProblemOf(View(), balls[s]) == Some(p)
        invariant forall i, j :: 0 <= i < j < |bad| ==> bad[i].0 != bad[j].0
        decreases |todo|
      {
        var s :| s in todo;
        var b := balls[s];
        if b.status.Loaded? {
          var problem := None;
          match b.kind {
            case BoosterPair =>
              if b.booster.None? || b.booster.value !in boosters {
                problem := Some(NoBooster);
              } else if !boosters[b.booster.value].status.Available? {
                problem := Some(BoosterIs(boosters[b.booster.value].status));
              } else {
                var sku := boosters[b.booster.value].sku;
                if !(sku in stock && stock[sku]) { problem := Some(OutOfStock); }
              }
            case SingleCard =>
              if b.card.None? || b.card.value !in cards {
                problem := Some(NoCard);
              } else if !cards[b.card.value].status.InPool? {
                problem := Some(CardIs(cards[b.card.value].status));
              }
          }
          assert problem == ProblemOf(View(), b);
          if problem.Some? {
            assert forall i :: 0 <= i < |bad| ==> (bad[i].0, bad[i].1) in bad;
            bad := bad + [(s, problem.value)];
          }
        }
        todo := todo - {s};
      }
    }

    // -------------------------------------------------------------------------
    // reserve_win
    // -------------------------------------------------------------------------

    /** Inserts a win under the constraints of its table. */
    method InsertWin(id: Id, win: Win) returns (ok: bool)
      modifies this`wins
      ensures ok <==> old(Insertable(View(), id, win))
      ensures wins == if ok then old(wins)[id := win] else old(wins)
      ensures ok ==> id !in old(wins)
    {
      ok := id !in wins && win.entry in queue && win.ball in balls
            && forall v :: v in wins ==>
                 wins[v].entry != win.entry && wins[v].ball != win.ball && (win.card.Some? ==> wins[v].card != win.card);
      if ok { wins := wins[id := win]; }
    }

    /** The second transaction for a booster, with its changes undone wherever it fails. */
    method ClaimBooster(s: Serial, ball: Ball, user: Address, entry: Id, now: nat, id: Id) returns (a: Answer)
      requires Valid() && ball.kind.BoosterPair?
      modifies this`boosters, this`wins
      ensures Valid()
      ensures View() == Kept(old(View()), Claim(old(View()), s, ball, user, entry, now, id))
      ensures a == AnswerOf(Claim(old(View()), s, ball, user, entry, now, id))
    {
      hide Insertable, ReservedByOk, Claim, BoosterPrice;
      ghost var before := View();
      ClaimBoosterCases(before, s, ball, user, entry, now, id);
      if ball.booster.None? || ball.booster.value !in boosters || !boosters[ball.booster.value].status.Available? {
        return Some(PoolExhausted);
      }
      var o, saved := ball.booster.value, boosters;
      boosters := boosters[o := boosters[o].(status := BoosterStatus.Reserved)];
      var sku := boosters[o].sku;
      if !(sku in stock && stock[sku]) {
        boosters := saved;
        return Some(PoolExhausted);
      }
      var win := Win(user, entry, s, BoosterPair, WinStatus.Pending, now + RESELL_DEADLINE, None, BoosterPrice(sku));
      InsertableSame(before, View(), id, win);
      var ok := InsertWin(id, win);
      if !ok {
        boosters := saved;
        return Some(Integrity);
      }
      boosters := boosters[o := boosters[o].(reservedBy := Some(id))];
      ReservedByNew(saved, before.wins, o, id, win);
      assert boosters == saved[o := saved[o].(status := BoosterStatus.Reserved, reservedBy := Some(id))];
      return None;
    }

    /** The second transaction for a single card. */
    method ClaimCard(s: Serial, ball: Ball, user: Address, entry: Id, now: nat, id: Id) returns (a: Answer)
      requires Valid() && ball.kind.SingleCard?
      modifies this`cards, this`wins
      ensures Valid()
      ensures View() == Kept(old(View()), Claim(old(View()), s, ball, user, entry, now, id))
      ensures a == AnswerOf(Claim(old(View()), s, ball, user, entry, now, id))
    {
      if ball.card.None? || ball.card.value !in cards || !cards[ball.card.value].status.InPool? {
        return Some(PoolExhausted);
      }
      var c, saved := ball.card.value, cards;
      var price := CardPrice(cards[c]);
      cards := cards[c := cards[c].(status := CardStatus.Reserved)];
      var ok := InsertWin(id, Win(user, entry, s, SingleCard, WinStatus.Pending, now + RESELL_DEADLINE, Some(c), price));
      if !ok {
        cards := saved;
        return Some(Integrity);
      }
      return None;
    }

    /**
     * Both transactions with nothing in between. The ball is grabbed whenever it was in the machine, whatever becomes of
     * its prize; the rest either all happens or does not happen at all.
     */
    method ReserveWin(s: Serial, user: Address, entry: Id, now: nat, id: Id) returns (a: Answer)
      requires Valid()
      modifies this
      ensures Valid()
      ensures a == AnswerOf(Reserve(old(View()), s, user, entry, now, id))
      ensures Grab(old(View()), s).Bad? ==> View() == old(View())
      ensures Grab(old(View()), s).Good? ==>
                View() == Kept(Grab(old(View()), s).value, Reserve(old(View()), s, user, entry, now, id)) && balls[s].status.Grabbed?
    {
      if s !in balls || !balls[s].status.Loaded? { return Some(BallNotAvailable); }
      balls := balls[s := balls[s].(status := Grabbed)];
      match balls[s].kind {
        case BoosterPair => a := ClaimBooster(s, balls[s], user, entry, now, id);
        case SingleCard => a := ClaimCard(s, balls[s], user, entry, now, id);
      }
    }

    // -------------------------------------------------------------------------
    // Settlements
    // -------------------------------------------------------------------------

    method LoadPendingWin(w: Id, kind: PrizeKind) returns (r: Result<Win, Refusal>)
      ensures r == LoadPending(View(), w, kind)
    {
      if w !in wins || !wins[w].status.Pending? { return Bad(WinAlreadySettled); }
      if wins[w].kind != kind { return Bad(WinKindMismatch); }
      return Good(wins[w]);
    }

    /** The booster of a win, by the unique column that names it. */
    method BoosterOf(w: Id) returns (o: Option<Id>)
      requires Valid()
      ensures o == Held(View(), w)
    {
      if p :| p in boosters && boosters[p].reservedBy == Some(w) {
        assert Holds(View(), p, w);
        return Some(p);
      } else {
        assert forall p :: !Holds(View(), p, w);
        return None;
      }
    }

    method OpenBoosterWin(w: Id) returns (a: Answer)
      requires Valid()
      modifies this
      ensures Valid()
      ensures View() == Kept(old(View()), OpenBooster(old(View()), w)) && a == AnswerOf(OpenBooster(old(View()), w))
    {
      var r := LoadPendingWin(w, BoosterPair);
      if r.Bad? { return Some(r.error); }
      var o := BoosterOf(w);
      if o.None? { return Some(Crash); }
      boosters := boosters[o.value := boosters[o.value].(status := Consumed)];
      cards := CardsMoved(cards, o.value, r.value.user);
      wins := wins[w := wins[w].(status := SettledOpen)];
      return None;
    }

    method ShipBoosterWin(w: Id) returns (a: Answer)
      requires Valid()
      modifies this
      ensures Valid()
      ensures View() == Kept(old(View()), ShipBooster(old(View()), w)) && a == AnswerOf(ShipBooster(old(View()), w))
    {
      var r := LoadPendingWin(w, BoosterPair);
      if r.Bad? { return Some(r.error); }
      var o := BoosterOf(w);
      if o.None? { return Some(Crash); }
      boosters := boosters[o.value := boosters[o.value].(status := Available, reservedBy := None)];
      wins := wins[w := wins[w].(status := SettledShip)];
      return None;
    }

    method SettleBoosterAsResell(w: Id, auto: bool, id: Id) returns (a: Answer)
      requires Valid()
      modifies this
      ensures Valid()
      ensures View() == Kept(old(View()), SellBooster(old(View()), w, auto, id)) && a == AnswerOf(SellBooster(old(View()), w, auto, id))
    {
      var r := LoadPendingWin(w, BoosterPair);
      if r.Bad? { return Some(r.error); }
      var o := BoosterOf(w);
      if o.None? { return Some(Crash); }
      if !PostingFree(ledger, id) { return Some(Integrity); }
      boosters := boosters[o.value := boosters[o.value].(status := Available, reservedBy := None)];
      ledger := ledger + [Resale(w, r.value, auto, id)];
      wins := wins[w := wins[w].(status := SoldStatus(auto))];
      return None;
    }

    method UpdateCard(card: Option<Id>, status: CardStatus, owner: Option<Address>)
      modifies this`cards
      ensures View() == CardBecomes(old(View()), card, status, owner)
    {
      if card.Some? && card.value in cards {
        var c := cards[card.value];
        cards := cards[card.value := c.(status := status, owner := if owner.Some? then owner else c.owner)];
      }
    }

    method KeepCardWin(w: Id) returns (a: Answer)
      modifies this
      ensures View() == Kept(old(View()), KeepCard(old(View()), w)) && a == AnswerOf(KeepCard(old(View()), w))
    {
      var r := LoadPendingWin(w, SingleCard);
      if r.Bad? { return Some(r.error); }
      UpdateCard(r.value.card, InCollection, Some(r.value.user));
      wins := wins[w := wins[w].(status := SettledKeep)];
      return None;
    }

    method ShipCardWin(w: Id) returns (a: Answer)
      modifies this
      ensures View() == Kept(old(View()), ShipCard(old(View()), w)) && a == AnswerOf(ShipCard(old(View()), w))
    {
      var r := LoadPendingWin(w, SingleCard);
      if r.Bad? { return Some(r.error); }
      UpdateCard(r.value.card, CardStatus.Shipped, Some(r.value.user));
      wins := wins[w := wins[w].(status := SettledShip)];
      return None;
    }

    method SettleCardAsResell(w: Id, auto: bool, id: Id) returns (a: Answer)
      modifies this
      ensures View() == Kept(old(View()), SellCard(old(View()), w, auto, id)) && a == AnswerOf(SellCard(old(View()), w, auto, id))
    {
      var r := LoadPendingWin(w, SingleCard);
      if r.Bad? { return Some(r.error); }
      if !PostingFree(ledger, id) { return Some(Integrity); }
      UpdateCard(r.value.card, InPool, None);
      ledger := ledger + [Resale(w, r.value, auto, id)];
      wins := wins[w := wins[w].(status := SoldStatus(auto))];
      return None;
    }

    // -------------------------------------------------------------------------
    // Collection
    // -------------------------------------------------------------------------

    method ShipCardFromCollection(c: Id, user: Address) returns (a: Answer)
      modifies this
      ensures View() == Kept(old(View()), ShipOwned(old(View()), c, user)) && a == AnswerOf(ShipOwned(old(View()), c, user))
    {
      if c !in cards { return Some(CardNotActionable); }
      if cards[c].owner != Some(user) { return Some(NotOwner); }
      if !cards[c].status.InCollection? { return Some(CardNotActionable); }
      UpdateCard(Some(c), CardStatus.Shipped, None);
      return None;
    }

    method ResellCardFromCollection(c: Id, user: Address, id: Id) returns (a: Answer)
      modifies this
      ensures View() == Kept(old(View()), SellOwned(old(View()), c, user, id)) && a == AnswerOf(SellOwned(old(View()), c, user, id))
    {
      if c !in cards { return Some(CardNotActionable); }
      if cards[c].owner != Some(user) { return Some(NotOwner); }
      if !cards[c].status.InCollection? { return Some(CardNotActionable); }
      if !PostingFree(ledger, id) { return Some(Integrity); }
      var price := CardPrice(cards[c]);
      UpdateCard(Some(c), Resold, None);
      ledger := ledger + [Posting(id, user, PostingKind.CardResell, price, None, false)];
      return None;
    }

    // -------------------------------------------------------------------------
    // The operator
    // -------------------------------------------------------------------------

    method VoidLoadedBall(s: Serial) returns (a: Answer)
      requires Valid()
      modifies this
      ensures Valid()
      ensures View() == Kept(old(View()), VoidBall(old(View()), s)) && a == AnswerOf(VoidBall(old(View()), s))
    {
      if s !in balls || !balls[s].status.Loaded? { return Some(BallNotAvailable); }
      var b := balls[s];
      if b.kind.BoosterPair? && b.booster.Some? {
        if b.booster.value in boosters {
          boosters := boosters[b.booster.value := boosters[b.booster.value].(status := Available)];
        }
      } else if b.kind.SingleCard? && b.card.Some? {
        UpdateCard(b.card, InPool, None);
      }
      balls := balls[s := b.(status := Voided)];
      return None;
    }

    method BindBall(s: Serial, o: Id) returns (a: Answer)
      modifies this`balls
      ensures View() == Kept(old(View()), BindBooster(old(View()), s, o)) && a == AnswerOf(BindBooster(old(View()), s, o))
    {
      if o !in boosters { return Some(NotFound); }
      if !boosters[o].status.Available? || !boosters[o].complete { return Some(Conflict); }
      if exists t :: t in balls && t != s && balls[t].booster == Some(o) { return Some(Conflict); }
      if s in balls && balls[s].status.Loaded? && (balls[s].booster.Some? || balls[s].card.Some?) { return Some(Conflict); }
      balls := balls[s := Ball(BoosterPair, Some(o), None, Loaded)];
      return None;
    }

    method BindBallCard(s: Serial, c: Id) returns (a: Answer)
      modifies this`balls
      ensures View() == Kept(old(View()), BindCard(old(View()), s, c)) && a == AnswerOf(BindCard(old(View()), s, c))
    {
      if c !in cards { return Some(NotFound); }
      if !cards[c].status.InPool? || !cards[c].complete { return Some(Conflict); }
      if exists t :: t in balls && t != s && balls[t].card == Some(c) { return Some(Conflict); }
      if s in balls && balls[s].status.Loaded? && (balls[s].booster.Some? || balls[s].card.Some?) { return Some(Conflict); }
      balls := balls[s := Ball(SingleCard, None, Some(c), Loaded)];
      return None;
    }

    method CreateUnboundBall(s: Serial) returns (a: Answer)
      modifies this`balls
      ensures View() == Kept(old(View()), CreateBall(old(View()), s)) && a == AnswerOf(CreateBall(old(View()), s))
    {
      if s in balls { return Some(Conflict); }
      balls := balls[s := Ball(BoosterPair, None, None, Loaded)];
      return None;
    }

    /** Stock may run out under loaded balls: the flag changes all the same, and the caller reports which they are. */
    method PatchStock(sku: Sku, flag: bool) returns (a: Answer)
      modifies this`stock
      ensures View() == Kept(old(View()), SetStock(old(View()), sku, flag)) && a == AnswerOf(SetStock(old(View()), sku, flag))
    {
      if sku !in stock { return Some(NotFound); }
      stock := stock[sku := flag];
      return None;
    }

    // -------------------------------------------------------------------------
    // Payments
    // -------------------------------------------------------------------------

    method RefUsed(p: Id, ref: Option<string>) returns (used: bool)
      ensures used <==> !Payments.RefFree(payments, p, ref)
    {
      used := ref.Some? && exists q :: q in payments && q != p && payments[q].ref == ref;
    }

    method InitiatePayment(p: Id, addr: Address, rail: Rail, cents: nat) returns (a: Answer)
      modifies this`payments
      ensures View() == Kept(old(View()), Payments.Initiate(old(View()), p, addr, rail, cents))
      ensures a == AnswerOf(Payments.Initiate(old(View()), p, addr, rail, cents))
    {
      if p in payments { return Some(Integrity); }
      payments := payments[p := Payment(addr, rail, cents, PaymentStatus.Pending, None, None, None)];
      return None;
    }

    /** The play goes in first; if the reference turns out to be used, both are rolled back. */
    method ConfirmPayment(p: Id, ref: Option<string>, e: Id, key: Key, now: nat) returns (a: Answer)
      requires p in payments
      modifies this`payments, this`queue
      ensures View() == Kept(old(View()), Payments.Confirm(old(View()), p, ref, e, key, now))
      ensures a == AnswerOf(Payments.Confirm(old(View()), p, ref, e, key, now))
    {
      if e in queue { return Some(Integrity); }
      var saved := queue;
      queue := queue[e := Entry(payments[p].address, key, Queued, false)];
      var used := RefUsed(p, ref);
      if used {
        queue := saved;
        return Some(Integrity);
      }
      payments := payments[p := payments[p].(status := Confirmed, ref := ref, entry := Some(e), confirmedAt := Some(now))];
      return None;
    }

    method ConfirmCardPayment(p: Id, intent: string, e: Id, key: Key, now: nat) returns (a: Answer)
      modifies this`payments, this`queue
      ensures View() == Kept(old(View()), Payments.ConfirmCard(old(View()), p, intent, e, key, now))
      ensures a == AnswerOf(Payments.ConfirmCard(old(View()), p, intent, e, key, now))
    {
      if p !in payments { return Some(NotFound); }
      if !payments[p].status.Pending? { return Some(Conflict); }
      a := ConfirmPayment(p, Some(intent), e, key, now);
    }

    method FailCardPayment(p: Id, intent: Option<string>) returns (a: Answer)
      modifies this`payments
      ensures View() == Kept(old(View()), Payments.FailCard(old(View()), p, intent))
      ensures a == AnswerOf(Payments.FailCard(old(View()), p, intent))
    {
      if p !in payments { return Some(NotFound); }
      if !payments[p].status.Pending? { return Some(Conflict); }
      var used := RefUsed(p, intent);
      if used { return Some(Integrity); }
      payments := payments[p := payments[p].(status := Failed, ref := if intent.Some? then intent else payments[p].ref)];
      return None;
    }

    /** Verified transfers only, but in bypass mode; the payment and its play come in one transaction. */
    method PayByTransfer(p: Id, addr: Address, bypass: bool, hash: Option<string>, verified: bool, e: Id, key: Key, now: nat)
      returns (a: Answer)
      modifies this`payments, this`queue
      ensures View() == Kept(old(View()), Payments.PayCrypto(old(View()), p, addr, bypass, hash, verified, e, key, now))
      ensures a == AnswerOf(Payments.PayCrypto(old(View()), p, addr, bypass, hash, verified, e, key, now))
    {
      hide Payments.RefFree;
      if exists d :: d in queue && queue[d].address == addr && (queue[d].status.Queued? || queue[d].status.Active?) {
        return Some(Conflict);
      }
      var ref := None;
      if !bypass {
        if hash.None? || hash.value == "" { return Some(NotFound); }
        if exists q :: q in payments && payments[q].ref == hash { return Some(Conflict); }
        if !verified { return Some(NotFound); }
        ref := hash;
      }
      var saved := payments;
      a := InitiatePayment(p, addr, Crypto, Payments.TICKET_PRICE);
      if a.Some? { return; }
      a := ConfirmPayment(p, ref, e, key, now);
      if a.Some? { payments := saved; }
    }

    // -------------------------------------------------------------------------
    // Withdrawals
    // -------------------------------------------------------------------------

    /**
     * A withdrawal that nothing interrupts: all that is not held leaves, or nothing does; a debit whose transfer fails
     * is deleted again.
     */
    method Withdraw(u: Address, id: Id, now: nat, sendOk: bool) returns (withdrawn: nat)
      modifies this`ledger
      ensures var total := Balance(old(ledger), u); var held := HeldCents(wins, payments, old(ledger), u, now);
              var pays := total > 0 && total > held && PostingFree(old(ledger), id) && sendOk;
              && withdrawn == (if pays then total - held else 0)
              && ledger == old(ledger) + if pays then [Withdrawals.Debit(id, u, total - held).(tx := true)] else []
    {
      var before := ledger;
      assert before + [] == before;
      var total := Balance(ledger, u);
      var balance := total - HeldCents(wins, payments, ledger, u, now);
      if total <= 0 || balance <= 0 || !PostingFree(ledger, id) { return 0; }
      ledger := ledger + [Withdrawals.Debit(id, u, balance)];
      var row := |ledger| - 1;
      if !sendOk {
        ledger := Without(ledger, row);
        assert ledger == before;
        return 0;
      }
      ledger := ledger[row := ledger[row].(tx := true)];
      return balance;
    }
  }
}

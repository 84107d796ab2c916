/** The inventory invariant: who holds what, in every state the transactions can reach. */
module Inventory {
  import opened Results
  import opened Tables
  import opened Prizes

  /** Balls whose first transaction has committed and whose second is still to come, by task, as they were bound when they fell. */
  type InFlight = map<nat, Ball>
  type Balls = map<Serial, Ball>
  type Boosters = map<Id, Booster>
  type Cards = map<Id, Card>
  type Wins = map<Id, Win>

  predicate PendingBooster(win: Win) {
    win.status.Pending? && win.kind.BoosterPair?
  }

  predicate PendingCard(win: Win) {
    win.status.Pending? && win.kind.SingleCard?
  }

  /** The prize of a ball exists, its kind fits, and while the ball is in the machine the prize is free. */
  predicate BallOk(b: Ball, boosters: Boosters, cards: Cards) {
    match b.kind
    case BoosterPair =>
      b.card.None? && (b.booster.Some? ==> b.booster.value in boosters
                                           && (b.status.Loaded? ==> boosters[b.booster.value].status.Available?))
    case SingleCard =>
      b.booster.None? && b.card.Some? && b.card.value in cards
      && (b.status.Loaded? ==> cards[b.card.value].status.InPool?)
      && cards[b.card.value].booster.None?
  }

  ghost predicate BallsOk<K>(balls: map<K, Ball>, boosters: Boosters, cards: Cards) {
    forall s :: s in balls ==> BallOk(balls[s], boosters, cards)
  }

  predicate SamePrize(a: Ball, b: Ball) {
    (a.booster.Some? && a.booster == b.booster) || (a.card.Some? && a.card == b.card)
  }

  /** The unique columns of the ball table. */
  ghost predicate BallsDiffer<K>(balls: map<K, Ball>) {
    forall s, t :: s in balls && t in balls && s != t ==> !SamePrize(balls[s], balls[t])
  }

  /** A reserved booster names the pending win that holds it; a free one names none. */
  predicate BoosterOk(b: Booster, wins: Wins) {
    && (b.reservedBy.Some? ==> b.reservedBy.value in wins)
    && (b.status.Reserved? ==> b.reservedBy.Some? && PendingBooster(wins[b.reservedBy.value]))
    && (b.status.Available? ==> b.reservedBy.None?)
  }

  ghost predicate BoostersOk(boosters: Boosters, wins: Wins) {
    forall o :: o in boosters ==> BoosterOk(boosters[o], wins)
  }

  /** The unique column of the booster table. */
  ghost predicate BoostersDiffer(boosters: Boosters) {
    forall o, p :: o in boosters && p in boosters && o != p && boosters[o].reservedBy.Some? ==>
      boosters[o].reservedBy != boosters[p].reservedBy
  }

  predicate CardHeldBy(wins: Wins, c: Id, w: Id) {
    w in wins && PendingCard(wins[w]) && wins[w].card == Some(c)
  }

  ghost predicate CardsOk(cards: Cards, wins: Wins) {
    forall c :: c in cards && cards[c].status.Reserved? ==> exists w :: CardHeldBy(wins, c, w)
  }

  predicate Reserves(boosters: Boosters, o: Id, w: Id) {
    o in boosters && boosters[o].status.Reserved? && boosters[o].reservedBy == Some(w)
  }

  /** While a booster win is pending its booster is reserved. */
  ghost predicate BoostersHeld(wins: Wins, boosters: Boosters) {
    forall w :: w in wins && PendingBooster(wins[w]) ==> exists o :: Reserves(boosters, o, w)
  }

  /** The card of a win exists and is a single; while the win is pending the card is reserved. */
  predicate WinCardOk(win: Win, cards: Cards) {
    && (win.card.Some? <==> win.kind.SingleCard?)
    && (win.card.Some? ==> win.card.value in cards && cards[win.card.value].booster.None?
                           && (win.status.Pending? ==> cards[win.card.value].status.Reserved?))
  }

  ghost predicate CardsHeld(wins: Wins, cards: Cards) {
    forall w :: w in wins ==> WinCardOk(wins[w], cards)
  }

  /** A win refers to a ball and to an entry of the queue. */
  ghost predicate WinsRefer(wins: Wins, balls: Balls, queue: map<Id, Entry>) {
    forall w :: w in wins ==> wins[w].ball in balls && wins[w].entry in queue
  }

  /** The unique columns of the win table. */
  ghost predicate WinsDiffer(wins: Wins) {
    forall v, w :: v in wins && w in wins && v != w ==>
      && wins[v].entry != wins[w].entry
      && wins[v].ball != wins[w].ball
      && (wins[v].card.Some? ==> wins[v].card != wins[w].card)
  }

  /** No ball in the machine is bound to this ball's prize. */
  ghost predicate Apart(balls: Balls, b: Ball) {
    forall s :: s in balls && balls[s].status.Loaded? ==> !SamePrize(balls[s], b)
  }

  /** The prize of a ball on its way to a win is still free, and neither another such ball nor one in the machine is bound to it. */
  ghost predicate FlightsOk(balls: Balls, boosters: Boosters, cards: Cards, f: InFlight) {
    && BallsOk(f, boosters, cards)
    && BallsDiffer(f)
    && forall t :: t in f ==> f[t].status.Loaded? && Apart(balls, f[t])
  }

  ghost predicate Inv(db: Db, f: InFlight) {
    && BallsOk(db.balls, db.boosters, db.cards)
    && BallsDiffer(db.balls)
    && BoostersOk(db.boosters, db.wins)
    && BoostersDiffer(db.boosters)
    && BoostersHeld(db.wins, db.boosters)
    && CardsOk(db.cards, db.wins)
    && CardsHeld(db.wins, db.cards)
    && WinsRefer(db.wins, db.balls, db.queue)
    && WinsDiffer(db.wins)
    && FlightsOk(db.balls, db.boosters, db.cards, f)
  }

  // ---------------------------------------------------------------------------
  // One row changes
  // ---------------------------------------------------------------------------

  /** A ball leaves the machine, or takes a prize that neither another ball nor one in flight has. */
  lemma BallSet(db: Db, f: InFlight, s: Serial, b: Ball)
    requires Inv(db, f) && BallOk(b, db.boosters, db.cards)
    requires forall r :: r in db.balls && r != s ==> !SamePrize(b, db.balls[r])
    requires b.status.Loaded? ==> forall t :: t in f ==> !SamePrize(b, f[t])
    ensures Inv(db.(balls := db.balls[s := b]), f)
  {
    hide BoostersOk, BoostersDiffer, BoostersHeld, CardsOk, CardsHeld, WinsDiffer, BallOk;
  }

  /** No ball in the machine is bound to this booster, or none may be. */
  lemma BoosterSetBalls<K>(balls: map<K, Ball>, boosters: Boosters, cards: Cards, o: Id, b: Booster)
    requires BallsOk(balls, boosters, cards) && o in boosters
    requires b.status.Available? || !boosters[o].status.Available?
             || forall s :: s in balls && balls[s].status.Loaded? ==> balls[s].booster != Some(o)
    ensures BallsOk(balls, boosters[o := b], cards)
  {}

  lemma CardSetBalls<K>(balls: map<K, Ball>, boosters: Boosters, cards: Cards, c: Id, x: Card)
    requires BallsOk(balls, boosters, cards) && c in cards && x.booster == cards[c].booster
    requires x.status.InPool? || !cards[c].status.InPool?
             || forall s :: s in balls && balls[s].status.Loaded? ==> balls[s].card != Some(c)
    ensures BallsOk(balls, boosters, cards[c := x])
  {}

  /** A booster that is set free, or was not free, concerns no ball in the machine or in flight. */
  lemma BoosterSet(db: Db, f: InFlight, o: Id, b: Booster)
    requires BallsOk(db.balls, db.boosters, db.cards) && FlightsOk(db.balls, db.boosters, db.cards, f)
    requires o in db.boosters && (b.status.Available? || !db.boosters[o].status.Available?)
    ensures BallsOk(db.balls, db.boosters[o := b], db.cards) && FlightsOk(db.balls, db.boosters[o := b], db.cards, f)
  {
    hide BallsOk, BallsDiffer, Apart;
    BoosterSetBalls(db.balls, db.boosters, db.cards, o, b);
    BoosterSetBalls(f, db.boosters, db.cards, o, b);
  }

  /** Nor does such a card. */
  lemma CardSet(db: Db, f: InFlight, c: Id, x: Card)
    requires BallsOk(db.balls, db.boosters, db.cards) && FlightsOk(db.balls, db.boosters, db.cards, f)
    requires c in db.cards && x.booster == db.cards[c].booster && (x.status.InPool? || !db.cards[c].status.InPool?)
    ensures BallsOk(db.balls, db.boosters, db.cards[c := x]) && FlightsOk(db.balls, db.boosters, db.cards[c := x], f)
  {
    hide BallsOk, BallsDiffer, Apart;
    CardSetBalls(db.balls, db.boosters, db.cards, c, x);
    CardSetBalls(f, db.boosters, db.cards, c, x);
  }

  /** A claimed booster concerns its own flight only. */
  lemma BoosterTaken(db: Db, f: InFlight, t: nat, o: Id, b: Booster)
    requires BallsOk(db.balls, db.boosters, db.cards) && FlightsOk(db.balls, db.boosters, db.cards, f)
    requires t in f && f[t].booster == Some(o) && o in db.boosters
    ensures BallsOk(db.balls, db.boosters[o := b], db.cards) && FlightsOk(db.balls, db.boosters[o := b], db.cards, f - {t})
  {
    hide BallsOk;
    assert forall r :: r in f && r != t ==> !SamePrize(f[r], f[t]);
    FlightDropped(db, f, t);
    BoosterSetBalls(db.balls, db.boosters, db.cards, o, b);
    BoosterSetBalls(f - {t}, db.boosters, db.cards, o, b);
  }

  lemma CardTaken(db: Db, f: InFlight, t: nat, c: Id, x: Card)
    requires BallsOk(db.balls, db.boosters, db.cards) && FlightsOk(db.balls, db.boosters, db.cards, f)
    requires t in f && f[t].card == Some(c) && c in db.cards && x.booster == db.cards[c].booster
    ensures BallsOk(db.balls, db.boosters, db.cards[c := x]) && FlightsOk(db.balls, db.boosters, db.cards[c := x], f - {t})
  {
    hide BallsOk;
    assert forall r :: r in f && r != t ==> !SamePrize(f[r], f[t]);
    FlightDropped(db, f, t);
    CardSetBalls(db.balls, db.boosters, db.cards, c, x);
    CardSetBalls(f - {t}, db.boosters, db.cards, c, x);
  }

  lemma FlightDropped(db: Db, f: InFlight, t: nat)
    requires FlightsOk(db.balls, db.boosters, db.cards, f)
    ensures FlightsOk(db.balls, db.boosters, db.cards, f - {t})
  {
    hide BallOk, SamePrize, Apart;
  }

  lemma WinAdded(db: Db, id: Id, win: Win)
    requires WinsRefer(db.wins, db.balls, db.queue) && WinsDiffer(db.wins) && Insertable(db, id, win)
    ensures WinsRefer(db.wins[id := win], db.balls, db.queue) && WinsDiffer(db.wins[id := win])
  {}

  lemma CardsKept(cards: Cards, wins: Wins, id: Id, win: Win)
    requires CardsOk(cards, wins) && id !in wins
    ensures CardsOk(cards, wins[id := win])
  {
    var wins' := wins[id := win];
    forall c | c in cards && cards[c].status.Reserved?
      ensures exists w :: CardHeldBy(wins', c, w)
    {
      var w :| CardHeldBy(wins, c, w);
      assert CardHeldBy(wins', c, w);
    }
  }

  lemma BoosterClaimed(boosters: Boosters, wins: Wins, o: Id, id: Id, win: Win)
    requires BoostersOk(boosters, wins) && BoostersDiffer(boosters) && BoostersHeld(wins, boosters)
    requires o in boosters && boosters[o].status.Available? && id !in wins && PendingBooster(win)
    ensures var b := boosters[o].(status := BoosterStatus.Reserved, reservedBy := Some(id));
            && BoostersOk(boosters[o := b], wins[id := win]) && BoostersDiffer(boosters[o := b])
            && BoostersHeld(wins[id := win], boosters[o := b])
  {
    var b := boosters[o].(status := BoosterStatus.Reserved, reservedBy := Some(id));
    var wins', boosters' := wins[id := win], boosters[o := b];
    forall w | w in wins' && PendingBooster(wins'[w])
      ensures exists p :: Reserves(boosters', p, w)
    {
      if w == id {
        assert Reserves(boosters', o, id);
      } else {
        var p :| Reserves(boosters, p, w);
        assert Reserves(boosters', p, w);
      }
    }
  }

  lemma ClaimBoosterKeeps(db: Db, f: InFlight, t: nat, s: Serial, user: Address, entry: Id, now: nat, id: Id)
    requires Inv(db, f) && t in f && f[t].kind.BoosterPair? && Claim(db, s, f[t], user, entry, now, id).Good?
    ensures Inv(Claim(db, s, f[t], user, entry, now, id).value, f - {t})
  {
    hide BoostersOk, BoostersDiffer, BoostersHeld, CardsOk, WinsRefer, WinsDiffer, BallsOk, FlightsOk, BallsDiffer, Insertable;
    var db' := Claim(db, s, f[t], user, entry, now, id).value;
    var o := f[t].booster.value;
    WinAdded(db, id, db'.wins[id]);
    assert id !in db.wins by { InsertedFresh(db, id, db'.wins[id]); }
    CardsKept(db.cards, db.wins, id, db'.wins[id]);
    BoosterClaimed(db.boosters, db.wins, o, id, db'.wins[id]);
    BoosterTaken(db, f, t, o, db'.boosters[o]);
  }

  lemma InsertedFresh(db: Db, id: Id, win: Win)
    requires Insertable(db, id, win)
    ensures id !in db.wins
  {}

  lemma CardClaimed(cards: Cards, wins: Wins, c: Id, id: Id, win: Win)
    requires CardsOk(cards, wins) && CardsHeld(wins, cards)
    requires c in cards && cards[c].status.InPool? && cards[c].booster.None?
    requires id !in wins && PendingCard(win) && win.card == Some(c)
    ensures var x := cards[c].(status := CardStatus.Reserved);
            CardsOk(cards[c := x], wins[id := win]) && CardsHeld(wins[id := win], cards[c := x])
  {
    var x := cards[c].(status := CardStatus.Reserved);
    var wins', cards' := wins[id := win], cards[c := x];
    assert CardHeldBy(wins', c, id);
    forall d | d in cards' && cards'[d].status.Reserved?
      ensures exists w :: CardHeldBy(wins', d, w)
    {
      if d != c {
        var w :| CardHeldBy(wins, d, w);
        assert CardHeldBy(wins', d, w);
      }
    }
  }

  lemma BoostersKept(boosters: Boosters, wins: Wins, id: Id, win: Win)
    requires BoostersOk(boosters, wins) && BoostersHeld(wins, boosters)
    requires !PendingBooster(win) && (id in wins ==> !PendingBooster(wins[id]))
    ensures BoostersOk(boosters, wins[id := win]) && BoostersHeld(wins[id := win], boosters)
  {}

  lemma ClaimCardKeeps(db: Db, f: InFlight, t: nat, s: Serial, user: Address, entry: Id, now: nat, id: Id)
    requires Inv(db, f) && t in f && f[t].kind.SingleCard? && Claim(db, s, f[t], user, entry, now, id).Good?
    ensures Inv(Claim(db, s, f[t], user, entry, now, id).value, f - {t})
  {
    hide BoostersOk, BoostersDiffer, BoostersHeld, CardsOk, CardsHeld, WinsRefer, WinsDiffer, BallsOk, FlightsOk, BallsDiffer,
         Insertable;
    var db' := Claim(db, s, f[t], user, entry, now, id).value;
    var c := f[t].card.value;
    FlightKnown(db, f, t);
    WinAdded(db, id, db'.wins[id]);
    assert id !in db.wins by { InsertedFresh(db, id, db'.wins[id]); }
    BoostersKept(db.boosters, db.wins, id, db'.wins[id]);
    CardClaimed(db.cards, db.wins, c, id, db'.wins[id]);
    CardTaken(db, f, t, c, db'.cards[c]);
  }

  lemma FlightKnown(db: Db, f: InFlight, t: nat)
    requires FlightsOk(db.balls, db.boosters, db.cards, f) && t in f
    ensures f[t].status.Loaded? && BallOk(f[t], db.boosters, db.cards) && Apart(db.balls, f[t])
  {}

  /** A pending booster win has its booster, and only one. */
  lemma HeldIsReserved(db: Db, w: Id)
    requires BoostersHeld(db.wins, db.boosters) && BoostersDiffer(db.boosters) && w in db.wins && PendingBooster(db.wins[w])
    ensures Held(db, w).Some? && Reserves(db.boosters, Held(db, w).value, w)
    ensures forall o :: Holds(db, o, w) ==> o == Held(db, w).value
  {
    var o :| Reserves(db.boosters, o, w);
    assert Holds(db, o, w);
  }

  lemma BoosterSettled(boosters: Boosters, wins: Wins, o: Id, b: Booster, w: Id, win: Win)
    requires BoostersOk(boosters, wins) && BoostersDiffer(boosters) && BoostersHeld(wins, boosters)
    requires w in wins && Reserves(boosters, o, w) && !PendingBooster(win)
    requires (b.status.Available? && b.reservedBy.None?) || (b.status.Consumed? && b.reservedBy == Some(w))
    ensures BoostersOk(boosters[o := b], wins[w := win]) && BoostersDiffer(boosters[o := b])
    ensures BoostersHeld(wins[w := win], boosters[o := b])
  {
    var wins', boosters' := wins[w := win], boosters[o := b];
    forall v | v in wins' && PendingBooster(wins'[v])
      ensures exists p :: Reserves(boosters', p, v)
    {
      var p :| Reserves(boosters, p, v);
      assert Reserves(boosters', p, v);
    }
  }

  lemma WinSettled(db: Db, w: Id, status: WinStatus)
    requires WinsRefer(db.wins, db.balls, db.queue) && WinsDiffer(db.wins) && w in db.wins
    ensures var wins' := db.wins[w := db.wins[w].(status := status)];
            WinsRefer(wins', db.balls, db.queue) && WinsDiffer(wins')
  {}

  /** Settling a booster win does not concern the cards held by card wins. */
  lemma CardsUnconcerned(cards: Cards, wins: Wins, w: Id, status: WinStatus)
    requires CardsOk(cards, wins) && CardsHeld(wins, cards) && w in wins && PendingBooster(wins[w])
    ensures var wins' := wins[w := wins[w].(status := status)]; CardsOk(cards, wins') && CardsHeld(wins', cards)
  {
    var wins' := wins[w := wins[w].(status := status)];
    forall c | c in cards && cards[c].status.Reserved?
      ensures exists v :: CardHeldBy(wins', c, v)
    {
      var v :| CardHeldBy(wins, c, v);
      assert CardHeldBy(wins', c, v);
    }
  }

  /** The common part of opening, shipping and selling a won booster. */
  lemma BoosterSettlementKeeps(db: Db, f: InFlight, w: Id, b: Booster, status: WinStatus)
    requires Inv(db, f) && w in db.wins && PendingBooster(db.wins[w]) && !status.Pending?
    requires (b.status.Available? && b.reservedBy.None?) || (b.status.Consumed? && b.reservedBy == Some(w))
    ensures Held(db, w).Some?
    ensures Inv(Settled(db.(boosters := db.boosters[Held(db, w).value := b]), w, status), f)
  {
    hide BoostersOk, BoostersDiffer, BoostersHeld, CardsOk, CardsHeld, WinsRefer, WinsDiffer, FlightsOk;
    HeldIsReserved(db, w);
    var o := Held(db, w).value;
    BoosterSettled(db.boosters, db.wins, o, b, w, db.wins[w].(status := status));
    CardsUnconcerned(db.cards, db.wins, w, status);
    WinSettled(db, w, status);
    BoosterSet(db, f, o, b);
  }

  /** Cards inside an opened booster are no single prizes, so that they may go to its winner. */
  lemma CardsMovedKeep(db: Db, f: InFlight, o: Id, user: Address)
    requires Inv(db, f)
    ensures Inv(db.(cards := CardsMoved(db.cards, o, user)), f)
  {
    hide BoostersOk, BoostersDiffer, BoostersHeld, BallsDiffer, WinsRefer, WinsDiffer, Apart;
    var cards' := CardsMoved(db.cards, o, user);
    forall c | c in cards' && cards'[c].status.Reserved?
      ensures exists v :: CardHeldBy(db.wins, c, v)
    {
      assert db.cards[c].status.Reserved?;
    }
  }

  lemma CardSettled(cards: Cards, wins: Wins, c: Id, x: Card, w: Id, status: WinStatus)
    requires CardsOk(cards, wins) && CardsHeld(wins, cards) && WinsDiffer(wins)
    requires w in wins && PendingCard(wins[w]) && wins[w].card == Some(c) && c in cards
    requires !status.Pending? && x.booster == cards[c].booster && !x.status.Reserved?
    ensures var wins' := wins[w := wins[w].(status := status)];
            CardsOk(cards[c := x], wins') && CardsHeld(wins', cards[c := x])
  {
    var wins', cards' := wins[w := wins[w].(status := status)], cards[c := x];
    forall d | d in cards' && cards'[d].status.Reserved?
      ensures exists v :: CardHeldBy(wins', d, v)
    {
      var v :| CardHeldBy(wins, d, v);
      assert CardHeldBy(wins', d, v);
    }
  }

  /** The common part of keeping, shipping and selling a won card. */
  lemma CardSettlementKeeps(db: Db, f: InFlight, w: Id, to: CardStatus, owner: Option<Address>, status: WinStatus)
    requires Inv(db, f) && w in db.wins && PendingCard(db.wins[w]) && !status.Pending? && !to.Reserved?
    ensures Inv(Settled(CardBecomes(db, db.wins[w].card, to, owner), w, status), f)
  {
    hide BoostersOk, BoostersDiffer, BoostersHeld, CardsOk, CardsHeld, WinsRefer, WinsDiffer, FlightsOk;
    assert WinCardOk(db.wins[w], db.cards) by { CardOfWin(db, w); }
    var c := db.wins[w].card.value;
    var db' := Settled(CardBecomes(db, db.wins[w].card, to, owner), w, status);
    CardSettled(db.cards, db.wins, c, db'.cards[c], w, status);
    BoostersKept(db.boosters, db.wins, w, db'.wins[w]);
    WinSettled(db, w, status);
    CardSet(db, f, c, db'.cards[c]);
  }

  lemma CardOfWin(db: Db, w: Id)
    requires CardsHeld(db.wins, db.cards) && w in db.wins
    ensures WinCardOk(db.wins[w], db.cards)
  {}

  lemma CardOwned(cards: Cards, wins: Wins, c: Id, x: Card)
    requires CardsOk(cards, wins) && CardsHeld(wins, cards) && c in cards && cards[c].status.InCollection?
    requires x.booster == cards[c].booster && !x.status.Reserved?
    ensures CardsOk(cards[c := x], wins) && CardsHeld(wins, cards[c := x])
  {
    var cards' := cards[c := x];
    forall d | d in cards' && cards'[d].status.Reserved?
      ensures exists v :: CardHeldBy(wins, d, v)
    {
      assert cards[d].status.Reserved?;
    }
  }

  /** A card in a collection is no prize any more. */
  lemma OwnedCardKeeps(db: Db, f: InFlight, c: Id, to: CardStatus)
    requires Inv(db, f) && c in db.cards && db.cards[c].status.InCollection? && !to.Reserved?
    ensures Inv(CardBecomes(db, Some(c), to, None), f)
  {
    hide BoostersOk, BoostersDiffer, BoostersHeld, WinsRefer, WinsDiffer, FlightsOk, CardsOk, CardsHeld;
    var x := db.cards[c].(status := to);
    CardSet(db, f, c, x);
    CardOwned(db.cards, db.wins, c, x);
  }

  /** Voiding a ball changes neither boosters nor cards: its prize is free already. */
  lemma VoidChangesNoInventory(db: Db, f: InFlight, s: Serial)
    requires Inv(db, f) && VoidBall(db, s).Good?
    ensures VoidBall(db, s).value == db.(balls := db.balls[s := db.balls[s].(status := Voided)])
    ensures Inv(VoidBall(db, s).value, f)
  {
    hide BoostersOk, BoostersDiffer, BoostersHeld, CardsOk, CardsHeld, WinsRefer, WinsDiffer, BallsDiffer, FlightsOk;
    var b := db.balls[s];
    assert BallOk(b, db.boosters, db.cards);
    if b.kind.BoosterPair? && b.booster.Some? {
      var o := b.booster.value;
      assert db.boosters[o := db.boosters[o].(status := Available)] == db.boosters;
    } else if b.kind.SingleCard? {
      var c := b.card.value;
      assert db.cards[c := db.cards[c]] == db.cards;
    }
    BallRestated(db, f, s, Voided);
  }

  /** A ball leaves the machine. */
  lemma BallRestated(db: Db, f: InFlight, s: Serial, status: BallStatus)
    requires Inv(db, f) && s in db.balls && !status.Loaded?
    ensures Inv(db.(balls := db.balls[s := db.balls[s].(status := status)]), f)
  {
    hide BoostersOk, BoostersDiffer, BoostersHeld, CardsOk, CardsHeld, WinsRefer, WinsDiffer, FlightsOk;
    var b := db.balls[s].(status := status);
    assert BallOk(b, db.boosters, db.cards);
    BallSet(db, f, s, b);
  }

  /** A ball that falls is in flight for the task that handles it. */
  lemma GrabKeeps(db: Db, f: InFlight, t: nat, s: Serial)
    requires Inv(db, f) && Grab(db, s).Good?
    ensures Inv(Grab(db, s).value, f[t := db.balls[s]])
  {
    hide BoostersOk, BoostersDiffer, BoostersHeld, CardsOk, CardsHeld, WinsRefer, WinsDiffer, FlightsOk, BallsOk, BallsDiffer;
    BallRestated(db, f, s, Grabbed);
    FlightAdded(db, f, t, s);
  }

  lemma FlightAdded(db: Db, f: InFlight, t: nat, s: Serial)
    requires BallsOk(db.balls, db.boosters, db.cards) && BallsDiffer(db.balls) && FlightsOk(db.balls, db.boosters, db.cards, f)
    requires s in db.balls && db.balls[s].status.Loaded?
    ensures FlightsOk(db.balls[s := db.balls[s].(status := Grabbed)], db.boosters, db.cards, f[t := db.balls[s]])
  {
    hide BallOk;
  }

  lemma BindBoosterKeeps(db: Db, f: InFlight, s: Serial, o: Id)
    requires Inv(db, f) && BindBooster(db, s, o).Good? && forall t :: t in f ==> f[t].booster != Some(o)
    ensures Inv(BindBooster(db, s, o).value, f)
  {
    hide BoostersOk, BoostersDiffer, BoostersHeld, CardsOk, CardsHeld, WinsRefer, WinsDiffer, FlightsOk, BallsOk, BallsDiffer;
    BallSet(db, f, s, Ball(BoosterPair, Some(o), None, Loaded));
  }

  lemma BindCardKeeps(db: Db, f: InFlight, s: Serial, c: Id)
    requires Inv(db, f) && BindCard(db, s, c).Good? && db.cards[c].booster.None? && forall t :: t in f ==> f[t].card != Some(c)
    ensures Inv(BindCard(db, s, c).value, f)
  {
    hide BoostersOk, BoostersDiffer, BoostersHeld, CardsOk, CardsHeld, WinsRefer, WinsDiffer, FlightsOk, BallsOk, BallsDiffer;
    BallSet(db, f, s, Ball(SingleCard, None, Some(c), Loaded));
  }

  lemma CreateBallKeeps(db: Db, f: InFlight, s: Serial)
    requires Inv(db, f) && CreateBall(db, s).Good?
    ensures Inv(CreateBall(db, s).value, f)
  {
    hide BoostersOk, BoostersDiffer, BoostersHeld, CardsOk, CardsHeld, WinsRefer, WinsDiffer, FlightsOk, BallsOk, BallsDiffer;
    BallSet(db, f, s, Ball(BoosterPair, None, None, Loaded));
  }

  // ---------------------------------------------------------------------------
  // What the invariant says
  // ---------------------------------------------------------------------------

  predicate BoosterHeldBy(db: Db, o: Id, w: Id) {
    w in db.wins && PendingBooster(db.wins[w]) && Holds(db, o, w)
  }

  /** A booster is reserved exactly when a pending booster win holds it; then only one does, and it holds nothing else. */
  lemma BoosterReservedExactly(db: Db, f: InFlight, o: Id)
    requires Inv(db, f) && o in db.boosters
    ensures db.boosters[o].status.Reserved? <==> exists w :: BoosterHeldBy(db, o, w)
    ensures forall v, w :: BoosterHeldBy(db, o, v) && BoosterHeldBy(db, o, w) ==> v == w
    ensures forall w, p :: BoosterHeldBy(db, o, w) && BoosterHeldBy(db, p, w) ==> o == p
  {
    hide BallsOk, BallsDiffer, CardsOk, CardsHeld, WinsRefer, WinsDiffer, FlightsOk;
    if db.boosters[o].status.Reserved? {
      assert BoosterHeldBy(db, o, db.boosters[o].reservedBy.value);
    }
    if w :| BoosterHeldBy(db, o, w) {
      HeldIsReserved(db, w);
    }
  }

  /** A card is reserved exactly when a pending card win holds it; then only one does. */
  lemma CardReservedExactly(db: Db, f: InFlight, c: Id)
    requires Inv(db, f) && c in db.cards
    ensures db.cards[c].status.Reserved? <==> exists w :: CardHeldBy(db.wins, c, w)
    ensures forall v, w :: CardHeldBy(db.wins, c, v) && CardHeldBy(db.wins, c, w) ==> v == w
  {
    hide BallsOk, BallsDiffer, BoostersOk, BoostersDiffer, BoostersHeld, WinsRefer, FlightsOk;
  }

  /** Every pending win can still be honoured: its prize is there and reserved for it. */
  lemma PendingWinHasPrize(db: Db, f: InFlight, w: Id)
    requires Inv(db, f) && w in db.wins && db.wins[w].status.Pending?
    ensures match db.wins[w].kind
            case BoosterPair => Held(db, w).Some? && BoosterHeldBy(db, Held(db, w).value, w)
            case SingleCard => db.wins[w].card.Some? && CardHeldBy(db.wins, db.wins[w].card.value, w)
  {
    hide BallsOk, BallsDiffer, CardsOk, WinsRefer, WinsDiffer, FlightsOk;
    if PendingBooster(db.wins[w]) { HeldIsReserved(db, w); }
  }

  // ---------------------------------------------------------------------------
  // What the code leaves open
  // ---------------------------------------------------------------------------

  /** The prize of every ball in the machine is free. */
  ghost predicate PrizesFree(db: Db) {
    forall s :: s in db.balls && db.balls[s].status.Loaded? ==>
      && (db.balls[s].booster.Some? ==> db.balls[s].booster.value in db.boosters
                                        && db.boosters[db.balls[s].booster.value].status.Available?)
      && (db.balls[s].card.Some? ==> db.balls[s].card.value in db.cards && db.cards[db.balls[s].card.value].status.InPool?)
  }

  /** The card of every pending card win is reserved. */
  ghost predicate PromisesKept(db: Db) {
    forall w :: w in db.wins && PendingCard(db.wins[w]) ==>
      db.wins[w].card.Some? && db.wins[w].card.value in db.cards && db.cards[db.wins[w].card.value].status.Reserved?
  }

  /** Is this card the prize of a ball in the machine or of a pending win? */
  ghost predicate Spoken(db: Db, c: Id) {
    || (exists s :: s in db.balls && db.balls[s].status.Loaded? && db.balls[s].card == Some(c))
    || (exists w :: CardHeldBy(db.wins, c, w))
  }

  /**
   * Opening a won booster takes all cards filmed in it, whatever else they were bound to: it leaves every other prize
   * alone exactly when none of them is also a single prize.
   */
  lemma OpenKeepsExactly(db: Db, w: Id)
    requires PrizesFree(db) && PromisesKept(db) && OpenBooster(db, w).Good? && Reserves(db.boosters, Held(db, w).value, w)
    ensures var db' := OpenBooster(db, w).value;
            PrizesFree(db') && PromisesKept(db')
            <==> forall c :: c in db.cards && db.cards[c].booster == Held(db, w) ==> !Spoken(db, c)
  {
    var db' := OpenBooster(db, w).value;
    var o := Held(db, w).value;
    forall c | c in db.cards && db.cards[c].booster == Some(o) && Spoken(db, c)
      ensures !(PrizesFree(db') && PromisesKept(db'))
    {
      assert db'.cards[c].status.InCollection?;
      if v :| CardHeldBy(db.wins, c, v) {
        assert CardHeldBy(db'.wins, c, v);
      }
    }
    if forall c :: c in db.cards && db.cards[c].booster == Some(o) ==> !Spoken(db, c) {
      forall v | v in db'.wins && PendingCard(db'.wins[v])
        ensures db'.cards[db'.wins[v].card.value] == db.cards[db.wins[v].card.value]
      {
        assert CardHeldBy(db.wins, db.wins[v].card.value, v);
        assert Spoken(db, db.wins[v].card.value);
      }
      forall s | s in db'.balls && db'.balls[s].status.Loaded? && db'.balls[s].card.Some?
        ensures db'.cards[db'.balls[s].card.value] == db.cards[db.balls[s].card.value]
      {
        assert Spoken(db, db.balls[s].card.value);
      }
    }
  }

  /**
   * A claim takes the prize its ball had when it was grabbed: it leaves the prize of every ball in the machine free exactly
   * when none of these, the ball itself included, has been bound to that prize since.
   */
  lemma ClaimKeepsFreeExactly(db: Db, s: Serial, ball: Ball, user: Address, entry: Id, now: nat, id: Id)
    requires PrizesFree(db) && Claim(db, s, ball, user, entry, now, id).Good?
    ensures PrizesFree(Claim(db, s, ball, user, entry, now, id).value)
            <==> forall t :: t in db.balls && db.balls[t].status.Loaded? ==>
                   match ball.kind
                   case BoosterPair => db.balls[t].booster != ball.booster
                   case SingleCard => db.balls[t].card != ball.card
  {
    hide Insertable, InStock, BoosterPrice, CardPrice;
    var db' := Claim(db, s, ball, user, entry, now, id).value;
    assert db'.balls == db.balls;
    match ball.kind
    case BoosterPair => assert db'.boosters[ball.booster.value].status.Reserved?;
    case SingleCard => assert db'.cards[ball.card.value].status.Reserved?;
  }

  // ---------------------------------------------------------------------------
  // Fitness
  // ---------------------------------------------------------------------------

  /** Has this ball, or this entry of the queue, or the card it is for, a win already? */
  ghost predicate Spent(db: Db, s: Serial, ball: Ball, entry: Id) {
    exists w :: w in db.wins && (db.wins[w].ball == s || db.wins[w].entry == entry
                                 || (ball.kind.SingleCard? && ball.card.Some? && db.wins[w].card == ball.card))
  }

  /**
   * The fitness check is exact for a ball, an entry and a card without an earlier win, in whatever state the tables are:
   * such a ball has no problem exactly when reserving it succeeds, and if it has one then the pool is exhausted. For every
   * other ball the reservation fails although the check may find nothing wrong: a ball won before, bound again and loaded,
   * can never be won again.
   */
  lemma FitnessIsExact(db: Db, s: Serial, user: Address, entry: Id, now: nat, id: Id)
    requires s in db.balls && db.balls[s].status.Loaded?
    requires entry in db.queue && id !in db.wins
    ensures ProblemOf(db, db.balls[s]).Some? ==> Reserve(db, s, user, entry, now, id) == Bad(PoolExhausted)
    ensures ProblemOf(db, db.balls[s]).None? ==>
              if Spent(db, s, db.balls[s], entry) then Reserve(db, s, user, entry, now, id) == Bad(Integrity)
              else Reserve(db, s, user, entry, now, id).Good?
  {
    var grabbed := Grab(db, s).value;
    assert ProblemOf(grabbed, grabbed.balls[s]) == ProblemOf(db, db.balls[s]);
  }

  /**
   * Between the grab and the claim the prize of a ball cannot be lost: its claim exhausts the pool exactly when the ball
   * had no booster when it fell, or the SKU of its booster is out of stock by now.
   */
  lemma ExhaustedExactly(db: Db, f: InFlight, t: nat, s: Serial, user: Address, entry: Id, now: nat, id: Id)
    requires Inv(db, f) && t in f
    ensures Claim(db, s, f[t], user, entry, now, id) == Bad(PoolExhausted)
            <==> f[t].kind.BoosterPair?
                 && (f[t].booster.None? || (f[t].booster.value in db.boosters && !InStock(db, db.boosters[f[t].booster.value].sku)))
  {
    hide BoostersOk, BoostersDiffer, BoostersHeld, CardsOk, CardsHeld, WinsRefer, WinsDiffer, FlightsOk, BallsOk, BallsDiffer,
         Insertable, InStock;
    FlightKnown(db, f, t);
  }
}

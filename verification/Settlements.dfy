/** Where prizes and their price go: what a settlement leaves the winner, and everybody else, able to do. */
module Settlements {
  import opened Results
  import opened Tables
  import opened Ledger
  import opened Transactions
  import Prizes

  // ---------------------------------------------------------------------------
  // Money
  // ---------------------------------------------------------------------------

  /** What a transaction that goes through adds to the balance of u. */
  function Gain(db: Db, tx: Tx, u: Address): nat {
    match tx
    case SellBooster(w, _, _) => if w in db.wins && db.wins[w].user == u then db.wins[w].price else 0
    case SellCard(w, _, _) => if w in db.wins && db.wins[w].user == u then db.wins[w].price else 0
    case SellOwned(c, _, _) => if c in db.cards && db.cards[c].owner == Some(u) then Prizes.CardPrice(db.cards[c]) else 0
    case _ => 0
  }

  /**
   * A sale of a win, by its winner or by the clock, adds exactly its price to the winner's balance; the sale of a card from
   * a collection adds its price to the owner's. No other balance moves, and no other transaction moves any.
   */
  lemma BalanceMovesExactly(db: Db, tx: Tx, now: nat, u: Address)
    requires Apply(db, tx, now).Good?
    ensures Balance(Apply(db, tx, now).value.ledger, u) == Balance(db.ledger, u) + Gain(db, tx, u)
  {
    hide Credits, Debits, Prizes.PostingFree, Prizes.CardBecomes, Prizes.CardsMoved, Prizes.Held, Prizes.CardPrice, Apply;
    assert db.ledger + [] == db.ledger;
    if IsPayment(tx) {
      PaymentTouches(db, tx, now);
    } else if Settles(tx) {
      SettlementTouches(db, tx, now);
      if tx.SellBooster? || tx.SellCard? { Appended(db.ledger, Posted(db, tx)[0], u, 0); }
    } else {
      OtherTouches(db, tx, now);
      if tx.SellOwned? {
        SellerOwns(db, tx, now);
        Appended(db.ledger, Posted(db, tx)[0], u, 0);
      }
    }
  }

  lemma SellerOwns(db: Db, tx: Tx, now: nat)
    requires tx.SellOwned? && Apply(db, tx, now).Good?
    ensures tx.c in db.cards && db.cards[tx.c].owner == Some(tx.user)
  {}

  // ---------------------------------------------------------------------------
  // Prizes
  // ---------------------------------------------------------------------------

  /** This card lies in a collection, and nobody but its owner can ship or sell it from there. */
  ghost predicate OnlyFor(db: Db, c: Id, owner: Address) {
    && c in db.cards && db.cards[c].status.InCollection?
    && (forall u :: Prizes.ShipOwned(db, c, u).Good? <==> u == owner)
    && (forall u, id :: Prizes.SellOwned(db, c, u, id).Good? <==> u == owner && Prizes.PostingFree(db.ledger, id))
  }

  /** Nobody can do anything with this card any more: not ship it, not sell it, not bind it to a ball. */
  ghost predicate CardIsGone(db: Db, c: Id) {
    && c in db.cards && (db.cards[c].status.Shipped? || db.cards[c].status.Resold?)
    && (forall u :: !Prizes.ShipOwned(db, c, u).Good?)
    && (forall u, id :: !Prizes.SellOwned(db, c, u, id).Good?)
    && (forall s :: !Prizes.BindCard(db, s, c).Good?)
  }

  lemma OwnedIsOnlyFor(db: Db, c: Id, owner: Address)
    requires c in db.cards && db.cards[c].status.InCollection? && db.cards[c].owner == Some(owner)
    ensures OnlyFor(db, c, owner)
  {
    hide Prizes.CardBecomes, Prizes.PostingFree, Prizes.CardPrice;
  }

  lemma EndedIsGone(db: Db, c: Id)
    requires c in db.cards && (db.cards[c].status.Shipped? || db.cards[c].status.Resold?)
    ensures CardIsGone(db, c)
  {
    hide Prizes.CardBecomes, Prizes.PostingFree, Prizes.CardPrice, Prizes.Bindable;
  }

  /**
   * Opening a won booster: every card filmed in it is in a collection in which only the winner can act; no other card
   * changes; and the booster itself is used up, so that no ball can be bound to it.
   */
  lemma OpenedIsTheWinners(db: Db, w: Id)
    requires Prizes.OpenBooster(db, w).Good?
    ensures w in db.wins && Prizes.Held(db, w).Some? && Prizes.Held(db, w).value in db.boosters
    ensures var db', o, winner := Prizes.OpenBooster(db, w).value, Prizes.Held(db, w).value, db.wins[w].user;
            && db'.wins == db.wins[w := db.wins[w].(status := SettledOpen)]
            && (forall c :: c in db.cards && db.cards[c].booster == Some(o) ==> OnlyFor(db', c, winner))
            && (forall c :: c in db.cards && db.cards[c].booster != Some(o) ==> c in db'.cards && db'.cards[c] == db.cards[c])
            && db'.boosters == db.boosters[o := db'.boosters[o]] && db'.boosters[o].status.Consumed?
            && forall s :: !Prizes.BindBooster(db', s, o).Good?
  {
    hide OnlyFor, Prizes.Bindable;
    HeldIsThere(db, w);
    var db', o := Prizes.OpenBooster(db, w).value, Prizes.Held(db, w).value;
    forall c | c in db.cards && db.cards[c].booster == Some(o)
      ensures OnlyFor(db', c, db.wins[w].user)
    {
      OwnedIsOnlyFor(db', c, db.wins[w].user);
    }
  }

  lemma HeldIsThere(db: Db, w: Id)
    ensures Prizes.Held(db, w).Some? ==> Prizes.Holds(db, Prizes.Held(db, w).value, w)
  {}

  /** Shipping or selling a won booster frees the filmed one: it can be bound again if complete and bound to no other ball. */
  lemma SettledBoosterIsFree(db: Db, tx: Tx, now: nat)
    requires tx.ShipBooster? || tx.SellBooster?
    requires Apply(db, tx, now).Good?
    ensures tx.w in db.wins && Prizes.Held(db, tx.w).Some? && Prizes.Held(db, tx.w).value in db.boosters
    ensures var db', o := Apply(db, tx, now).value, Prizes.Held(db, tx.w).value;
            && db'.boosters == db.boosters[o := db.boosters[o].(status := Available, reservedBy := None)] && db'.cards == db.cards
            && db'.wins == db.wins[tx.w := db.wins[tx.w].(status := if tx.ShipBooster? then SettledShip
                                                                   else if tx.auto then Expired else SettledResell)]
  {
    HeldIsThere(db, tx.w);
  }

  /** Keeping a won card: only the winner can act on it from then on. No other card changes. */
  lemma KeptIsTheWinners(db: Db, w: Id, c: Id)
    requires Prizes.KeepCard(db, w).Good? && db.wins[w].card == Some(c) && c in db.cards
    ensures var db' := Prizes.KeepCard(db, w).value;
            && db'.wins == db.wins[w := db.wins[w].(status := SettledKeep)]
            && OnlyFor(db', c, db.wins[w].user) && db'.cards == db.cards[c := db'.cards[c]]
  {
    OwnedIsOnlyFor(Prizes.KeepCard(db, w).value, c, db.wins[w].user);
  }

  /** Shipping a won card: it is the winner's, and nobody can act on it any more. */
  lemma ShippedIsGone(db: Db, w: Id, c: Id)
    requires Prizes.ShipCard(db, w).Good? && db.wins[w].card == Some(c) && c in db.cards
    ensures var db' := Prizes.ShipCard(db, w).value;
            && db'.wins == db.wins[w := db.wins[w].(status := SettledShip)]
            && CardIsGone(db', c) && db'.cards[c].owner == Some(db.wins[w].user) && db'.cards == db.cards[c := db'.cards[c]]
  {
    EndedIsGone(Prizes.ShipCard(db, w).value, c);
  }

  /** Selling a won card returns it to the pool as it was. */
  lemma SoldCardIsFree(db: Db, w: Id, auto: bool, id: Id, c: Id)
    requires Prizes.SellCard(db, w, auto, id).Good? && db.wins[w].card == Some(c) && c in db.cards
    ensures var db' := Prizes.SellCard(db, w, auto, id).value;
            && db'.wins == db.wins[w := db.wins[w].(status := if auto then Expired else SettledResell)]
            && db'.cards == db.cards[c := db.cards[c].(status := InPool)]
  {}

  /** A card leaves a collection by its owner's hand only, and once. */
  lemma OwnerActsOnce(db: Db, c: Id, u: Address, id: Id)
    ensures Prizes.ShipOwned(db, c, u).Good? ==>
              && OnlyFor(db, c, u) && CardIsGone(Prizes.ShipOwned(db, c, u).value, c)
              && Prizes.ShipOwned(db, c, u).value == db.(cards := db.cards[c := db.cards[c].(status := CardStatus.Shipped)])
    ensures Prizes.SellOwned(db, c, u, id).Good? ==>
              && OnlyFor(db, c, u) && CardIsGone(Prizes.SellOwned(db, c, u, id).value, c)
              && Prizes.SellOwned(db, c, u, id).value.cards == db.cards[c := db.cards[c].(status := Resold)]
  {
    hide OnlyFor, CardIsGone, Prizes.PostingFree, Prizes.CardPrice;
    if Prizes.ShipOwned(db, c, u).Good? {
      OwnedIsOnlyFor(db, c, u);
      EndedIsGone(Prizes.ShipOwned(db, c, u).value, c);
    }
    if Prizes.SellOwned(db, c, u, id).Good? {
      OwnedIsOnlyFor(db, c, u);
      EndedIsGone(Prizes.SellOwned(db, c, u, id).value, c);
    }
  }

  // ---------------------------------------------------------------------------
  // Claims
  // ---------------------------------------------------------------------------

  /** A win is good for 30 days and worth what its prize costs when it is claimed, whatever prices do later. */
  lemma ClaimSnapshots(db: Db, s: Serial, ball: Ball, user: Address, entry: Id, now: nat, id: Id)
    requires Prizes.Claim(db, s, ball, user, entry, now, id).Good?
    ensures var db' := Prizes.Claim(db, s, ball, user, entry, now, id).value;
            && id in db'.wins && db'.wins[id].expires == now + 30 * 86_400
            && match ball.kind
               case BoosterPair =>
                 && ball.booster.Some? && ball.booster.value in db.boosters && db'.wins[id].card.None?
                 && db'.wins[id].price == Prizes.BoosterPrice(db.boosters[ball.booster.value].sku)
               case SingleCard =>
                 && ball.card.Some? && ball.card.value in db.cards && db'.wins[id].card == ball.card
                 && db'.wins[id].price == Prizes.CardPrice(db.cards[ball.card.value])
  {
    hide Prizes.Insertable, Prizes.InStock, Prizes.BoosterPrice, Prizes.CardPrice;
  }

  function Rank(r: Option<Rarity>): nat {
    match r
    case None => 0
    case Some(Common) => 1
    case Some(Uncommon) => 2
    case Some(Rare) => 3
    case Some(HoloRare) => 4
    case Some(UltraRare) => 5
    case Some(Chase) => 6
  }

  /** The rarer of two cards is worth strictly more; a card of unknown rarity is worth nothing. */
  lemma RarerIsDearer(c: Card, d: Card)
    ensures Prizes.CardPrice(c) < Prizes.CardPrice(d) <==> Rank(c.rarity) < Rank(d.rarity)
    ensures c.rarity.None? ==> Prizes.CardPrice(c) == 0
  {}

  // ---------------------------------------------------------------------------
  // The operator
  // ---------------------------------------------------------------------------

  /** The stock flag of a SKU decides, by itself, over the balls with a free booster of that SKU, and over no other ball. */
  lemma StockDecides(db: Db, sku: Sku, flag: bool, b: Ball)
    requires Prizes.SetStock(db, sku, flag).Good?
    ensures sku in db.stock
    ensures var db' := Prizes.SetStock(db, sku, flag).value;
            if b.kind.BoosterPair? && b.booster.Some? && b.booster.value in db.boosters
               && db.boosters[b.booster.value].sku == sku && db.boosters[b.booster.value].status.Available?
            then Prizes.ProblemOf(db', b) == if flag then None else Some(Prizes.OutOfStock)
            else Prizes.ProblemOf(db', b) == Prizes.ProblemOf(db, b)
  {}

  /** Voiding a ball sets its prize free, whatever the tables say. */
  lemma VoidFreesPrize(db: Db, s: Serial)
    requires Prizes.VoidBall(db, s).Good?
    ensures var db', b := Prizes.VoidBall(db, s).value, db.balls[s];
            && s in db'.balls && db'.balls[s].status.Voided?
            && (b.kind.BoosterPair? && b.booster.Some? && b.booster.value in db.boosters ==>
                  b.booster.value in db'.boosters && db'.boosters[b.booster.value].status.Available?)
            && (b.kind.SingleCard? && b.card.Some? && b.card.value in db.cards ==>
                  b.card.value in db'.cards && db'.cards[b.card.value].status.InPool?)
  {}

  /**
   * A ball that was just bound can be won unless its SKU is out of stock, its prize is complete and bound to no other ball,
   * and a loaded ball with a prize is never bound again.
   */
  lemma BoundIsFit(db: Db, s: Serial, prize: Id, card: bool)
    requires (if card then Prizes.BindCard(db, s, prize) else Prizes.BindBooster(db, s, prize)).Good?
    ensures var db' := (if card then Prizes.BindCard(db, s, prize) else Prizes.BindBooster(db, s, prize)).value;
            && db' == db.(balls := db.balls[s := db'.balls[s]]) && db'.balls[s].status.Loaded?
            && (Prizes.ProblemOf(db', db'.balls[s]).Some? ==> !card && Prizes.ProblemOf(db', db'.balls[s]) == Some(Prizes.OutOfStock))
            && (if card then db'.balls[s].card == Some(prize) && db.cards[prize].complete
                else db'.balls[s].booster == Some(prize) && db.boosters[prize].complete)
            && (s in db.balls && db.balls[s].status.Loaded? ==> db.balls[s].booster.None? && db.balls[s].card.None?)
            && forall t :: t in db.balls && t != s ==> if card then db.balls[t].card != Some(prize) else db.balls[t].booster != Some(prize)
  {
    hide Prizes.InStock;
  }

  /** A ball that could be bound like this is bound. */
  lemma FitIsBound(db: Db, s: Serial, prize: Id, card: bool)
    requires s in db.balls && db.balls[s].status.Loaded? ==> db.balls[s].booster.None? && db.balls[s].card.None?
    requires if card then prize in db.cards && db.cards[prize].status.InPool? && db.cards[prize].complete
             else prize in db.boosters && db.boosters[prize].status.Available? && db.boosters[prize].complete
    requires forall t :: t in db.balls && t != s ==> if card then db.balls[t].card != Some(prize) else db.balls[t].booster != Some(prize)
    ensures (if card then Prizes.BindCard(db, s, prize) else Prizes.BindBooster(db, s, prize)).Good?
  {}

  /** The operator has a sealed pack of this booster's kind to ship. */
  predicate PackThere(db: Db, o: Id) {
    o in db.boosters && db.boosters[o].sku in db.stock && db.stock[db.boosters[o].sku]
  }

  /** Each problem says what is wrong with a ball, and without one its prize is free and can be shipped. */
  lemma ProblemSaysWhy(db: Db, b: Ball)
    ensures match Prizes.ProblemOf(db, b)
            case None =>
              && (b.kind.BoosterPair? ==> b.booster.Some? && PackThere(db, b.booster.value) && db.boosters[b.booster.value].status.Available?)
              && (b.kind.SingleCard? ==> b.card.Some? && b.card.value in db.cards && db.cards[b.card.value].status.InPool?)
            case Some(NoBooster) => b.kind.BoosterPair? && (b.booster.Some? ==> b.booster.value !in db.boosters)
            case Some(BoosterIs(status)) =>
              && b.kind.BoosterPair? && !status.Available?
              && b.booster.Some? && b.booster.value in db.boosters && db.boosters[b.booster.value].status == status
            case Some(OutOfStock) => b.kind.BoosterPair? && b.booster.Some? && !PackThere(db, b.booster.value)
            case Some(NoCard) => b.kind.SingleCard? && (b.card.Some? ==> b.card.value !in db.cards)
            case Some(CardIs(status)) =>
              && b.kind.SingleCard? && !status.InPool?
              && b.card.Some? && b.card.value in db.cards && db.cards[b.card.value].status == status
  {}

  /** A new ball has no prize, so it cannot be won, and it can be bound to anything that is free. */
  lemma CreatedIsBlank(db: Db, s: Serial)
    requires Prizes.CreateBall(db, s).Good?
    ensures var db' := Prizes.CreateBall(db, s).value;
            && s !in db.balls && s in db'.balls && db' == db.(balls := db.balls[s := db'.balls[s]])
            && db'.balls[s].status.Loaded? && Prizes.ProblemOf(db', db'.balls[s]) == Some(Prizes.NoBooster) && Prizes.Bindable(db', s)
  {}
}

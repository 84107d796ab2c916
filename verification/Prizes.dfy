/** Prizes: what each transaction on balls, boosters, cards, wins and the ledger does to the tables. */
module Prizes {
  import opened Results
  import opened Tables

  const DAY: nat := 86400
  const RESELL_DEADLINE: nat := 30 * DAY

  const BOOSTER_PRICES: map<Sku, nat> := map["default" := 500]

  function BoosterPrice(sku: Sku): nat {
    if sku in BOOSTER_PRICES then BOOSTER_PRICES[sku] else BOOSTER_PRICES["default"]
  }

  function CardPrice(c: Card): nat {
    match c.rarity
    case None => 0
    case Some(Common) => 50
    case Some(Uncommon) => 150
    case Some(Rare) => 400
    case Some(HoloRare) => 900
    case Some(UltraRare) => 2500
    case Some(Chase) => 8000
  }

  // ---------------------------------------------------------------------------
  // Machine fitness
  // ---------------------------------------------------------------------------

  datatype Problem = NoBooster | BoosterIs(status: BoosterStatus) | OutOfStock | NoCard | CardIs(cardStatus: CardStatus)

  predicate InStock(db: Db, sku: Sku) {
    sku in db.stock && db.stock[sku]
  }

  /** Why the prize of a ball could not be handed over. */
  function ProblemOf(db: Db, b: Ball): Option<Problem> {
    match b.kind
    case BoosterPair =>
      if b.booster.None? || b.booster.value !in db.boosters then Some(NoBooster)
      else
        var o := db.boosters[b.booster.value];
        if !o.status.Available? then Some(BoosterIs(o.status))
        else if !InStock(db, o.sku) then Some(OutOfStock)
        else None
    case SingleCard =>
      if b.card.None? || b.card.value !in db.cards then Some(NoCard)
      else
        var c := db.cards[b.card.value];
        if !c.status.InPool? then Some(CardIs(c.status)) else None
  }

  // ---------------------------------------------------------------------------
  // reserve_win: two transactions
  // ---------------------------------------------------------------------------

  /** First transaction: the ball has fallen, whatever becomes of its prize. */
  function Grab(db: Db, s: Serial): Outcome {
    if s !in db.balls || !db.balls[s].status.Loaded? then Bad(BallNotAvailable)
    else Good(db.(balls := db.balls[s := db.balls[s].(status := Grabbed)]))
  }

  /** The foreign keys and the unique columns of a new win. */
  predicate Insertable(db: Db, id: Id, win: Win) {
    && id !in db.wins && win.entry in db.queue && win.ball in db.balls
    && forall v :: v in db.wins ==>
         db.wins[v].entry != win.entry && db.wins[v].ball != win.ball && (win.card.Some? ==> db.wins[v].card != win.card)
  }

  /** Second transaction, on the ball as the first one left it. */
  function Claim(db: Db, s: Serial, ball: Ball, user: Address, entry: Id, now: nat, id: Id): Outcome {
    match ball.kind
    case BoosterPair =>
      if ball.booster.None? || ball.booster.value !in db.boosters || !db.boosters[ball.booster.value].status.Available?
      then Bad(PoolExhausted)
      else
        var o := ball.booster.value;
        var sku := db.boosters[o].sku;
        if !InStock(db, sku) then Bad(PoolExhausted)
        else
          var win := Win(user, entry, s, BoosterPair, WinStatus.Pending, now + RESELL_DEADLINE, None, BoosterPrice(sku));
          if !Insertable(db, id, win) then Bad(Integrity)
          else Good(db.(wins := db.wins[id := win],
                        boosters := db.boosters[o := db.boosters[o].(status := BoosterStatus.Reserved, reservedBy := Some(id))]))
    case SingleCard =>
      if ball.card.None? || ball.card.value !in db.cards || !db.cards[ball.card.value].status.InPool?
      then Bad(PoolExhausted)
      else
        var c := ball.card.value;
        var win := Win(user, entry, s, SingleCard, WinStatus.Pending, now + RESELL_DEADLINE, Some(c), CardPrice(db.cards[c]));
        if !Insertable(db, id, win) then Bad(Integrity)
        else Good(db.(wins := db.wins[id := win],
                      cards := db.cards[c := db.cards[c].(status := CardStatus.Reserved)]))
  }

  /** Both, with nothing in between. */
  function Reserve(db: Db, s: Serial, user: Address, entry: Id, now: nat, id: Id): Outcome {
    match Grab(db, s)
    case Bad(e) => Bad(e)
    case Good(grabbed) => Claim(grabbed, s, grabbed.balls[s], user, entry, now, id)
  }

  // ---------------------------------------------------------------------------
  // Settlements
  // ---------------------------------------------------------------------------

  function LoadPending(db: Db, w: Id, kind: PrizeKind): Result<Win, Refusal> {
    if w !in db.wins || !db.wins[w].status.Pending? then Bad(WinAlreadySettled)
    else if db.wins[w].kind != kind then Bad(WinKindMismatch)
    else Good(db.wins[w])
  }

  predicate Holds(db: Db, o: Id, w: Id) {
    o in db.boosters && db.boosters[o].reservedBy == Some(w)
  }

  /** The booster reserved by a win. */
  ghost function Held(db: Db, w: Id): Option<Id> {
    if exists o :: Holds(db, o, w) then
      var o :| Holds(db, o, w);
      Some(o)
    else None
  }

  predicate PostingFree(ledger: seq<Posting>, id: Id) {
    forall i :: 0 <= i < |ledger| ==> ledger[i].id != id
  }

  function Settled(db: Db, w: Id, status: WinStatus): Db
    requires w in db.wins
  {
    db.(wins := db.wins[w := db.wins[w].(status := status)])
  }

  function Released(db: Db, o: Id): Db
    requires o in db.boosters
  {
    db.(boosters := db.boosters[o := db.boosters[o].(status := Available, reservedBy := None)])
  }

  /** The cards of an opened booster go to its winner. */
  function CardsMoved(cards: map<Id, Card>, o: Id, user: Address): map<Id, Card> {
    map c | c in cards :: if cards[c].booster == Some(o) then cards[c].(status := InCollection, owner := Some(user)) else cards[c]
  }

  ghost function OpenBooster(db: Db, w: Id): Outcome {
    match LoadPending(db, w, BoosterPair)
    case Bad(e) => Bad(e)
    case Good(win) =>
      match Held(db, w)
      case None => Bad(Crash)
      case Some(o) =>
        Good(Settled(db.(boosters := db.boosters[o := db.boosters[o].(status := Consumed)],
                         cards := CardsMoved(db.cards, o, win.user)), w, SettledOpen))
  }

  ghost function ShipBooster(db: Db, w: Id): Outcome {
    match LoadPending(db, w, BoosterPair)
    case Bad(e) => Bad(e)
    case Good(win) =>
      match Held(db, w)
      case None => Bad(Crash)
      case Some(o) => Good(Settled(Released(db, o), w, SettledShip))
  }

  /** A resale by the player, or by the clock. */
  function Resale(w: Id, win: Win, auto: bool, id: Id): Posting {
    Posting(id, win.user, if auto then PostingKind.AutoResell else PostingKind.Resell, win.price, Some(w), false)
  }

  function SoldStatus(auto: bool): WinStatus {
    if auto then Expired else SettledResell
  }

  ghost function SellBooster(db: Db, w: Id, auto: bool, id: Id): Outcome {
    match LoadPending(db, w, BoosterPair)
    case Bad(e) => Bad(e)
    case Good(win) =>
      match Held(db, w)
      case None => Bad(Crash)
      case Some(o) =>
        if !PostingFree(db.ledger, id) then Bad(Integrity)
        else Good(Settled(Released(db, o).(ledger := db.ledger + [Resale(w, win, auto, id)]), w, SoldStatus(auto)))
  }

  /** The card of a win, if there is such a row, gets a new status. */
  function CardBecomes(db: Db, card: Option<Id>, status: CardStatus, owner: Option<Address>): (r: Db)
    ensures r == db.(cards := r.cards) && r.cards.Keys == db.cards.Keys
  {
    if card.Some? && card.value in db.cards then
      db.(cards := db.cards[card.value := db.cards[card.value].(status := status,
            owner := if owner.Some? then owner else db.cards[card.value].owner)])
    else db
  }

  function KeepCard(db: Db, w: Id): Outcome {
    match LoadPending(db, w, SingleCard)
    case Bad(e) => Bad(e)
    case Good(win) => Good(Settled(CardBecomes(db, win.card, InCollection, Some(win.user)), w, SettledKeep))
  }

  function ShipCard(db: Db, w: Id): Outcome {
    match LoadPending(db, w, SingleCard)
    case Bad(e) => Bad(e)
    case Good(win) => Good(Settled(CardBecomes(db, win.card, CardStatus.Shipped, Some(win.user)), w, SettledShip))
  }

  function SellCard(db: Db, w: Id, auto: bool, id: Id): Outcome {
    match LoadPending(db, w, SingleCard)
    case Bad(e) => Bad(e)
    case Good(win) =>
      if !PostingFree(db.ledger, id) then Bad(Integrity)
      else Good(Settled(CardBecomes(db, win.card, InPool, None).(ledger := db.ledger + [Resale(w, win, auto, id)]), w, SoldStatus(auto)))
  }

  // ---------------------------------------------------------------------------
  // Cards in a collection
  // ---------------------------------------------------------------------------

  function OwnedCard(db: Db, c: Id, user: Address): Result<Card, Refusal> {
    if c !in db.cards then Bad(CardNotActionable)
    else if db.cards[c].owner != Some(user) then Bad(NotOwner)
    else if !db.cards[c].status.InCollection? then Bad(CardNotActionable)
    else Good(db.cards[c])
  }

  function ShipOwned(db: Db, c: Id, user: Address): Outcome {
    match OwnedCard(db, c, user)
    case Bad(e) => Bad(e)
    case Good(_) => Good(CardBecomes(db, Some(c), CardStatus.Shipped, None))
  }

  function SellOwned(db: Db, c: Id, user: Address, id: Id): Outcome {
    match OwnedCard(db, c, user)
    case Bad(e) => Bad(e)
    case Good(card) =>
      if !PostingFree(db.ledger, id) then Bad(Integrity)
      else Good(CardBecomes(db, Some(c), Resold, None)
                .(ledger := db.ledger + [Posting(id, user, PostingKind.CardResell, CardPrice(card), None, false)]))
  }

  // ---------------------------------------------------------------------------
  // The operator
  // ---------------------------------------------------------------------------

  function VoidBall(db: Db, s: Serial): Outcome {
    if s !in db.balls || !db.balls[s].status.Loaded? then Bad(BallNotAvailable)
    else
      var b := db.balls[s];
      var freed :=
        if b.kind.BoosterPair? && b.booster.Some? then
          if b.booster.value in db.boosters
          then db.(boosters := db.boosters[b.booster.value := db.boosters[b.booster.value].(status := Available)])
          else db
        else if b.kind.SingleCard? then CardBecomes(db, b.card, InPool, None)
        else db;
      Good(freed.(balls := db.balls[s := b.(status := Voided)]))
  }

  /** A ball that can take a new prize: a new one, one that is out of the machine, or one without a prize. */
  predicate Bindable(db: Db, s: Serial) {
    s in db.balls && db.balls[s].status.Loaded? ==> db.balls[s].booster.None? && db.balls[s].card.None?
  }

  function BindBooster(db: Db, s: Serial, o: Id): Outcome {
    if o !in db.boosters then Bad(NotFound)
    else if !db.boosters[o].status.Available? || !db.boosters[o].complete then Bad(Conflict)
    else if exists t :: t in db.balls && t != s && db.balls[t].booster == Some(o) then Bad(Conflict)
    else if !Bindable(db, s) then Bad(Conflict)
    else Good(db.(balls := db.balls[s := Ball(BoosterPair, Some(o), None, Loaded)]))
  }

  function BindCard(db: Db, s: Serial, c: Id): Outcome {
    if c !in db.cards then Bad(NotFound)
    else if !db.cards[c].status.InPool? || !db.cards[c].complete then Bad(Conflict)
    else if exists t :: t in db.balls && t != s && db.balls[t].card == Some(c) then Bad(Conflict)
    else if !Bindable(db, s) then Bad(Conflict)
    else Good(db.(balls := db.balls[s := Ball(SingleCard, None, Some(c), Loaded)]))
  }

  function CreateBall(db: Db, s: Serial): Outcome {
    if s in db.balls then Bad(Conflict)
    else Good(db.(balls := db.balls[s := Ball(BoosterPair, None, None, Loaded)]))
  }

  function SetStock(db: Db, sku: Sku, flag: bool): Outcome {
    if sku !in db.stock then Bad(NotFound) else Good(db.(stock := db.stock[sku := flag]))
  }
}

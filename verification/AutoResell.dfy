/** The job that sells expired wins, with players settling theirs between its transactions. */
module AutoResell {
  import opened Results
  import opened Tables
  import opened Inventory
  import opened Transactions
  import opened Store
  import Prizes

  /** What players do with their wins and their collections. */
  predicate ByPlayer(tx: Tx) {
    match tx
    case OpenBooster(_) => true
    case ShipBooster(_) => true
    case SellBooster(_, auto, _) => !auto
    case KeepCard(_) => true
    case ShipCard(_) => true
    case SellCard(_, auto, _) => !auto
    case ShipOwned(_, _) => true
    case SellOwned(_, _, _) => true
    case _ => false
  }

  /** Sales by the clock. */
  function AutoSales(ledger: seq<Posting>): nat {
    if ledger == [] then 0
    else AutoSales(ledger[..|ledger| - 1]) + if ledger[|ledger| - 1].kind.AutoResell? then 1 else 0
  }

  lemma AutoSalesAppended(ledger: seq<Posting>, p: Posting)
    ensures AutoSales(ledger + [p]) == AutoSales(ledger) + if p.kind.AutoResell? then 1 else 0
  {
    assert (ledger + [p])[..|ledger|] == ledger;
  }

  method Perform(store: Database, tx: Tx)
    requires store.Valid() && ByPlayer(tx)
    modifies store
    ensures store.Valid() && store.View() == After(old(store.View()), tx, 0)
  {
    match tx {
      case OpenBooster(w) => var _ := store.OpenBoosterWin(w);
      case ShipBooster(w) => var _ := store.ShipBoosterWin(w);
      case SellBooster(w, _, id) => var _ := store.SettleBoosterAsResell(w, false, id);
      case KeepCard(w) => var _ := store.KeepCardWin(w);
      case ShipCard(w) => var _ := store.ShipCardWin(w);
      case SellCard(w, _, id) => var _ := store.SettleCardAsResell(w, false, id);
      case ShipOwned(c, user) => var _ := store.ShipCardFromCollection(c, user);
      case SellOwned(c, user, id) => var _ := store.ResellCardFromCollection(c, user, id);
    }
  }

  predicate IsExpired(win: Win, now: nat) {
    win.status.Pending? && win.expires <= now
  }

  /** A win expires 30 days after it was claimed. */
  lemma ClaimedExpires(db: Db, s: Serial, ball: Ball, user: Address, entry: Id, claimed: nat, id: Id, now: nat)
    requires Prizes.Claim(db, s, ball, user, entry, claimed, id).Good?
    ensures var db' := Prizes.Claim(db, s, ball, user, entry, claimed, id).value;
            id in db'.wins && (IsExpired(db'.wins[id], now) <==> now >= claimed + 30 * 86_400)
  {
    hide Prizes.Insertable, Prizes.InStock, Prizes.BoosterPrice, Prizes.CardPrice;
  }

  /** A win keeps everything but its status, a settled one that too, and the clock sells only what has expired. */
  predicate WinLater(before: Win, win: Win, now: nat) {
    && win == before.(status := win.status)
    && (!before.status.Pending? ==> win == before)
    && (win.status.Expired? ==> before.status.Expired? || IsExpired(before, now))
  }

  /** A booster win that no booster names: a bad row, that no settlement can handle. */
  ghost predicate Homeless(db: Db, w: Id) {
    w in db.wins && db.wins[w].kind.BoosterPair? && forall o :: !Prizes.Holds(db, o, w)
  }

  /** A pending bad row stays one, and no other pending row becomes one. */
  ghost predicate RowLater(before: Db, db: Db, w: Id)
    requires w in before.wins && w in db.wins
  {
    && (before.wins[w].status.Pending? && Homeless(before, w) ==> db.wins[w].status.Pending? && Homeless(db, w))
    && (db.wins[w].status.Pending? && !Homeless(before, w) ==> !Homeless(db, w))
  }

  /** How wins and sales by the clock develop. */
  ghost predicate Later(before: Db, db: Db, sales: nat, now: nat) {
    && AutoSales(db.ledger) == AutoSales(before.ledger) + sales
    && forall w :: w in before.wins ==>
         w in db.wins && WinLater(before.wins[w], db.wins[w], now) && RowLater(before, db, w)
  }

  lemma LaterTrans(a: Db, b: Db, c: Db, m: nat, n: nat, now: nat)
    requires Later(a, b, m, now) && Later(b, c, n, now)
    ensures Later(a, c, m + n, now)
  {
    hide AutoSales, Homeless;
  }

  lemma LaterSelf(db: Db, now: nat)
    ensures Later(db, db, 0, now)
  {}

  predicate ByOwner(tx: Tx) {
    Settles(tx) || tx.ShipOwned? || tx.SellOwned?
  }

  /** A settlement or a collection action changes what names another win in no booster. */
  lemma OthersStayNamed(db: Db, tx: Tx, w: Id, o: Id)
    requires ByOwner(tx) && Apply(db, tx, 0).Good? && (Settles(tx) ==> tx.w != w)
    ensures Prizes.Holds(Apply(db, tx, 0).value, o, w) <==> Prizes.Holds(db, o, w)
  {
    hide Prizes.CardsMoved, Prizes.CardBecomes, Prizes.PostingFree;
  }

  /** What is settled had a booster if it needed one. */
  lemma SettledHadHome(db: Db, tx: Tx)
    requires Settles(tx) && Apply(db, tx, 0).Good?
    ensures !Homeless(db, tx.w)
  {
    hide Prizes.CardsMoved, Prizes.CardBecomes, Prizes.PostingFree;
  }

  /** A settlement or a collection action changes at most one win, and posts at most one sale by the clock. */
  lemma SettledLater(db: Db, tx: Tx, now: nat)
    requires ByOwner(tx) && Apply(db, tx, 0).Good?
    requires Settles(tx) && SettledStatus(tx).Expired? ==> tx.w in db.wins && IsExpired(db.wins[tx.w], now)
    ensures Later(db, Apply(db, tx, 0).value, if Settles(tx) && SettledStatus(tx).Expired? then 1 else 0, now)
  {
    hide Apply, AutoSales, Prizes.Holds;
    var db' := Apply(db, tx, 0).value;
    assert db.ledger + [] == db.ledger;
    if Settles(tx) {
      SettlementTouches(db, tx, 0);
      SettledHadHome(db, tx);
    } else {
      OtherTouches(db, tx, 0);
    }
    if Posted(db, tx) != [] { AutoSalesAppended(db.ledger, Posted(db, tx)[0]); }
    forall w, o | w in db.wins && (Settles(tx) ==> tx.w != w)
      ensures Prizes.Holds(db', o, w) <==> Prizes.Holds(db, o, w)
    {
      OthersStayNamed(db, tx, w, o);
    }
  }

  lemma PlayerLater(db: Db, tx: Tx, now: nat)
    requires ByPlayer(tx)
    ensures Later(db, After(db, tx, 0), 0, now)
  {
    hide Apply, AutoSales, Later;
    LaterSelf(db, now);
    if Apply(db, tx, 0).Good? { SettledLater(db, tx, now); }
  }

  /** The sale of one expired win. */
  function Sale(w: Id, kind: PrizeKind, id: Id): Tx {
    match kind
    case BoosterPair => SellBooster(w, true, id)
    case SingleCard => SellCard(w, true, id)
  }

  /** It succeeds exactly if the win is pending and no bad row; else nothing happens. */
  lemma SaleWorksExactly(db: Db, w: Id, kind: PrizeKind, id: Id)
    requires w in db.wins && db.wins[w].kind == kind && Prizes.PostingFree(db.ledger, id)
    ensures Apply(db, Sale(w, kind, id), 0).Good? <==> db.wins[w].status.Pending? && !Homeless(db, w)
    ensures Homeless(db, w) && db.wins[w].status.Pending? ==> Apply(db, Sale(w, kind, id), 0) == Bad(Crash)
    ensures !db.wins[w].status.Pending? ==> Apply(db, Sale(w, kind, id), 0) == Bad(WinAlreadySettled)
  {
    hide Prizes.CardBecomes, Prizes.PostingFree;
  }

  lemma SaleLater(db: Db, w: Id, kind: PrizeKind, id: Id, now: nat)
    requires w in db.wins && db.wins[w].kind == kind && db.wins[w].expires <= now && Prizes.PostingFree(db.ledger, id)
    ensures var db' := After(db, Sale(w, kind, id), 0);
            && Later(db, db', if Apply(db, Sale(w, kind, id), 0).Good? then 1 else 0, now)
            && w in db'.wins && (db'.wins[w].status.Pending? <==> db.wins[w].status.Pending? && Homeless(db, w))
  {
    hide Apply, AutoSales, Later;
    var tx := Sale(w, kind, id);
    SaleWorksExactly(db, w, kind, id);
    LaterSelf(db, now);
    if Apply(db, tx, 0).Good? {
      SettlementTouches(db, tx, 0);
      SettledLater(db, tx, now);
    }
  }

  /** Under the inventory invariant there are no bad rows. */
  lemma NoBadRows(db: Db, f: InFlight, w: Id)
    requires Inv(db, f) && w in db.wins && db.wins[w].status.Pending?
    ensures !Homeless(db, w)
  {
    hide BallsOk, BallsDiffer, BoostersOk, CardsOk, CardsHeld, WinsRefer, WinsDiffer, FlightsOk;
    if PendingBooster(db.wins[w]) {
      HeldIsReserved(db, w);
      assert Prizes.Holds(db, Prizes.Held(db, w).value, w);
    }
  }

  /** An identifier no posting has. */
  method NewId(ledger: seq<Posting>) returns (id: Id)
    ensures Prizes.PostingFree(ledger, id)
  {
    id := 0;
    for i := 0 to |ledger|
      invariant forall k :: 0 <= k < i ==> ledger[k].id < id
    {
      if ledger[i].id >= id { id := ledger[i].id + 1; }
    }
  }

  /** The snapshot: every pending win that has expired, once, with its kind. */
  method Snapshot(wins: map<Id, Win>, now: nat) returns (expired: seq<(Id, PrizeKind)>)
    ensures forall w, k :: (w, k) in expired <==> w in wins && IsExpired(wins[w], now) && wins[w].kind == k
  {
    expired := [];
    var todo := wins.Keys;
    while todo != {}
      invariant todo <= wins.Keys
      invariant forall w, k :: (w, k) in expired <==> w in wins && w !in todo && IsExpired(wins[w], now) && wins[w].kind == k
      decreases |todo|
    {
      var w :| w in todo;
      if IsExpired(wins[w], now) { expired := expired + [(w, wins[w].kind)]; }
      todo := todo - {w};
    }
  }

  /** One transaction of the job; what it raises is caught. */
  method SellOne(store: Database, w: Id, kind: PrizeKind, now: nat, ghost f: InFlight) returns (ok: bool)
    requires store.Valid() && w in store.wins && store.wins[w].kind == kind && store.wins[w].expires <= now
    modifies store
    ensures store.Valid() && Later(old(store.View()), store.View(), if ok then 1 else 0, now)
    ensures w in store.wins
    ensures store.wins[w].status.Pending? <==> old(store.wins)[w].status.Pending? && old(Homeless(store.View(), w))
    ensures old(Inv(store.View(), f)) ==> Inv(store.View(), f)
  {
    hide Inv, AutoSales, Later, Homeless;
    var id := NewId(store.ledger);
    SaleLater(store.View(), w, kind, id, now);
    if Inv(store.View(), f) { TxKeepsInventory(store.View(), f, Sale(w, kind, id), 0); }
    match kind {
      case BoosterPair =>
        var a := store.SettleBoosterAsResell(w, true, id);
        ok := a.None?;
      case SingleCard =>
        var a := store.SettleCardAsResell(w, true, id);
        ok := a.None?;
    }
  }

  method PerformAll(store: Database, txs: seq<Tx>, now: nat, ghost f: InFlight)
    requires store.Valid() && forall j :: 0 <= j < |txs| ==> ByPlayer(txs[j])
    modifies store
    ensures store.Valid() && Later(old(store.View()), store.View(), 0, now)
    ensures old(Inv(store.View(), f)) ==> Inv(store.View(), f)
  {
    hide Inv, After, AutoSales, ByPlayer, Later;
    ghost var start := store.View();
    LaterSelf(start, now);
    var j := 0;
    while j < |txs|
      invariant 0 <= j <= |txs|
      invariant store.Valid() && Later(start, store.View(), 0, now)
      invariant Inv(start, f) ==> Inv(store.View(), f)
    {
      ghost var db := store.View();
      PlayerLater(db, txs[j], now);
      if Inv(db, f) { PlayerAllowed(db, f, txs[j]); }
      Perform(store, txs[j]);
      LaterTrans(start, db, store.View(), 0, 0, now);
      j := j + 1;
    }
  }

  lemma PlayerAllowed(db: Db, f: InFlight, tx: Tx)
    requires Inv(db, f) && ByPlayer(tx)
    ensures Inv(After(db, tx, 0), f)
  {
    hide Inv, After;
    TxKeepsInventory(db, f, tx, 0);
  }

  /** The rows of the snapshot that are done with are settled, unless they are bad. */
  ghost predicate Done(before: Db, db: Db, w: Id) {
    w in db.wins && (db.wins[w].status.Pending? <==> Homeless(before, w))
  }

  /** What is done with stays so. */
  lemma DoneLater(before: Db, a: Db, b: Db, m: nat, n: nat, now: nat, w: Id)
    requires Later(before, a, m, now) && Later(a, b, n, now) && w in before.wins && before.wins[w].status.Pending?
    requires Done(before, a, w)
    ensures Done(before, b, w)
  {
    hide AutoSales;
    LaterTrans(before, a, b, m, n, now);
  }

  /** A sale does with its row what the state before the job says. */
  lemma DoneNow(before: Db, mid: Db, db: Db, m: nat, now: nat, w: Id)
    requires Later(before, mid, m, now) && w in before.wins && before.wins[w].status.Pending? && w in db.wins
    requires db.wins[w].status.Pending? <==> mid.wins[w].status.Pending? && Homeless(mid, w)
    ensures Done(before, db, w)
  {
    hide AutoSales;
  }

  lemma StillThere(before: Db, db: Db, n: nat, now: nat, w: Id)
    requires Later(before, db, n, now) && w in before.wins
    ensures w in db.wins && db.wins[w].kind == before.wins[w].kind && db.wins[w].expires == before.wins[w].expires
  {}

  /**
   * Whatever players commit between its transactions, and whatever state the tables are in: the job returns exactly the
   * number of sales it posted, sells only wins that had expired, and leaves pending of its snapshot exactly the bad rows,
   * which do not stop it. Under the inventory invariant, which it keeps, there are none.
   */
  method RunAutoResellExpired(store: Database, now: nat, meanwhile: seq<seq<Tx>>, ghost f: InFlight) returns (settled: nat)
    requires store.Valid()
    requires forall i, j :: 0 <= i < |meanwhile| && 0 <= j < |meanwhile[i]| ==> ByPlayer(meanwhile[i][j])
    modifies store
    ensures store.Valid() && Later(old(store.View()), store.View(), settled, now)
    ensures forall w :: w in old(store.wins) && IsExpired(old(store.wins)[w], now) ==>
              w in store.wins && (store.wins[w].status.Pending? <==> old(Homeless(store.View(), w)))
    ensures old(Inv(store.View(), f)) ==>
              Inv(store.View(), f)
              && forall w :: w in old(store.wins) && IsExpired(old(store.wins)[w], now) ==> !store.wins[w].status.Pending?
  {
    hide Inv, AutoSales, ByPlayer, Later, Homeless;
    var expired := Snapshot(store.wins, now);
    settled := 0;
    ghost var before := store.View();
    LaterSelf(before, now);
    var i := 0;
    while i < |expired|
      invariant 0 <= i <= |expired|
      invariant store.Valid() && Later(before, store.View(), settled, now)
      invariant Inv(before, f) ==> Inv(store.View(), f)
      invariant forall k :: 0 <= k < i ==> Done(before, store.View(), expired[k].0)
    {
      ghost var start := store.View();
      if i < |meanwhile| {
        PerformAll(store, meanwhile[i], now, f);
      } else {
        LaterSelf(start, now);
      }
      ghost var mid := store.View();
      LaterTrans(before, start, mid, settled, 0, now);
      var (w, kind) := expired[i];
      assert (w, kind) in expired;
      StillThere(before, mid, settled, now, w);
      var ok := SellOne(store, w, kind, now, f);
      ghost var n := if ok then 1 else 0;
      LaterTrans(before, mid, store.View(), settled, n, now);
      DoneNow(before, mid, store.View(), settled, now, w);
      forall k | 0 <= k < i
        ensures Done(before, store.View(), expired[k].0)
      {
        assert (expired[k].0, expired[k].1) in expired;
        DoneLater(before, start, mid, settled, 0, now, expired[k].0);
        DoneLater(before, mid, store.View(), settled, n, now, expired[k].0);
      }
      if ok { settled := settled + 1; }
      i := i + 1;
    }
    forall w | w in before.wins && IsExpired(before.wins[w], now)
      ensures Done(before, store.View(), w)
      ensures Inv(before, f) ==> !store.wins[w].status.Pending?
    {
      assert (w, before.wins[w].kind) in expired;
      if Inv(before, f) { NoBadRows(before, f, w); }
    }
  }
}

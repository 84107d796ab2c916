/** Balances: what the ledger says each player has, and what is still on hold. */
module Ledger {
  import opened Results
  import opened Tables
  import opened Prizes
  import opened Payments

  const HOLD: nat := 7 * DAY

  type Postings = seq<Posting>

  predicate IsCredit(k: PostingKind) {
    k.Deposit? || k.Resell? || k.AutoResell? || k.CardResell? || k.BetRefund?
  }

  function Credits(ledger: Postings, u: Address): nat {
    if ledger == [] then 0
    else
      var n := |ledger| - 1;
      Credits(ledger[..n], u) + if ledger[n].user == u && IsCredit(ledger[n].kind) then ledger[n].cents else 0
  }

  function Debits(ledger: Postings, u: Address): nat {
    if ledger == [] then 0
    else
      var n := |ledger| - 1;
      Debits(ledger[..n], u) + if ledger[n].user == u && !IsCredit(ledger[n].kind) then ledger[n].cents else 0
  }

  /** `off_chain_balance_cents`. */
  function Balance(ledger: Postings, u: Address): int {
    Credits(ledger, u) - Debits(ledger, u)
  }

  /** A card payment for this entry, confirmed less than the hold time ago. */
  predicate OnHold(pay: Payment, entry: Id, now: nat) {
    pay.entry == Some(entry) && pay.rail.CreditCard? && pay.confirmedAt.Some? && pay.confirmedAt.value + HOLD > now
  }

  function Holders(payments: Pays, entry: Id, now: nat): set<Id> {
    set p | p in payments && OnHold(payments[p], entry, now)
  }

  /** The payments that hold back the credits of a win: the rows the query joins. */
  function Joined(wins: map<Id, Win>, payments: Pays, w: Id, now: nat): set<Id> {
    if w in wins then Holders(payments, wins[w].entry, now) else {}
  }

  /** `held_balance_cents`: each credit counts once for every payment it joins. */
  function HeldCents(wins: map<Id, Win>, payments: Pays, ledger: Postings, u: Address, now: nat): nat {
    if ledger == [] then 0
    else
      var n := |ledger| - 1;
      HeldCents(wins, payments, ledger[..n], u, now)
      + if ledger[n].user == u && IsCredit(ledger[n].kind) && ledger[n].win.Some?
        then ledger[n].cents * |Joined(wins, payments, ledger[n].win.value, now)|
        else 0
  }

  /** Cents credited under a win. */
  function WinCredits(ledger: Postings, w: Id): nat {
    if ledger == [] then 0
    else
      var n := |ledger| - 1;
      WinCredits(ledger[..n], w) + if ledger[n].win == Some(w) then ledger[n].cents else 0
  }

  // ---------------------------------------------------------------------------
  // Appending and deleting
  // ---------------------------------------------------------------------------

  lemma Appended(ledger: Postings, p: Posting, u: Address, w: Id)
    ensures Credits(ledger + [p], u) == Credits(ledger, u) + if p.user == u && IsCredit(p.kind) then p.cents else 0
    ensures Debits(ledger + [p], u) == Debits(ledger, u) + if p.user == u && !IsCredit(p.kind) then p.cents else 0
    ensures WinCredits(ledger + [p], w) == WinCredits(ledger, w) + if p.win == Some(w) then p.cents else 0
  {
    assert (ledger + [p])[..|ledger|] == ledger;
  }

  lemma HeldAppended(wins: map<Id, Win>, payments: Pays, ledger: Postings, p: Posting, u: Address, now: nat)
    ensures HeldCents(wins, payments, ledger + [p], u, now) == HeldCents(wins, payments, ledger, u, now)
            + if p.user == u && IsCredit(p.kind) && p.win.Some? then p.cents * |Joined(wins, payments, p.win.value, now)| else 0
  {
    assert (ledger + [p])[..|ledger|] == ledger;
  }

  /** The ledger without row i. */
  function Without(ledger: Postings, i: nat): Postings
    requires i < |ledger|
  {
    ledger[..i] + ledger[i + 1..]
  }

  lemma WithoutEarlier(ledger: Postings, i: nat)
    requires i < |ledger|
    ensures var n := |ledger| - 1;
            if i == n then Without(ledger, i) == ledger[..n] else Without(ledger, i) == Without(ledger[..n], i) + [ledger[n]]
  {
    var n := |ledger| - 1;
    if i < n {
      assert ledger[i + 1..] == ledger[..n][i + 1..] + [ledger[n]];
    }
  }

  lemma {:induction false} Deleted(ledger: Postings, i: nat, u: Address, w: Id)
    requires i < |ledger| && !IsCredit(ledger[i].kind) && ledger[i].win.None?
    ensures Credits(Without(ledger, i), u) == Credits(ledger, u)
    ensures Debits(Without(ledger, i), u) == Debits(ledger, u) - if ledger[i].user == u then ledger[i].cents else 0
    ensures WinCredits(Without(ledger, i), w) == WinCredits(ledger, w)
    decreases |ledger|
  {
    hide Without;
    var n := |ledger| - 1;
    WithoutEarlier(ledger, i);
    if i < n {
      Deleted(ledger[..n], i, u, w);
      Appended(Without(ledger[..n], i), ledger[n], u, w);
    }
  }

  lemma {:induction false} HeldDeleted(wins: map<Id, Win>, payments: Pays, ledger: Postings, i: nat, u: Address, now: nat)
    requires i < |ledger| && !IsCredit(ledger[i].kind)
    ensures HeldCents(wins, payments, Without(ledger, i), u, now) == HeldCents(wins, payments, ledger, u, now)
    decreases |ledger|
  {
    hide Without, Joined, IsCredit;
    var n := |ledger| - 1;
    WithoutEarlier(ledger, i);
    if i < n {
      HeldDeleted(wins, payments, ledger[..n], i, u, now);
      HeldAppended(wins, payments, Without(ledger[..n], i), ledger[n], u, now);
    }
  }

  // ---------------------------------------------------------------------------
  // Holds
  // ---------------------------------------------------------------------------

  lemma AtMostOne<T>(s: set<T>)
    requires forall x, y :: x in s && y in s ==> x == y
    ensures |s| <= 1
  {
    if s != {} {
      var x :| x in s;
      assert s == {x};
    }
  }

  /** Each play has at most one payment, so a credit is held at most once. */
  lemma JoinsOnce(wins: map<Id, Win>, payments: Pays, w: Id, now: nat)
    requires PaymentsDiffer(payments)
    ensures |Joined(wins, payments, w, now)| <= 1
  {
    AtMostOne(Joined(wins, payments, w, now));
  }

  /** What is held is part of what was credited. */
  lemma {:induction false} HeldWithinCredits(wins: map<Id, Win>, payments: Pays, ledger: Postings, u: Address, now: nat)
    requires PaymentsDiffer(payments)
    ensures HeldCents(wins, payments, ledger, u, now) <= Credits(ledger, u)
    decreases |ledger|
  {
    if ledger != [] {
      var n := |ledger| - 1;
      HeldWithinCredits(wins, payments, ledger[..n], u, now);
      if ledger[n].win.Some? {
        JoinsOnce(wins, payments, ledger[n].win.value, now);
        TimesBit(ledger[n].cents, |Joined(wins, payments, ledger[n].win.value, now)|);
      }
    }
  }

  lemma TimesBit(x: nat, k: nat)
    requires k <= 1
    ensures 0 <= x * k <= x
  {}

  /** Holds only end as time goes by. */
  lemma {:induction false} HoldsEnd(wins: map<Id, Win>, payments: Pays, ledger: Postings, u: Address, now: nat, later: nat)
    requires now <= later
    ensures HeldCents(wins, payments, ledger, u, later) <= HeldCents(wins, payments, ledger, u, now)
    decreases |ledger|
  {
    if ledger != [] {
      var n := |ledger| - 1;
      HoldsEnd(wins, payments, ledger[..n], u, now, later);
      if ledger[n].win.Some? {
        var w := ledger[n].win.value;
        SubsetSize(Joined(wins, payments, w, later), Joined(wins, payments, w, now));
        TimesMonotone(ledger[n].cents, |Joined(wins, payments, w, later)|, |Joined(wins, payments, w, now)|);
      }
    }
  }

  lemma {:induction false} SubsetSize<T>(a: set<T>, b: set<T>)
    requires a <= b
    ensures |a| <= |b|
  {
    assert b == a + (b - a);
  }

  lemma TimesMonotone(x: nat, a: nat, b: nat)
    requires a <= b
    ensures x * a <= x * b
  {}

  /** A posting that names a win is a sale of it, credited to its winner. */
  predicate PostingOk(wins: map<Id, Win>, p: Posting) {
    p.win.Some? ==> p.win.value in wins && (p.kind.Resell? || p.kind.AutoResell?) && p.user == wins[p.win.value].user
  }

  ghost predicate PostingsRefer(wins: map<Id, Win>, ledger: Postings) {
    forall i :: 0 <= i < |ledger| ==> PostingOk(wins, ledger[i])
  }

  predicate SameHold(wins: map<Id, Win>, payments: Pays, wins': map<Id, Win>, payments': Pays, w: Id, now: nat) {
    w in wins' && Joined(wins', payments', w, now) == Joined(wins, payments, w, now)
  }

  /** The same credits are held while wins keep their entries and the payments of these entries stay as they are. */
  ghost predicate SameHolds(wins: map<Id, Win>, payments: Pays, wins': map<Id, Win>, payments': Pays) {
    forall w: Id, now: nat :: w in wins ==> SameHold(wins, payments, wins', payments', w, now)
  }

  lemma {:induction false} HeldUnchanged(wins: map<Id, Win>, payments: Pays, wins': map<Id, Win>, payments': Pays,
                                         ledger: Postings, u: Address, now: nat)
    requires PostingsRefer(wins, ledger) && SameHolds(wins, payments, wins', payments')
    ensures HeldCents(wins', payments', ledger, u, now) == HeldCents(wins, payments, ledger, u, now)
    decreases |ledger|
  {
    if ledger != [] {
      var n := |ledger| - 1;
      assert PostingsRefer(wins, ledger[..n]);
      HeldUnchanged(wins, payments, wins', payments', ledger[..n], u, now);
      if ledger[n].win.Some? { assert SameHold(wins, payments, wins', payments', ledger[n].win.value, now); }
    }
  }
}

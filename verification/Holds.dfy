/** What the chargeback hold holds, told from the tables alone. */
module Holds {
  import opened Results
  import opened Tables
  import opened Ledger
  import Payments

  type Pays = Payments.Pays

  /** The play of this win was paid for by this payment: by card, and confirmed less than seven days ago. */
  predicate FundsByFreshCard(wins: map<Id, Win>, payments: Pays, w: Id, q: Id, now: nat) {
    && w in wins && Payments.Funds(payments, q, wins[w].entry)
    && payments[q].rail.CreditCard? && payments[q].confirmedAt.Some? && now < payments[q].confirmedAt.value + 7 * 86_400
  }

  /** A credit for winnings of such a play. */
  ghost predicate FreshCardCredit(wins: map<Id, Win>, payments: Pays, p: Posting, u: Address, now: nat) {
    p.user == u && IsCredit(p.kind) && p.win.Some? && exists q :: FundsByFreshCard(wins, payments, p.win.value, q, now)
  }

  ghost function FreshCardCents(wins: map<Id, Win>, payments: Pays, ledger: Postings, u: Address, now: nat): nat {
    if ledger == [] then 0
    else
      var n := |ledger| - 1;
      FreshCardCents(wins, payments, ledger[..n], u, now)
      + if FreshCardCredit(wins, payments, ledger[n], u, now) then ledger[n].cents else 0
  }

  /** A win joins one payment if that is a card payment less than seven days old, and else none. */
  lemma JoinsFreshCard(wins: map<Id, Win>, payments: Pays, queue: Payments.Queue, w: Id, now: nat)
    requires Payments.PaymentsOk(payments, queue) && Payments.PaymentsDiffer(payments)
    ensures |Joined(wins, payments, w, now)| == if exists q :: FundsByFreshCard(wins, payments, w, q, now) then 1 else 0
  {
    var joined := Joined(wins, payments, w, now);
    forall q
      ensures q in joined <==> FundsByFreshCard(wins, payments, w, q, now)
    {
      if q in payments { assert Payments.PaymentOk(payments[q], queue); }
    }
    if q :| FundsByFreshCard(wins, payments, w, q, now) {
      assert q in joined;
      JoinsOnce(wins, payments, w, now);
      OneElement(joined, q);
    } else {
      assert joined == {};
    }
  }

  lemma OneElement<T>(s: set<T>, x: T)
    requires x in s && |s| <= 1
    ensures |s| == 1
  {
    assert s != {};
  }

  /** The held sum is the sum of the card-funded credits whose charge is less than seven days old. */
  lemma {:induction false} HeldIsFreshCard(wins: map<Id, Win>, payments: Pays, queue: Payments.Queue, ledger: Postings, u: Address,
                                          now: nat)
    requires Payments.PaymentsOk(payments, queue) && Payments.PaymentsDiffer(payments)
    ensures HeldCents(wins, payments, ledger, u, now) == FreshCardCents(wins, payments, ledger, u, now)
    decreases |ledger|
  {
    hide Joined, FundsByFreshCard, IsCredit, Payments.PaymentsOk, Payments.PaymentsDiffer;
    if ledger != [] {
      var n := |ledger| - 1;
      HeldIsFreshCard(wins, payments, queue, ledger[..n], u, now);
      if ledger[n].win.Some? { JoinsFreshCard(wins, payments, queue, ledger[n].win.value, now); }
    }
  }

  /**
   * A credit for winnings raises the held sum by exactly its cents if the play was paid for by card and its charge was
   * confirmed less than seven days ago, and by nothing if it was paid for in any other way or from that age on.
   */
  lemma CreditIsHeldExactly(wins: map<Id, Win>, payments: Pays, queue: Payments.Queue, ledger: Postings, p: Posting, q: Id, now: nat)
    requires Payments.PaymentsOk(payments, queue) && Payments.PaymentsDiffer(payments)
    requires IsCredit(p.kind) && p.win.Some? && p.win.value in wins && Payments.Funds(payments, q, wins[p.win.value].entry)
    ensures payments[q].confirmedAt.Some?
    ensures HeldCents(wins, payments, ledger + [p], p.user, now) - HeldCents(wins, payments, ledger, p.user, now)
            == if payments[q].rail.CreditCard? && now < payments[q].confirmedAt.value + 7 * 86_400 then p.cents else 0
  {
    hide Joined, HeldCents;
    assert Payments.PaymentOk(payments[q], queue);
    HeldAppended(wins, payments, ledger, p, p.user, now);
    JoinsFreshCard(wins, payments, queue, p.win.value, now);
    forall r | FundsByFreshCard(wins, payments, p.win.value, r, now)
      ensures r == q
    {}
    assert payments[q].rail.CreditCard? && now < payments[q].confirmedAt.value + 7 * 86_400
           ==> FundsByFreshCard(wins, payments, p.win.value, q, now);
  }
}

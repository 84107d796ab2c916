/** Tickets: how a payment, by either rail, becomes one play in the queue. */
module Payments {
  import opened Results
  import opened Tables

  const TICKET_PRICE: nat := 1000

  type Pays = map<Id, Payment>
  type Queue = map<Id, Entry>

  /** The unique column `ref`: a transaction hash or a payment intent, for any other payment than this one. */
  predicate RefFree(payments: Pays, p: Id, ref: Option<string>) {
    ref.Some? ==> forall q :: q in payments && q != p ==> payments[q].ref != ref
  }

  /** `initiate_payment`. */
  function Initiate(db: Db, p: Id, addr: Address, rail: Rail, cents: nat): Outcome {
    if p in db.payments then Bad(Integrity)
    else Good(db.(payments := db.payments[p := Payment(addr, rail, cents, PaymentStatus.Pending, None, None, None)]))
  }

  /** `confirm_payment`: the row is confirmed under this ref and its play enters the queue, in one transaction. */
  function Confirm(db: Db, p: Id, ref: Option<string>, e: Id, key: Key, now: nat): Outcome
    requires p in db.payments
  {
    if e in db.queue || !RefFree(db.payments, p, ref) then Bad(Integrity)
    else
      Good(db.(queue := db.queue[e := Entry(db.payments[p].address, key, Queued, false)],
               payments := db.payments[p := db.payments[p].(status := Confirmed, ref := ref, entry := Some(e), confirmedAt := Some(now))]))
  }

  /** `confirm_card_payment`: from the socket or from the webhook; only a pending row. */
  function ConfirmCard(db: Db, p: Id, intent: string, e: Id, key: Key, now: nat): Outcome {
    if p !in db.payments then Bad(NotFound)
    else if !db.payments[p].status.Pending? then Bad(Conflict)
    else Confirm(db, p, Some(intent), e, key, now)
  }

  /** `fail_card_payment`: only a pending row; the ref is set only if there is an intent. */
  function FailCard(db: Db, p: Id, intent: Option<string>): Outcome {
    if p !in db.payments then Bad(NotFound)
    else if !db.payments[p].status.Pending? then Bad(Conflict)
    else if !RefFree(db.payments, p, intent) then Bad(Integrity)
    else
      Good(db.(payments := db.payments[p := db.payments[p].(status := Failed, ref := if intent.Some? then intent else db.payments[p].ref)]))
  }

  predicate AlreadyQueued(queue: Queue, addr: Address) {
    exists e :: e in queue && queue[e].address == addr && (queue[e].status.Queued? || queue[e].status.Active?)
  }

  /** A payment made and confirmed in one transaction. */
  function PayAtOnce(db: Db, p: Id, addr: Address, rail: Rail, cents: nat, ref: Option<string>, e: Id, key: Key, now: nat): Outcome {
    match Initiate(db, p, addr, rail, cents)
    case Bad(r) => Bad(r)
    case Good(db') => Confirm(db', p, ref, e, key, now)
  }

  // What the three handlers commit, whatever they read before: other transactions may commit between their checks and
  // their own, so that a check that has passed may not hold any more.

  /** `pay_card` before the charge. */
  function CommitCard(db: Db, p: Id, addr: Address): Outcome {
    Initiate(db, p, addr, CreditCard, TICKET_PRICE)
  }

  /** `pay_crypto` after the verification, or without hash and verification in bypass mode. */
  function CommitTransfer(db: Db, p: Id, addr: Address, hash: Option<string>, e: Id, key: Key, now: nat): Outcome {
    PayAtOnce(db, p, addr, Crypto, TICKET_PRICE, hash, e, key, now)
  }

  /** `pay_free`. */
  function CommitFree(db: Db, p: Id, addr: Address, e: Id, key: Key, now: nat): Outcome {
    PayAtOnce(db, p, addr, Comp, 0, None, e, key, now)
  }

  /** `pay_crypto` as a whole, with nothing in between. */
  function PayCrypto(db: Db, p: Id, addr: Address, bypass: bool, hash: Option<string>, verified: bool, e: Id, key: Key, now: nat): Outcome {
    if AlreadyQueued(db.queue, addr) then Bad(Conflict)
    else if bypass then CommitTransfer(db, p, addr, None, e, key, now)
    else if hash.None? || hash.value == "" then Bad(NotFound)
    else if exists q :: q in db.payments && db.payments[q].ref == hash then Bad(Conflict)
    else if !verified then Bad(NotFound)
    else CommitTransfer(db, p, addr, hash, e, key, now)
  }

  /**
   * A transfer buys a play exactly when its player has none that is queued or on, and, unless payment is bypassed, its
   * hash is there, verified, and unused; the play is the player's, under the new key.
   */
  lemma TransferBuysExactly(db: Db, p: Id, addr: Address, bypass: bool, hash: Option<string>, verified: bool, e: Id, key: Key, now: nat)
    requires p !in db.payments && e !in db.queue
    ensures var r := PayCrypto(db, p, addr, bypass, hash, verified, e, key, now);
            && (r.Good? <==>
                  && (forall d :: d in db.queue && db.queue[d].address == addr ==> db.queue[d].status.Played?)
                  && (bypass || (verified && hash.Some? && hash.value != ""
                                 && forall q :: q in db.payments ==> db.payments[q].ref != hash)))
            && (r.Good? ==> r.value.queue == db.queue[e := Entry(addr, key, Queued, false)]
                            && r.value.payments == db.payments[p := Payment(addr, Crypto, 1000, Confirmed,
                                                                            if bypass then None else hash, Some(e), Some(now))])
  {
    var pending := Payment(addr, Crypto, TICKET_PRICE, PaymentStatus.Pending, None, None, None);
    var paid := Payment(addr, Crypto, TICKET_PRICE, Confirmed, if bypass then None else hash, Some(e), Some(now));
    assert db.payments[p := pending][p := paid] == db.payments[p := paid];
  }

  /** A hash that is used is refused even by a handler that checked it before it was. */
  lemma ReplayIsRefused(db: Db, q: Id, p: Id, addr: Address, hash: string, e: Id, key: Key, now: nat)
    requires q in db.payments && db.payments[q].ref == Some(hash)
    ensures CommitTransfer(db, p, addr, Some(hash), e, key, now) == Bad(Integrity)
  {
    if p !in db.payments {
      var begun := Initiate(db, p, addr, Crypto, TICKET_PRICE).value;
      assert begun.payments[q].ref == Some(hash);
    }
  }

  // ---------------------------------------------------------------------------
  // Invariant: confirmed payments and plays correspond
  // ---------------------------------------------------------------------------

  predicate PaymentOk(pay: Payment, queue: Queue) {
    && (pay.status.Confirmed? <==> pay.entry.Some?)
    && (pay.status.Confirmed? <==> pay.confirmedAt.Some?)
    && (pay.entry.Some? ==> pay.entry.value in queue && queue[pay.entry.value].address == pay.address)
  }

  ghost predicate PaymentsOk(payments: Pays, queue: Queue) {
    forall p :: p in payments ==> PaymentOk(payments[p], queue)
  }

  ghost predicate PaymentsDiffer(payments: Pays) {
    forall p, q :: p in payments && q in payments && p != q ==>
      && (payments[p].entry.Some? ==> payments[p].entry != payments[q].entry)
      && (payments[p].ref.Some? ==> payments[p].ref != payments[q].ref)
  }

  predicate Funds(payments: Pays, p: Id, e: Id) {
    p in payments && payments[p].status.Confirmed? && payments[p].entry == Some(e)
  }

  ghost predicate EntriesPaid(payments: Pays, queue: Queue) {
    forall e :: e in queue ==> exists p :: Funds(payments, p, e)
  }

  ghost predicate Funded(db: Db) {
    PaymentsOk(db.payments, db.queue) && PaymentsDiffer(db.payments) && EntriesPaid(db.payments, db.queue)
  }

  /** The keys of the turns. */
  ghost predicate KeysDiffer(queue: Queue) {
    forall d, e :: d in queue && e in queue && d != e ==> queue[d].key != queue[e].key
  }

  ghost predicate KeyFree(queue: Queue, key: Key) {
    forall e :: e in queue ==> queue[e].key != key
  }

  /** A row that is not confirmed comes or changes. */
  lemma UnconfirmedKeeps(db: Db, p: Id, pay: Payment)
    requires Funded(db) && PaymentOk(pay, db.queue) && !pay.status.Confirmed?
    requires p in db.payments ==> !db.payments[p].status.Confirmed?
    requires RefFree(db.payments, p, pay.ref)
    ensures Funded(db.(payments := db.payments[p := pay]))
  {
    hide PaymentOk;
    assert pay.entry.None? by { UnconfirmedIsUnlinked(pay, db.queue); }
    var payments' := db.payments[p := pay];
    forall e | e in db.queue
      ensures exists q :: Funds(payments', q, e)
    {
      var q :| Funds(db.payments, q, e);
      assert Funds(payments', q, e);
    }
  }

  lemma UnconfirmedIsUnlinked(pay: Payment, queue: Queue)
    requires PaymentOk(pay, queue) && !pay.status.Confirmed?
    ensures pay.entry.None?
  {}

  lemma PaymentsOkWith(payments: Pays, queue: Queue, p: Id, pay: Payment, e: Id, entry: Entry)
    requires PaymentsOk(payments, queue) && e !in queue && PaymentOk(pay, queue[e := entry])
    ensures PaymentsOk(payments[p := pay], queue[e := entry])
  {}

  lemma PaymentsDifferWith(payments: Pays, queue: Queue, p: Id, pay: Payment, e: Id)
    requires PaymentsDiffer(payments) && PaymentsOk(payments, queue) && e !in queue
    requires pay.entry == Some(e) && RefFree(payments, p, pay.ref)
    ensures PaymentsDiffer(payments[p := pay])
  {}

  lemma EntriesPaidWith(payments: Pays, queue: Queue, p: Id, pay: Payment, e: Id, entry: Entry)
    requires EntriesPaid(payments, queue) && (p in payments ==> !payments[p].status.Confirmed?)
    requires pay.status.Confirmed? && pay.entry == Some(e)
    ensures EntriesPaid(payments[p := pay], queue[e := entry])
  {
    var payments', queue' := payments[p := pay], queue[e := entry];
    forall d | d in queue'
      ensures exists q :: Funds(payments', q, d)
    {
      if d == e {
        assert Funds(payments', p, e);
      } else {
        var q :| Funds(payments, q, d);
        assert Funds(payments', q, d);
      }
    }
  }

  lemma ConfirmKeeps(db: Db, p: Id, ref: Option<string>, e: Id, key: Key, now: nat)
    requires Funded(db) && p in db.payments && db.payments[p].status.Pending? && Confirm(db, p, ref, e, key, now).Good?
    ensures Funded(Confirm(db, p, ref, e, key, now).value)
  {
    hide PaymentsOk, PaymentsDiffer, EntriesPaid, RefFree;
    var db' := Confirm(db, p, ref, e, key, now).value;
    PaymentsOkWith(db.payments, db.queue, p, db'.payments[p], e, db'.queue[e]);
    PaymentsDifferWith(db.payments, db.queue, p, db'.payments[p], e);
    EntriesPaidWith(db.payments, db.queue, p, db'.payments[p], e, db'.queue[e]);
  }

  /** Confirmed payments and plays are in bijection: each play has exactly one payment, by the player whose turn it is. */
  lemma OnePaymentPerPlay(db: Db, e: Id)
    requires Funded(db) && e in db.queue
    ensures exists p :: Funds(db.payments, p, e) && db.payments[p].address == db.queue[e].address
    ensures forall p, q ::
              p in db.payments && q in db.payments && db.payments[p].entry == Some(e) && db.payments[q].entry == Some(e) ==> p == q
  {
    var p :| Funds(db.payments, p, e);
    assert PaymentOk(db.payments[p], db.queue);
  }
}

/** Withdrawals: reserve, pay out, finalize or reverse, with every read of the balance a step of its own. */
module Withdrawals {
  import opened Results
  import opened Tables
  import opened Ledger
  import opened Payments

  /** How far a withdrawal has come that holds the lock on its user. */
  datatype Phase =
    | Locked
    | HasCredits(credits: nat)
    | HasTotal(total: int)
    | HasCreditsAgain(total: int, credits: nat)
    | HasBalance(total: int, balance: int)
    | HasClock(total: int, balance: int, clock: nat)
    | HasHeld(total: int, balance: int, held: nat)

  /** A committed debit whose row is not final yet. */
  datatype Payout = Unpaid | Paid | Refused

  /** A transfer that left the treasury. */
  datatype Transfer = Transfer(user: Address, cents: nat)

  datatype Bank = Bank(wins: map<Id, Win>, payments: Pays, ledger: Postings, now: nat,
                       locks: map<Address, Phase>, payouts: map<Id, Payout>, sent: seq<Transfer>)

  /** The next read of a withdrawal of u that has come this far; None when all reads are done. */
  function NextRead(b: Bank, u: Address, p: Phase): Option<Phase> {
    match p
    case Locked => Some(HasCredits(Credits(b.ledger, u)))
    case HasCredits(c) => Some(HasTotal(c - Debits(b.ledger, u)))
    case HasTotal(t) => Some(HasCreditsAgain(t, Credits(b.ledger, u)))
    case HasCreditsAgain(t, c) => Some(HasBalance(t, c - Debits(b.ledger, u)))
    case HasBalance(t, balance) => Some(HasClock(t, balance, b.now))
    case HasClock(t, balance, clock) => Some(HasHeld(t, balance, HeldCents(b.wins, b.payments, b.ledger, u, clock)))
    case HasHeld(_, _, _) => None
  }

  function Withdrawable(p: Phase): nat
    requires p.HasHeld?
  {
    if p.balance - p.held > 0 then p.balance - p.held else 0
  }

  function Lock(b: Bank, u: Address): Bank {
    if u in b.locks then b else b.(locks := b.locks[u := Locked])
  }

  function Read(b: Bank, u: Address): Bank {
    if u in b.locks && NextRead(b, u, b.locks[u]).Some? then b.(locks := b.locks[u := NextRead(b, u, b.locks[u]).value]) else b
  }

  function Debit(id: Id, u: Address, cents: nat): Posting {
    Posting(id, u, PostingKind.Withdrawal, cents, None, false)
  }

  /** The debit is committed, or the withdrawal refused; either way the lock is released. */
  function Commit(b: Bank, u: Address, id: Id): Bank {
    if u !in b.locks || !b.locks[u].HasHeld? then b
    else
      var p := b.locks[u];
      var unlocked := b.(locks := b.locks - {u});
      if p.total <= 0 || Withdrawable(p) == 0 || exists i :: 0 <= i < |b.ledger| && b.ledger[i].id == id then unlocked
      else unlocked.(ledger := b.ledger + [Debit(id, u, Withdrawable(p))], payouts := b.payouts[id := Unpaid])
  }

  /** Where the row of a posting is. */
  function RowOf(ledger: Postings, id: Id): Option<nat>
    ensures RowOf(ledger, id).Some? ==> RowOf(ledger, id).value < |ledger| && ledger[RowOf(ledger, id).value].id == id
    ensures RowOf(ledger, id).None? ==> forall i :: 0 <= i < |ledger| ==> ledger[i].id != id
  {
    if ledger == [] then None
    else if ledger[|ledger| - 1].id == id then Some(|ledger| - 1)
    else RowOf(ledger[..|ledger| - 1], id)
  }

  /** The treasury answers: sent, or failed. */
  function Answer(b: Bank, id: Id, ok: bool): Bank {
    if id !in b.payouts || !b.payouts[id].Unpaid? || RowOf(b.ledger, id).None? then b
    else if !ok then b.(payouts := b.payouts[id := Refused])
    else
      var row := b.ledger[RowOf(b.ledger, id).value];
      b.(payouts := b.payouts[id := Paid], sent := b.sent + [Transfer(row.user, row.cents)])
  }

  function Tagged(ledger: Postings, i: nat): Postings
    requires i < |ledger|
  {
    ledger[i := ledger[i].(tx := true)]
  }

  /** The row gets its hash, or is deleted. */
  function Resolve(b: Bank, id: Id): Bank {
    if id !in b.payouts || b.payouts[id].Unpaid? || RowOf(b.ledger, id).None? then b
    else
      var i := RowOf(b.ledger, id).value;
      b.(ledger := if b.payouts[id].Paid? then Tagged(b.ledger, i) else Without(b.ledger, i), payouts := b.payouts - {id})
  }

  // ---------------------------------------------------------------------------
  // Solvency
  // ---------------------------------------------------------------------------

  /** What a withdrawal has read so far is on the safe side of what is true now. */
  ghost predicate Cautious(b: Bank, u: Address, p: Phase) {
    match p
    case HasCreditsAgain(_, c) => c <= Credits(b.ledger, u)
    case HasBalance(_, x) => x <= Balance(b.ledger, u)
    case HasClock(_, x, t) => x <= Balance(b.ledger, u) && t <= b.now
    case HasHeld(_, x, h) => x - h <= Balance(b.ledger, u) - HeldCents(b.wins, b.payments, b.ledger, u, b.now)
    case _ => true
  }

  /** No player has less than is held of his winnings. */
  ghost predicate Solvent(b: Bank, u: Address) {
    && HeldCents(b.wins, b.payments, b.ledger, u, b.now) <= Balance(b.ledger, u)
    && (u in b.locks ==> Cautious(b, u, b.locks[u]))
  }

  lemma ReadKeepsSolvent(b: Bank, u: Address, v: Address)
    requires Solvent(b, v)
    ensures Solvent(Read(b, u), v)
  {
    hide Credits, Debits, HeldCents;
    if u == v && u in b.locks && b.locks[u].HasClock? {
      HoldsEnd(b.wins, b.payments, b.ledger, u, b.locks[u].clock, b.now);
    }
  }

  lemma CommitKeepsSolvent(b: Bank, u: Address, id: Id, v: Address)
    requires Solvent(b, v)
    ensures Solvent(Commit(b, u, id), v)
  {
    hide Credits, Debits, HeldCents;
    var b' := Commit(b, u, id);
    if b'.ledger != b.ledger {
      var p := Debit(id, u, Withdrawable(b.locks[u]));
      Appended(b.ledger, p, v, 0);
      HeldAppended(b.wins, b.payments, b.ledger, p, v, b.now);
    }
  }

  /** A debit is covered when it is committed, by what is there and not held then, however long ago the reads were. */
  lemma DebitIsCovered(b: Bank, u: Address, id: Id)
    requires Solvent(b, u) && Commit(b, u, id).ledger != b.ledger
    ensures 0 < Withdrawable(b.locks[u]) <= Balance(b.ledger, u) - HeldCents(b.wins, b.payments, b.ledger, u, b.now)
    ensures Commit(b, u, id).ledger == b.ledger + [Debit(id, u, Withdrawable(b.locks[u]))]
  {
    hide Credits, Debits, HeldCents;
  }

  /** The withdrawal of u has come this far. */
  function At(b: Bank, u: Address, p: Phase): Bank {
    b.(locks := b.locks[u := p])
  }

  lemma CommitAt(b: Bank, u: Address, id: Id, total: int, held: nat)
    requires u !in b.locks
    ensures Commit(At(b, u, HasHeld(total, total, held)), u, id)
            == if total > 0 && total > held && forall i :: 0 <= i < |b.ledger| ==> b.ledger[i].id != id
               then b.(ledger := b.ledger + [Debit(id, u, total - held)], payouts := b.payouts[id := Unpaid])
               else b
  {
    assert At(b, u, HasHeld(total, total, held)).locks - {u} == b.locks;
  }

  /** A withdrawal with nothing in between: all that is not held is debited, or nothing is; and the lock is gone. */
  lemma AloneItTakesAll(b: Bank, u: Address, id: Id)
    requires u !in b.locks
    ensures var asked := Read(Read(Read(Read(Read(Read(Lock(b, u), u), u), u), u), u), u);
            var total, held := Balance(b.ledger, u), HeldCents(b.wins, b.payments, b.ledger, u, b.now);
            Commit(asked, u, id)
            == if total > 0 && total > held && forall i :: 0 <= i < |b.ledger| ==> b.ledger[i].id != id
               then b.(ledger := b.ledger + [Debit(id, u, total - held)], payouts := b.payouts[id := Unpaid])
               else b
  {
    hide Credits, Debits, HeldCents, Read, Commit, At;
    assert Lock(b, u) == At(b, u, Locked) by { LockAt(b, u); }
    var c, total, held := Credits(b.ledger, u), Balance(b.ledger, u), HeldCents(b.wins, b.payments, b.ledger, u, b.now);
    ReadOn(b, u, Locked, HasCredits(c));
    ReadOn(b, u, HasCredits(c), HasTotal(total));
    ReadOn(b, u, HasTotal(total), HasCreditsAgain(total, c));
    ReadOn(b, u, HasCreditsAgain(total, c), HasBalance(total, total));
    ReadOn(b, u, HasBalance(total, total), HasClock(total, total, b.now));
    ReadOn(b, u, HasClock(total, total, b.now), HasHeld(total, total, held));
    CommitAt(b, u, id, total, held);
  }

  lemma LockAt(b: Bank, u: Address)
    requires u !in b.locks
    ensures Lock(b, u) == At(b, u, Locked)
  {}

  lemma ReadOn(b: Bank, u: Address, p: Phase, next: Phase)
    requires NextRead(b, u, p) == Some(next)
    ensures Read(At(b, u, p), u) == At(b, u, next)
  {
    hide Credits, Debits, HeldCents;
    assert b.locks[u := p][u := next] == b.locks[u := next];
  }

  lemma TimeKeepsSolvent(b: Bank, later: nat, v: Address)
    requires Solvent(b, v) && b.now <= later
    ensures Solvent(b.(now := later), v)
  {
    hide Credits, Debits, HeldCents;
    HoldsEnd(b.wins, b.payments, b.ledger, v, b.now, later);
  }

  // ---------------------------------------------------------------------------
  // No transfer without a debit
  // ---------------------------------------------------------------------------

  function SentTo(sent: seq<Transfer>, u: Address): nat {
    if sent == [] then 0
    else
      var n := |sent| - 1;
      SentTo(sent[..n], u) + if sent[n].user == u then sent[n].cents else 0
  }

  /** A withdrawal whose transfer is under way counts as gone unless it waits for the treasury or was refused. */
  predicate Gone(p: Posting, payouts: map<Id, Payout>) {
    p.kind.Withdrawal? && (p.id in payouts ==> payouts[p.id].Paid?)
  }

  function GoneCents(ledger: Postings, payouts: map<Id, Payout>, u: Address): nat {
    if ledger == [] then 0
    else
      var n := |ledger| - 1;
      GoneCents(ledger[..n], payouts, u) + if ledger[n].user == u && Gone(ledger[n], payouts) then ledger[n].cents else 0
  }

  ghost predicate IdsDiffer(ledger: Postings) {
    forall i, j :: 0 <= i < j < |ledger| ==> ledger[i].id != ledger[j].id
  }

  /** Every open payout is a debit without a hash, and every debit without a hash is an open payout. */
  ghost predicate PayoutsOk(ledger: Postings, payouts: map<Id, Payout>) {
    && (forall id :: id in payouts ==> exists i :: 0 <= i < |ledger| && ledger[i].id == id)
    && (forall i :: 0 <= i < |ledger| ==> (ledger[i].id in payouts <==> ledger[i].kind.Withdrawal? && !ledger[i].tx))
  }

  ghost predicate Accounted(b: Bank) {
    && IdsDiffer(b.ledger)
    && PayoutsOk(b.ledger, b.payouts)
    && forall u :: SentTo(b.sent, u) == GoneCents(b.ledger, b.payouts, u)
  }

  lemma {:induction false} GoneWithinDebits(ledger: Postings, payouts: map<Id, Payout>, u: Address)
    ensures GoneCents(ledger, payouts, u) <= Debits(ledger, u)
    decreases |ledger|
  {
    if ledger != [] { GoneWithinDebits(ledger[..|ledger| - 1], payouts, u); }
  }

  lemma GoneAppended(ledger: Postings, p: Posting, payouts: map<Id, Payout>, u: Address)
    ensures GoneCents(ledger + [p], payouts, u) == GoneCents(ledger, payouts, u) + if p.user == u && Gone(p, payouts) then p.cents else 0
  {
    assert (ledger + [p])[..|ledger|] == ledger;
  }

  /** Only the rows of the payouts that change count differently. */
  lemma {:induction false} GoneUnchanged(ledger: Postings, payouts: map<Id, Payout>, payouts': map<Id, Payout>, u: Address)
    requires forall i :: 0 <= i < |ledger| ==> Gone(ledger[i], payouts) == Gone(ledger[i], payouts')
    ensures GoneCents(ledger, payouts, u) == GoneCents(ledger, payouts', u)
    decreases |ledger|
  {
    if ledger != [] { GoneUnchanged(ledger[..|ledger| - 1], payouts, payouts', u); }
  }

  lemma {:induction false} GoneNow(ledger: Postings, payouts: map<Id, Payout>, payouts': map<Id, Payout>, i: nat, u: Address)
    requires IdsDiffer(ledger) && i < |ledger| && payouts' == payouts[ledger[i].id := Paid]
    requires !Gone(ledger[i], payouts) && ledger[i].kind.Withdrawal?
    ensures GoneCents(ledger, payouts', u) == GoneCents(ledger, payouts, u) + if ledger[i].user == u then ledger[i].cents else 0
    decreases |ledger|
  {
    var n := |ledger| - 1;
    if i == n {
      GoneUnchanged(ledger[..n], payouts, payouts', u);
    } else {
      GoneNow(ledger[..n], payouts, payouts', i, u);
    }
  }

  lemma {:induction false} GoneDeleted(ledger: Postings, payouts: map<Id, Payout>, i: nat, u: Address)
    requires i < |ledger| && !Gone(ledger[i], payouts)
    ensures GoneCents(Without(ledger, i), payouts, u) == GoneCents(ledger, payouts, u)
    decreases |ledger|
  {
    hide Without;
    var n := |ledger| - 1;
    WithoutEarlier(ledger, i);
    if i < n {
      GoneDeleted(ledger[..n], payouts, i, u);
      GoneAppended(Without(ledger[..n], i), ledger[n], payouts, u);
    }
  }

  lemma {:induction false} TagChangesNoSum(ledger: Postings, i: nat, payouts: map<Id, Payout>, u: Address, w: Id)
    requires i < |ledger|
    ensures var tagged := Tagged(ledger, i);
            && Credits(tagged, u) == Credits(ledger, u) && Debits(tagged, u) == Debits(ledger, u)
            && WinCredits(tagged, w) == WinCredits(ledger, w)
            && GoneCents(tagged, payouts, u) == GoneCents(ledger, payouts, u)
    decreases |ledger|
  {
    var n := |ledger| - 1;
    var tagged := Tagged(ledger, i);
    if i == n {
      assert tagged[..n] == ledger[..n];
    } else {
      TagChangesNoSum(ledger[..n], i, payouts, u, w);
      assert tagged[..n] == Tagged(ledger[..n], i);
    }
  }

  lemma {:induction false} TagChangesNoHold(ledger: Postings, i: nat, wins: map<Id, Win>, payments: Pays, u: Address, now: nat)
    requires i < |ledger|
    ensures HeldCents(wins, payments, Tagged(ledger, i), u, now) == HeldCents(wins, payments, ledger, u, now)
    decreases |ledger|
  {
    hide Joined, IsCredit;
    var n := |ledger| - 1;
    var tagged := Tagged(ledger, i);
    if i == n {
      assert tagged[..n] == ledger[..n];
    } else {
      TagChangesNoHold(ledger[..n], i, wins, payments, u, now);
      assert tagged[..n] == Tagged(ledger[..n], i);
    }
  }

  lemma CommitKeepsAccounted(b: Bank, u: Address, id: Id)
    requires Accounted(b)
    ensures Accounted(Commit(b, u, id))
  {
    hide GoneCents;
    var b' := Commit(b, u, id);
    if b'.ledger != b.ledger {
      var p := Debit(id, u, Withdrawable(b.locks[u]));
      forall v
        ensures GoneCents(b'.ledger, b'.payouts, v) == GoneCents(b.ledger, b.payouts, v)
      {
        GoneUnchanged(b.ledger, b.payouts, b'.payouts, v);
        GoneAppended(b.ledger, p, b'.payouts, v);
      }
      PayoutsOpened(b.ledger, b.payouts, p);
    }
  }

  lemma PayoutsOpened(ledger: Postings, payouts: map<Id, Payout>, p: Posting)
    requires PayoutsOk(ledger, payouts) && IdsDiffer(ledger) && p.kind.Withdrawal? && !p.tx
    requires forall i :: 0 <= i < |ledger| ==> ledger[i].id != p.id
    ensures PayoutsOk(ledger + [p], payouts[p.id := Unpaid]) && IdsDiffer(ledger + [p])
  {
    var ledger', payouts' := ledger + [p], payouts[p.id := Unpaid];
    forall id | id in payouts'
      ensures exists i :: 0 <= i < |ledger'| && ledger'[i].id == id
    {
      if id == p.id {
        assert ledger'[|ledger|].id == id;
      } else {
        var i :| 0 <= i < |ledger| && ledger[i].id == id;
        assert ledger'[i].id == id;
      }
    }
  }

  lemma AnswerKeepsAccounted(b: Bank, id: Id, ok: bool)
    requires Accounted(b)
    ensures Accounted(Answer(b, id, ok))
  {
    hide GoneCents;
    var b' := Answer(b, id, ok);
    if b' != b {
      var i := RowOf(b.ledger, id).value;
      forall v
        ensures SentTo(b'.sent, v) == GoneCents(b'.ledger, b'.payouts, v)
      {
        if ok {
          assert b'.sent[..|b.sent|] == b.sent;
          GoneNow(b.ledger, b.payouts, b'.payouts, i, v);
        } else {
          GoneUnchanged(b.ledger, b.payouts, b'.payouts, v);
        }
      }
    }
  }

  lemma ResolveKeepsAccounted(b: Bank, id: Id)
    requires Accounted(b)
    ensures Accounted(Resolve(b, id))
  {
    hide GoneCents, Without, Tagged;
    var b' := Resolve(b, id);
    if b' != b {
      var i := RowOf(b.ledger, id).value;
      if b.payouts[id].Paid? {
        TaggedRows(b.ledger, b.payouts, i);
      } else {
        DeletedRows(b.ledger, b.payouts, i);
      }
      forall v
        ensures GoneCents(b'.ledger, b'.payouts, v) == GoneCents(b.ledger, b.payouts, v)
      {
        if b.payouts[id].Paid? {
          TagChangesNoSum(b.ledger, i, b.payouts, v, 0);
        } else {
          GoneDeleted(b.ledger, b.payouts, i, v);
        }
        GoneUnchanged(b'.ledger, b.payouts, b'.payouts, v);
      }
    }
  }

  lemma TaggedRows(ledger: Postings, payouts: map<Id, Payout>, i: nat)
    requires i < |ledger| && IdsDiffer(ledger) && PayoutsOk(ledger, payouts) && ledger[i].id in payouts && payouts[ledger[i].id].Paid?
    ensures var ledger', payouts' := Tagged(ledger, i), payouts - {ledger[i].id};
            && IdsDiffer(ledger') && PayoutsOk(ledger', payouts')
            && forall k :: 0 <= k < |ledger'| ==> Gone(ledger'[k], payouts) == Gone(ledger'[k], payouts')
  {
    var ledger', payouts' := Tagged(ledger, i), payouts - {ledger[i].id};
    forall id | id in payouts'
      ensures exists k :: 0 <= k < |ledger'| && ledger'[k].id == id
    {
      var k :| 0 <= k < |ledger| && ledger[k].id == id;
      assert ledger'[k].id == id;
    }
  }

  lemma WithoutAt(ledger: Postings, i: nat)
    requires i < |ledger|
    ensures |Without(ledger, i)| == |ledger| - 1
    ensures forall k :: 0 <= k < |ledger| - 1 ==> Without(ledger, i)[k] == ledger[if k < i then k else k + 1]
  {}

  lemma DeletedRows(ledger: Postings, payouts: map<Id, Payout>, i: nat)
    requires i < |ledger| && IdsDiffer(ledger) && PayoutsOk(ledger, payouts) && ledger[i].id in payouts
    ensures var ledger', payouts' := Without(ledger, i), payouts - {ledger[i].id};
            && IdsDiffer(ledger') && PayoutsOk(ledger', payouts')
            && forall k :: 0 <= k < |ledger'| ==> Gone(ledger'[k], payouts) == Gone(ledger'[k], payouts')
  {
    hide Without;
    var ledger', payouts' := Without(ledger, i), payouts - {ledger[i].id};
    WithoutAt(ledger, i);
    forall id | id in payouts'
      ensures exists k :: 0 <= k < |ledger'| && ledger'[k].id == id
    {
      var k :| 0 <= k < |ledger| && ledger[k].id == id;
      assert ledger'[if k < i then k else k - 1].id == id;
    }
  }

  /** Another transaction posts one credit, or none. */
  lemma CreditKeepsAccounted(b: Bank, p: Posting)
    requires Accounted(b) && !p.kind.Withdrawal? && forall i :: 0 <= i < |b.ledger| ==> b.ledger[i].id != p.id
    ensures Accounted(b.(ledger := b.ledger + [p]))
  {
    hide GoneCents;
    var ledger' := b.ledger + [p];
    forall id | id in b.payouts
      ensures exists i :: 0 <= i < |ledger'| && ledger'[i].id == id
    {
      var i :| 0 <= i < |b.ledger| && b.ledger[i].id == id;
      assert ledger'[i].id == id;
    }
    forall v
      ensures GoneCents(ledger', b.payouts, v) == GoneCents(b.ledger, b.payouts, v)
    {
      GoneAppended(b.ledger, p, b.payouts, v);
    }
  }

  /** What is newly held is newly credited, and the debits stay. */
  lemma AccrualKeepsSolvent(b: Bank, b': Bank, v: Address)
    requires Solvent(b, v) && b'.locks == b.locks && b'.now == b.now
    requires Debits(b'.ledger, v) == Debits(b.ledger, v) && Credits(b'.ledger, v) >= Credits(b.ledger, v)
    requires HeldCents(b'.wins, b'.payments, b'.ledger, v, b.now) - HeldCents(b.wins, b.payments, b.ledger, v, b.now)
             <= Credits(b'.ledger, v) - Credits(b.ledger, v)
    ensures Solvent(b', v)
  {
    hide Credits, Debits, HeldCents;
  }

  lemma ResolveKeepsSolvent(b: Bank, id: Id, v: Address)
    requires Solvent(b, v) && PayoutsOk(b.ledger, b.payouts) && PostingsRefer(b.wins, b.ledger)
    ensures Solvent(Resolve(b, id), v)
  {
    hide Credits, Debits, HeldCents, Without, Tagged, PayoutsOk, PostingsRefer;
    var b' := Resolve(b, id);
    if b' != b {
      var i := RowOf(b.ledger, id).value;
      RowIsDebit(b.wins, b.ledger, b.payouts, i);
      if b.payouts[id].Paid? {
        TagChangesNoSum(b.ledger, i, b.payouts, v, 0);
        TagChangesNoHold(b.ledger, i, b.wins, b.payments, v, b.now);
      } else {
        Deleted(b.ledger, i, v, 0);
        HeldDeleted(b.wins, b.payments, b.ledger, i, v, b.now);
      }
    }
  }

  lemma TaggedRefer(wins: map<Id, Win>, ledger: Postings, i: nat)
    requires PostingsRefer(wins, ledger) && i < |ledger|
    ensures PostingsRefer(wins, Tagged(ledger, i))
  {}

  lemma WithoutRefer(wins: map<Id, Win>, ledger: Postings, i: nat)
    requires PostingsRefer(wins, ledger) && i < |ledger|
    ensures PostingsRefer(wins, Without(ledger, i))
  {
    hide Without;
    WithoutAt(ledger, i);
  }

  lemma RowIsDebit(wins: map<Id, Win>, ledger: Postings, payouts: map<Id, Payout>, i: nat)
    requires PayoutsOk(ledger, payouts) && PostingsRefer(wins, ledger) && i < |ledger| && ledger[i].id in payouts
    ensures ledger[i].kind.Withdrawal? && ledger[i].win.None?
  {}

  /** Resolving a payout concerns no win. */
  lemma ResolveKeepsWinCredits(b: Bank, id: Id, w: Id)
    requires PayoutsOk(b.ledger, b.payouts) && PostingsRefer(b.wins, b.ledger)
    ensures WinCredits(Resolve(b, id).ledger, w) == WinCredits(b.ledger, w)
    ensures PostingsRefer(b.wins, Resolve(b, id).ledger)
  {
    hide WinCredits, PayoutsOk, PostingsRefer, Without, Tagged;
    if Resolve(b, id) != b {
      var i := RowOf(b.ledger, id).value;
      RowIsDebit(b.wins, b.ledger, b.payouts, i);
      if b.payouts[id].Paid? {
        TaggedRefer(b.wins, b.ledger, i);
        TagChangesNoSum(b.ledger, i, map[], "", w);
      } else {
        WithoutRefer(b.wins, b.ledger, i);
        Deleted(b.ledger, i, "", w);
      }
    }
  }

  /**
   * Safety: what was sent to a player and what is held of his winnings is never more than he was credited; so his
   * balance is never negative and no held cent ever leaves.
   */
  lemma NeverOverdrawn(b: Bank, u: Address)
    requires Solvent(b, u) && Accounted(b)
    ensures SentTo(b.sent, u) + HeldCents(b.wins, b.payments, b.ledger, u, b.now) <= Credits(b.ledger, u)
    ensures Balance(b.ledger, u) >= HeldCents(b.wins, b.payments, b.ledger, u, b.now) >= 0
  {
    hide Credits, Debits, HeldCents, GoneCents;
    GoneWithinDebits(b.ledger, b.payouts, u);
  }
}

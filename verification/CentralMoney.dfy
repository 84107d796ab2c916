/** Money in every run of the central server: the ledger, the withdrawals, the holds. */
module CentralMoney {
  import opened Tables
  import opened Inventory
  import opened Ledger
  import opened Withdrawals
  import opened Transactions
  import opened Central
  import Prizes
  import Payments

  ghost predicate Sound(w: World) {
    && Conserved(w.db.wins, w.db.ledger)
    && Accounted(BankOf(w))
    && forall u :: Solvent(BankOf(w), u)
  }

  lemma SameMoney(w: World, w': World)
    requires Sound(w) && BankOf(w') == BankOf(w)
    ensures Sound(w')
  {
    hide Conserved, Accounted, Solvent;
    assert BankOf(w').wins == BankOf(w).wins && BankOf(w').ledger == BankOf(w).ledger;
  }

  lemma PassKeepsMoney(w: World, seconds: nat)
    requires Sound(w)
    ensures Sound(w.(now := w.now + seconds))
  {
    hide Conserved, Solvent;
    var w' := w.(now := w.now + seconds);
    assert BankOf(w') == BankOf(w).(now := w.now + seconds);
    forall u
      ensures Solvent(BankOf(w'), u)
    {
      TimeKeepsSolvent(BankOf(w), w.now + seconds, u);
    }
  }

  lemma TxKeepsAccounted(w: World, tx: Tx)
    requires Accounted(BankOf(w))
    ensures Accounted(BankOf(w.(db := After(w.db, tx, w.now))))
  {
    hide After, Accounted;
    TouchedAtMost(w.db, tx, w.now);
    var db' := After(w.db, tx, w.now);
    var b' := BankOf(w.(db := db'));
    if db'.ledger == w.db.ledger {
      SameAccounts(BankOf(w), b');
    } else {
      var p: Posting :| IsCredit(p.kind) && Prizes.PostingFree(w.db.ledger, p.id) && db'.ledger == w.db.ledger + [p];
      CreditKeepsAccounted(BankOf(w), p);
      SameAccounts(BankOf(w).(ledger := w.db.ledger + [p]), b');
    }
  }

  lemma SameAccounts(b: Bank, b': Bank)
    requires Accounted(b) && b'.ledger == b.ledger && b'.payouts == b.payouts && b'.sent == b.sent
    ensures Accounted(b')
  {}

  lemma TxKeepsMoney(w: World, tx: Tx)
    requires Stocked(w) && Sound(w)
    ensures Sound(w.(db := After(w.db, tx, w.now)))
  {
    hide After, Accounted, Solvent, Payments.Funded, Payments.KeysDiffer, PostingsRefer, WinCredits,
         BallsOk, BallsDiffer, BoostersOk, BoostersDiffer, BoostersHeld, CardsOk, CardsHeld, WinsRefer, WinsDiffer, FlightsOk;
    var w' := w.(db := After(w.db, tx, w.now));
    TxKeepsConserved(w.db, tx, w.now);
    TxKeepsAccounted(w, tx);
    forall u
      ensures Solvent(BankOf(w'), u)
    {
      TxAccrues(w.db, tx, w.now, u, w.now);
      AccrualKeepsSolvent(BankOf(w), BankOf(w'), u);
    }
  }

  // ---------------------------------------------------------------------------
  // A new win
  // ---------------------------------------------------------------------------

  lemma NewWinConserves(wins: map<Id, Win>, ledger: Postings, id: Id, win: Win)
    requires Conserved(wins, ledger) && id !in wins && win.status.Pending?
    ensures Conserved(wins[id := win], ledger)
  {
    NoCreditsYet(wins, ledger, id);
  }

  lemma NewWinHolds(wins: map<Id, Win>, payments: Payments.Pays, id: Id, win: Win)
    requires id !in wins
    ensures SameHolds(wins, payments, wins[id := win], payments)
  {}

  lemma ClaimKeepsMoney(w: World, task: nat, id: Id)
    requires Sound(w)
    ensures Sound(Claimed(w, task, id))
  {
    hide Accounted, Solvent, Conserved, SameHolds, Prizes.Claim;
    var w' := Claimed(w, task, id);
    if task in w.claims && ClaimOf(w, task, id).Good? {
      var c := w.claims[task];
      ClaimTouches(w.db, c.serial, c.ball, c.user, c.entry, w.now, id);
      NewWinConserves(w.db.wins, w.db.ledger, id, w'.db.wins[id]);
      NewWinHolds(w.db.wins, w.db.payments, id, w'.db.wins[id]);
      SameAccounts(BankOf(w), BankOf(w'));
      assert PostingsRefer(w.db.wins, w.db.ledger) by { ConservedRefers(w); }
      forall u
        ensures Solvent(BankOf(w'), u)
      {
        HeldUnchanged(w.db.wins, w.db.payments, w'.db.wins, w'.db.payments, w.db.ledger, u, w.now);
        AccrualKeepsSolvent(BankOf(w), BankOf(w'), u);
      }
    } else {
      SameMoney(w, w');
    }
  }

  lemma ConservedRefers(w: World)
    requires Conserved(w.db.wins, w.db.ledger)
    ensures PostingsRefer(w.db.wins, w.db.ledger)
  {}

  // ---------------------------------------------------------------------------
  // Withdrawals
  // ---------------------------------------------------------------------------

  /** The ledger changes, but not what is credited to wins. */
  lemma SameWinCredits(wins: map<Id, Win>, ledger: Postings, ledger': Postings)
    requires Conserved(wins, ledger) && PostingsRefer(wins, ledger')
    requires forall v :: v in wins ==> WinCredits(ledger', v) == WinCredits(ledger, v)
    ensures Conserved(wins, ledger')
  {}

  lemma DebitKeepsConserved(w: World, u: Address, id: Id)
    requires Conserved(w.db.wins, w.db.ledger)
    ensures Conserved(w.db.wins, Withdrawals.Commit(BankOf(w), u, id).ledger)
  {
    hide Conserved;
    if Withdrawals.Commit(BankOf(w), u, id).ledger != w.db.ledger {
      UnlinkedKeeps(w.db.wins, w.db.ledger, Debit(id, u, Withdrawable(w.locks[u])));
    }
  }

  lemma ResolveKeepsConserved(w: World, id: Id)
    requires Conserved(w.db.wins, w.db.ledger) && Accounted(BankOf(w))
    ensures Conserved(w.db.wins, Resolve(BankOf(w), id).ledger)
  {
    hide Resolve, WinCredits;
    var ledger' := Resolve(BankOf(w), id).ledger;
    forall v
      ensures WinCredits(ledger', v) == WinCredits(w.db.ledger, v)
    {
      ResolveKeepsWinCredits(BankOf(w), id, v);
    }
    ResolveKeepsWinCredits(BankOf(w), id, 0);
    SameWinCredits(w.db.wins, w.db.ledger, ledger');
  }

  /** What a step of a withdrawal leaves alone. */
  lemma BankStepTouches(b: Bank, u: Address, id: Id, ok: bool)
    ensures Lock(b, u) == b.(locks := Lock(b, u).locks)
    ensures Read(b, u) == b.(locks := Read(b, u).locks)
    ensures Answer(b, id, ok) == b.(payouts := Answer(b, id, ok).payouts, sent := Answer(b, id, ok).sent)
    ensures Withdrawals.Commit(b, u, id) == b.(locks := Withdrawals.Commit(b, u, id).locks,
              ledger := Withdrawals.Commit(b, u, id).ledger, payouts := Withdrawals.Commit(b, u, id).payouts)
    ensures Resolve(b, id) == b.(ledger := Resolve(b, id).ledger, payouts := Resolve(b, id).payouts)
  {}

  lemma WithBankHolds(w: World, b: Bank)
    requires b.wins == w.db.wins && b.payments == w.db.payments && b.now == w.now
    requires Conserved(b.wins, b.ledger) && Accounted(b) && forall u :: Solvent(b, u)
    ensures Sound(WithBank(w, b))
  {
    assert BankOf(WithBank(w, b)) == b;
  }

  lemma LockKeepsMoney(w: World, u: Address)
    requires Sound(w)
    ensures Sound(WithBank(w, Lock(BankOf(w), u)))
  {
    hide Conserved, Accounted, Solvent, Lock, WithBank;
    var b := BankOf(w);
    BankStepTouches(b, u, 0, true);
    SameAccounts(b, Lock(b, u));
    forall v
      ensures Solvent(Lock(b, u), v)
    {
      LockKeepsSolvent(b, u, v);
    }
    WithBankHolds(w, Lock(b, u));
  }

  lemma ReadKeepsMoney(w: World, u: Address)
    requires Sound(w)
    ensures Sound(WithBank(w, Read(BankOf(w), u)))
  {
    hide Conserved, Accounted, Solvent, Read, WithBank;
    var b := BankOf(w);
    BankStepTouches(b, u, 0, true);
    SameAccounts(b, Read(b, u));
    forall v
      ensures Solvent(Read(b, u), v)
    {
      ReadKeepsSolvent(b, u, v);
    }
    WithBankHolds(w, Read(b, u));
  }

  lemma DebitKeepsMoney(w: World, u: Address, id: Id)
    requires Sound(w)
    ensures Sound(WithBank(w, Withdrawals.Commit(BankOf(w), u, id)))
  {
    hide Conserved, Accounted, Solvent, Withdrawals.Commit, WithBank;
    var b := BankOf(w);
    BankStepTouches(b, u, id, true);
    DebitKeepsConserved(w, u, id);
    CommitKeepsAccounted(b, u, id);
    forall v
      ensures Solvent(Withdrawals.Commit(b, u, id), v)
    {
      CommitKeepsSolvent(b, u, id, v);
    }
    WithBankHolds(w, Withdrawals.Commit(b, u, id));
  }

  lemma AnswerKeepsMoney(w: World, id: Id, ok: bool)
    requires Sound(w)
    ensures Sound(WithBank(w, Answer(BankOf(w), id, ok)))
  {
    hide Conserved, Accounted, Solvent, Answer, WithBank;
    var b := BankOf(w);
    BankStepTouches(b, "", id, ok);
    AnswerKeepsAccounted(b, id, ok);
    forall v
      ensures Solvent(Answer(b, id, ok), v)
    {
      AnswerKeepsSolvent(b, id, ok, v);
    }
    WithBankHolds(w, Answer(b, id, ok));
  }

  lemma ResolveKeepsMoney(w: World, id: Id)
    requires Sound(w)
    ensures Sound(WithBank(w, Resolve(BankOf(w), id)))
  {
    hide Conserved, Accounted, Solvent, Resolve, WithBank;
    var b := BankOf(w);
    BankStepTouches(b, "", id, true);
    ResolveKeepsConserved(w, id);
    ResolveKeepsAccounted(b, id);
    forall v
      ensures Solvent(Resolve(b, id), v)
    {
      ResolveSolvent(w, id, v);
    }
    WithBankHolds(w, Resolve(b, id));
  }

  lemma BankStepKeepsMoney(w: World, step: Step)
    requires Sound(w) && IsBankStep(step)
    ensures Sound(Do(w, step))
  {
    hide Sound, Lock, Read, Withdrawals.Commit, Answer, Resolve, WithBank, BankOf;
    match step
    case LockUser(u) => LockKeepsMoney(w, u);
    case ReadNext(u) => ReadKeepsMoney(w, u);
    case CommitDebit(u, id) => DebitKeepsMoney(w, u, id);
    case Answered(id, ok) => AnswerKeepsMoney(w, id, ok);
    case ResolveDebit(id) => ResolveKeepsMoney(w, id);
  }

  lemma LockKeepsSolvent(b: Bank, u: Address, v: Address)
    requires Solvent(b, v)
    ensures Solvent(Lock(b, u), v)
  {}

  lemma AnswerKeepsSolvent(b: Bank, id: Id, ok: bool, v: Address)
    requires Solvent(b, v)
    ensures Solvent(Answer(b, id, ok), v)
  {}

  lemma ResolveSolvent(w: World, id: Id, v: Address)
    requires Solvent(BankOf(w), v) && Accounted(BankOf(w)) && Conserved(w.db.wins, w.db.ledger)
    ensures Solvent(Resolve(BankOf(w), id), v)
  {
    hide Solvent, Resolve;
    ResolveKeepsSolvent(BankOf(w), id, v);
  }

  /** Steps of a turn that touch the queue and the turn only. */
  lemma TurnStepIsNoMoney(w: World, step: Step)
    requires !IsBankStep(step) && !step.Commit? && !step.Pass? && !step.ClaimPrize?
    ensures BankOf(Do(w, step)) == BankOf(w)
  {
    hide Marking, Grabbing, Judging, Unreserved, Released, WithBank;
    match step
    case MarkWin(task) => MarkingIsNoMoney(w, task);
    case GrabBall(task) => GrabbingIsNoMoney(w, task);
    case ReserveFails(task) => UnreservedIsNoMoney(w, task);
    case _ => if IsQuiet(step) { hide Do; QuietStepTouches(w, step); }
  }

  /** Every step keeps the ledger conserved, every transfer accounted for and every player solvent. */
  lemma StepKeepsMoney(w: World, step: Step)
    requires Stocked(w) && Sound(w)
    ensures Sound(Do(w, step))
  {
    hide Stocked, Sound, After, BankOf, Claimed;
    if IsBankStep(step) {
      hide Do;
      BankStepKeepsMoney(w, step);
    } else if step.Commit? {
      TxKeepsMoney(w, step.tx);
    } else if step.Pass? {
      PassKeepsMoney(w, step.seconds);
    } else if step.ClaimPrize? {
      ClaimKeepsMoney(w, step.task, step.id);
    } else {
      hide Do;
      TurnStepIsNoMoney(w, step);
      SameMoney(w, Do(w, step));
    }
  }

  lemma MarkingIsNoMoney(w: World, task: nat)
    ensures BankOf(Marking(w, task)) == BankOf(w)
  {
    hide HasKey;
  }

  lemma UnreservedIsNoMoney(w: World, task: nat)
    ensures BankOf(Unreserved(w, task)) == BankOf(w)
  {}

  lemma GrabbingIsNoMoney(w: World, task: nat)
    ensures BankOf(Grabbing(w, task)) == BankOf(w)
  {}
}

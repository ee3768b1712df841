/** No interleaving overdraws an organisation. */
module Solvency {
  import opened Ledger
  import opened Batches
  import opened CreditProtocol

  /** A debit past its lock step is the one holder of its organisation's lock. */
  ghost predicate LocksHeld(w: World) {
    forall tx :: tx in w.debits && Holds(w.debits[tx].phase) ==>
      w.debits[tx].org in w.locks && w.locks[w.debits[tx].org] == tx
  }

  /** Balances are non-negative, and a balance read under the lock still covers its debit. */
  ghost predicate Solvent(w: World) {
    && (forall org: Uuid :: Balance(w.db.ledger, org) >= 0)
    && (forall tx :: tx in w.debits && w.debits[tx].phase == BalanceRead ==>
          Cost(w.debits[tx].kind) <= Balance(w.db.ledger, w.debits[tx].org))
  }

  lemma OthersKeepDebits(w: World, e: Event)
    requires !e.OnDebit?
    ensures Step(w, e).debits == w.debits && Step(w, e).locks == w.locks
  {
    hide RouteStep;
    hide JobStep;
    hide BatchStep;
  }

  lemma CloseKeepsLocks(w: World, tx: nat)
    requires LocksHeld(w) && tx in w.debits
    ensures LocksHeld(Close(w, tx))
  {
  }

  lemma DebitKeepsLocks(w: World, tx: nat, op: DebitOp)
    requires LocksHeld(w)
    ensures LocksHeld(DebitStep(w, tx, op))
  {
    if !op.Call? && tx in w.debits {
      CloseKeepsLocks(w, tx);
      if op.Commit? { CommitWritesDebit(w, tx); }
    }
  }

  /** Outside a commit the ledger only ever gains credits. */
  ghost predicate GainsCredit(l: seq<Entry>, l': seq<Entry>) {
    l' == l || exists e: Entry :: e.delta >= 0 && l' == l + [e]
  }

  lemma JobGainsCredit(w: World, k: nat, op: JobOp)
    ensures GainsCredit(w.db.ledger, JobStep(w, k, op).db.ledger)
  {
    if !op.ClaimJob? && k in w.workers {
      var j := w.workers[k];
      FailRefunds(w.db, j.batch, j.org, j.totalRows, w.clock);
      if op.Settle? && op.charged <= j.totalRows {
        CompleteRefunds(w.db, j.batch, j.org, op.charged, j.totalRows, j.retentionDays, w.clock);
      }
      if op.Settle? || op.FailJob? {
        assert RefundsAtMost(w.db.ledger, JobStep(w, k, op).db.ledger, j.org, j.batch, j.totalRows);
      }
    }
  }

  lemma OthersGainCredit(w: World, e: Event)
    requires !e.OnDebit?
    ensures GainsCredit(w.db.ledger, Step(w, e).db.ledger)
  {
    match e
    case OnJob(k, op) => JobGainsCredit(w, k, op);
    case OnRoute(id, _) =>
      if id in w.receipts { FailRefunds(w.db, id, w.receipts[id].org, w.receipts[id].totalRows, w.clock); }
    case OnBatch(id, op) => if op.DeleteFor? { DeleteRefunds(w.db, id, op.org, w.clock); }
    case _ =>
  }

  lemma OnlyCommitWritesDebits(w: World, tx: nat, op: DebitOp)
    requires !op.Commit?
    ensures DebitStep(w, tx, op).db.ledger == w.db.ledger
  {
  }

  lemma CommitWritesDebit(w: World, tx: nat)
    requires tx in w.debits
    ensures var w' := CommitStep(w, tx);
      w' == w || (w'.debits == w.debits - {tx} && w'.locks == Close(w, tx).locks
                  && (w'.db.ledger == w.db.ledger || w'.db.ledger == w.db.ledger + [DebitEntry(w.debits[tx])]))
  {
  }

  lemma CreditsKeepSolvent(w: World, w': World)
    requires Solvent(w) && w'.debits == w.debits && GainsCredit(w.db.ledger, w'.db.ledger)
    ensures Solvent(w')
  {
    if w'.db.ledger != w.db.ledger {
      var e: Entry :| e.delta >= 0 && w'.db.ledger == w.db.ledger + [e];
      forall org: Uuid { BalanceAppend(w.db.ledger, e, org); }
    }
  }

  lemma CommitKeepsSolvent(w: World, tx: nat)
    requires LocksHeld(w) && Solvent(w) && tx in w.debits
    ensures Solvent(CommitStep(w, tx))
  {
    CommitWritesDebit(w, tx);
    forall org: Uuid { BalanceAppend(w.db.ledger, DebitEntry(w.debits[tx]), org); }
  }

  lemma DebitKeepsSolvent(w: World, tx: nat, op: DebitOp)
    requires LocksHeld(w) && Solvent(w)
    ensures Solvent(DebitStep(w, tx, op))
  {
    if op.Commit? {
      if tx in w.debits { CommitKeepsSolvent(w, tx); }
    } else {
      OnlyCommitWritesDebits(w, tx, op);
    }
  }

  lemma StepKeepsSolvent(w: World, e: Event)
    requires LocksHeld(w) && Solvent(w)
    ensures LocksHeld(Step(w, e)) && Solvent(Step(w, e))
  {
    if e.OnDebit? {
      DebitKeepsLocks(w, e.tx, e.debit);
      DebitKeepsSolvent(w, e.tx, e.debit);
    } else {
      OthersKeepDebits(w, e);
      OthersGainCredit(w, e);
      CreditsKeepSolvent(w, Step(w, e));
    }
  }

  lemma {:induction false} RunKeepsSolvent(w: World, events: seq<Event>)
    requires LocksHeld(w) && Solvent(w)
    ensures LocksHeld(Run(w, events)) && Solvent(Run(w, events))
    decreases |events|
  {
    if events != [] {
      StepKeepsSolvent(w, events[0]);
      RunKeepsSolvent(Step(w, events[0]), events[1..]);
    }
  }

  /** In every run every organisation's SUM(delta) stays at or above zero. */
  lemma NeverOverdrawn(orgs: map<Uuid, Org>, events: seq<Event>, org: Uuid)
    ensures Balance(Run(Start(orgs), events).db.ledger, org) >= 0
  {
    RunKeepsSolvent(Start(orgs), events);
  }
}

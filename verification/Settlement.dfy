/**
 What a batch costs, over every run: at most one refund, never more than the
 reservation; and, when commits and publishes are reported faithfully, exactly
 what its status says.
 */
module Settlement {
  import opened Prelude
  import opened Ledger
  import opened Batches
  import opened CreditProtocol

  // ------------------------------------------------------------ the ledger

  /** Reserved once, refunded between nothing and everything. */
  ghost predicate Account(l: seq<Entry>, org: Uuid, b: Uuid, totalRows: nat) {
    && HasReference(l, org, ById(b))
    && ReferenceSum(l, org, ById(b)) == -(totalRows as int)
    && 0 <= ReferenceSum(l, org, RefundOf(b)) <= totalRows
  }

  ghost predicate Refunded(l: seq<Entry>, org: Uuid, b: Uuid) {
    HasReference(l, org, RefundOf(b))
  }

  /** Nothing about batch `b` moved between two ledgers. */
  ghost predicate Untouched(l: seq<Entry>, l': seq<Entry>, org: Uuid, b: Uuid) {
    && (HasReference(l', org, ById(b)) <==> HasReference(l, org, ById(b)))
    && (Refunded(l', org, b) <==> Refunded(l, org, b))
    && ReferenceSum(l', org, ById(b)) == ReferenceSum(l, org, ById(b))
    && ReferenceSum(l', org, RefundOf(b)) == ReferenceSum(l, org, RefundOf(b))
  }

  /** Refunding one batch leaves every other one alone. */
  lemma RefundElsewhere(l: seq<Entry>, l': seq<Entry>, org: Uuid, id: Uuid, most: nat, org': Uuid, b: Uuid)
    requires RefundsAtMost(l, l', org, id, most) && (b != id || org' != org)
    ensures Untouched(l, l', org', b)
  {
    if l' != l {
      var amount: nat, now: nat :| amount <= most
        && Insert(l, Entry(org, amount, Refund, RefundOf(id), now)) == Some(l');
      var e := Entry(org, amount, Refund, RefundOf(id), now);
      ReferenceAppend(l, e, org', ById(b));
      ReferenceAppend(l, e, org', RefundOf(b));
    }
  }

  /** A refund of at most the reservation keeps the account in bounds. */
  lemma RefundKeepsAccount(l: seq<Entry>, l': seq<Entry>, org: Uuid, id: Uuid, totalRows: nat)
    requires Account(l, org, id, totalRows) && RefundsAtMost(l, l', org, id, totalRows)
    ensures Account(l', org, id, totalRows)
    ensures ReferenceSum(l', org, ById(id)) == ReferenceSum(l, org, ById(id))
  {
    if l' != l {
      var amount: nat, now: nat :| amount <= totalRows
        && Insert(l, Entry(org, amount, Refund, RefundOf(id), now)) == Some(l');
      var e := Entry(org, amount, Refund, RefundOf(id), now);
      ReferenceAppend(l, e, org, ById(id));
      ReferenceAppend(l, e, org, RefundOf(id));
      NoReferenceNoSum(l, org, RefundOf(id));
    }
  }

  lemma RefundKeepsUnique(l: seq<Entry>, l': seq<Entry>, org: Uuid, id: Uuid, most: nat)
    requires ReferencesUnique(l) && RefundsAtMost(l, l', org, id, most)
    ensures ReferencesUnique(l')
  {
  }

  // ------------------------------------------------------- what settling does

  lemma CompleteSettles(t: Tables, id: Uuid, org: Uuid, charged: nat, reserved: nat, days: nat, now: nat)
    requires Account(t.ledger, org, id, reserved) && !Refunded(t.ledger, org, id) && charged <= reserved
    ensures var (t', r) := Complete(t, id, org, charged, reserved, days, now);
      r == Committed && BatchNet(t'.ledger, org, id) == -(charged as int)
  {
    NoReferenceNoSum(t.ledger, org, RefundOf(id));
    if charged < reserved {
      var e := Entry(org, reserved - charged, Refund, RefundOf(id), now);
      ReferenceAppend(t.ledger, e, org, ById(id));
      ReferenceAppend(t.ledger, e, org, RefundOf(id));
    }
  }

  lemma RefundOnceSettles(l: seq<Entry>, id: Uuid, org: Uuid, reserved: nat, now: nat)
    requires Account(l, org, id, reserved) && !Refunded(l, org, id)
    ensures BatchNet(RefundOnce(l, org, id, reserved, now), org, id) == 0
    ensures Refunded(RefundOnce(l, org, id, reserved, now), org, id)
  {
    NoReferenceNoSum(l, org, RefundOf(id));
    var e := Entry(org, reserved, Refund, RefundOf(id), now);
    ReferenceAppend(l, e, org, ById(id));
    ReferenceAppend(l, e, org, RefundOf(id));
  }

  lemma FailSettles(t: Tables, id: Uuid, org: Uuid, reserved: nat, now: nat)
    requires Account(t.ledger, org, id, reserved) && !Refunded(t.ledger, org, id)
    ensures BatchNet(Fail(t, id, org, reserved, now).ledger, org, id) == 0
  {
    RefundOnceSettles(t.ledger, id, org, reserved, now);
    NoReferenceNoSum(t.ledger, org, RefundOf(id));
  }

  // -------------------------------------------------- invariants of all runs

  /** A batch id is drawn once: no open upload shares its id with anything. */
  ghost predicate IdsFresh(issued: set<Uuid>, receipts: map<Uuid, Receipt>, debits: map<nat, Debit>) {
    && (forall b :: b in receipts ==> b in issued)
    && (forall tx :: tx in debits && debits[tx].kind.Upload? ==>
          debits[tx].kind.batchId in issued && debits[tx].kind.batchId !in receipts)
    && (forall t, u :: t in debits && u in debits && t != u && debits[t].kind.Upload? && debits[u].kind.Upload? ==>
          debits[t].kind.batchId != debits[u].kind.batchId)
  }

  ghost predicate OnTerms(receipts: map<Uuid, Receipt>, b: Uuid, org: Uuid, totalRows: nat) {
    b in receipts && receipts[b].org == org && receipts[b].totalRows == totalRows
  }

  /** Rows carry what was reserved; what can still be claimed was never refunded. */
  ghost predicate RowsMatch(ledger: seq<Entry>, receipts: map<Uuid, Receipt>, batches: map<Uuid, Batch>) {
    forall b :: b in batches ==>
      && OnTerms(receipts, b, batches[b].org, batches[b].totalRows)
      && (Claimable(batches[b].status) ==> !Refunded(ledger, batches[b].org, b))
  }

  /** Workers carry what was reserved; what they work on can no longer be claimed. */
  ghost predicate WorkersMatch(receipts: map<Uuid, Receipt>, batches: map<Uuid, Batch>, workers: map<nat, Worker>) {
    forall k :: k in workers ==>
      && OnTerms(receipts, workers[k].batch, workers[k].org, workers[k].totalRows)
      && (workers[k].batch in batches ==> !Claimable(batches[workers[k].batch].status))
  }

  ghost predicate Accounted(ledger: seq<Entry>, receipts: map<Uuid, Receipt>) {
    && ReferencesUnique(ledger)
    && (forall b :: b in receipts ==> Account(ledger, receipts[b].org, b, receipts[b].totalRows))
    && (forall b: Uuid, org: Uuid :: b !in receipts ==> !Refunded(ledger, org, b))
  }

  ghost predicate Sound(w: World) {
    && IdsFresh(w.issued, w.receipts, w.debits)
    && RowsMatch(w.db.ledger, w.receipts, w.db.batches)
    && WorkersMatch(w.receipts, w.db.batches, w.workers)
    && Accounted(w.db.ledger, w.receipts)
  }

  /** The same batches were created, on the same terms. */
  ghost predicate SameTerms(receipts: map<Uuid, Receipt>, receipts': map<Uuid, Receipt>) {
    && receipts'.Keys == receipts.Keys
    && forall b :: b in receipts ==> receipts'[b].org == receipts[b].org && receipts'[b].totalRows == receipts[b].totalRows
  }

  lemma RefundKeepsAccounted(l: seq<Entry>, l': seq<Entry>, rs: map<Uuid, Receipt>, id: Uuid)
    requires Accounted(l, rs) && id in rs && RefundsAtMost(l, l', rs[id].org, id, rs[id].totalRows)
    ensures Accounted(l', rs)
    ensures forall org: Uuid, b: Uuid :: b != id || org != rs[id].org ==> Untouched(l, l', org, b)
  {
    hide HasReference;
    hide ReferenceSum;
    hide RefundsAtMost;
    hide ReferencesUnique;
    var r := rs[id];
    RefundKeepsUnique(l, l', r.org, id, r.totalRows);
    RefundKeepsAccount(l, l', r.org, id, r.totalRows);
    forall org: Uuid, b: Uuid | b != id || org != r.org
      ensures Untouched(l, l', org, b)
    {
      RefundElsewhere(l, l', r.org, id, r.totalRows, org, b);
    }
    forall b | b in rs
      ensures Account(l', rs[b].org, b, rs[b].totalRows)
    {
      assert b != id ==> Untouched(l, l', rs[b].org, b);
    }
    forall b: Uuid, org: Uuid | b !in rs
      ensures !Refunded(l', org, b)
    {
      assert Untouched(l, l', org, b);
    }
  }

  /** Workers may stop or start failing; none appears and none changes its batch. */
  ghost predicate FewerWorkers(workers: map<nat, Worker>, workers': map<nat, Worker>) {
    forall k :: k in workers' ==>
      && k in workers
      && workers'[k].batch == workers[k].batch
      && workers'[k].org == workers[k].org
      && workers'[k].totalRows == workers[k].totalRows
  }

  /** Rows may go; only the row of `id` may change, and not back to claimable. */
  ghost predicate FewerRows(batches: map<Uuid, Batch>, batches': map<Uuid, Batch>, id: Uuid) {
    forall b :: b in batches' ==>
      && b in batches
      && batches'[b].org == batches[b].org
      && batches'[b].totalRows == batches[b].totalRows
      && (if b == id then !Claimable(batches'[b].status) else batches'[b].status == batches[b].status)
  }

  /** Every way of settling one batch, with or without a refund. */
  ghost predicate Settles(w: World, w': World, id: Uuid) {
    && id in w.receipts && w'.receipts == w.receipts && w'.debits == w.debits && w'.issued == w.issued
    && FewerWorkers(w.workers, w'.workers) && FewerRows(w.db.batches, w'.db.batches, id)
    && RefundsAtMost(w.db.ledger, w'.db.ledger, w.receipts[id].org, id, w.receipts[id].totalRows)
  }

  lemma SettlingKeepsSound(w: World, w': World, id: Uuid)
    requires Sound(w) && Settles(w, w', id)
    ensures Sound(w')
  {
    hide Refunded;
    hide RefundsAtMost;
    hide Accounted;
    hide IdsFresh;
    RefundKeepsAccounted(w.db.ledger, w'.db.ledger, w.receipts, id);
    forall b | b in w'.db.batches && Claimable(w'.db.batches[b].status)
      ensures !Refunded(w'.db.ledger, w'.db.batches[b].org, b)
    {
      assert Untouched(w.db.ledger, w'.db.ledger, w'.db.batches[b].org, b);
    }
  }

  lemma JobSettles(w: World, k: nat, op: JobOp)
    requires Sound(w) && k in w.workers && !op.ClaimJob?
    ensures Settles(w, JobStep(w, k, op), w.workers[k].batch)
  {
    hide Accounted, IdsFresh, RowsMatch, Fail, Complete, Insert, RefundsAtMost, SettleStep;
    var j := w.workers[k];
    if op.Settle? { SettleSettles(w, k, op.charged, op.reported); }
    SameLedger(w.db.ledger, j.org, j.batch, j.totalRows);
    FailRefunds(w.db, j.batch, j.org, j.totalRows, w.clock);
  }

  lemma SameLedger(l: seq<Entry>, org: Uuid, id: Uuid, most: nat)
    ensures RefundsAtMost(l, l, org, id, most)
  {
    hide Insert;
  }

  lemma SettleSettles(w: World, k: nat, charged: nat, reported: bool)
    requires Sound(w) && k in w.workers
    ensures Settles(w, SettleStep(w, k, charged, reported), w.workers[k].batch)
  {
    hide Accounted, IdsFresh, RowsMatch, Complete, Insert, RefundsAtMost;
    var j := w.workers[k];
    SameLedger(w.db.ledger, j.org, j.batch, j.totalRows);
    if charged <= j.totalRows {
      CompleteRefunds(w.db, j.batch, j.org, charged, j.totalRows, j.retentionDays, w.clock);
    }
  }

  lemma ClaimKeepsSound(w: World, k: nat, id: Uuid)
    requires Sound(w)
    ensures Sound(ClaimStep(w, k, id))
  {
    hide Accounted;
    hide IdsFresh;
    hide Refunded;
  }

  lemma JobKeepsSound(w: World, k: nat, op: JobOp)
    requires Sound(w)
    ensures Sound(JobStep(w, k, op))
  {
    hide Sound;
    hide Settles;
    if op.ClaimJob? {
      ClaimKeepsSound(w, k, op.batch);
    } else if k in w.workers {
      JobSettles(w, k, op);
      SettlingKeepsSound(w, JobStep(w, k, op), w.workers[k].batch);
    }
  }

  lemma StageKeepsSound(w: World, receipts: map<Uuid, Receipt>)
    requires Sound(w) && SameTerms(w.receipts, receipts)
    ensures Sound(w.(receipts := receipts))
  {
    hide Refunded;
    hide Account;
    hide ReferencesUnique;
  }

  lemma RouteKeepsSound(w: World, id: Uuid, op: RouteOp)
    requires Sound(w)
    ensures Sound(RouteStep(w, id, op))
  {
    hide Sound;
    hide Fail;
    hide Insert;
    var w' := RouteStep(w, id, op);
    if w' != w {
      StageKeepsSound(w, w'.receipts);
      if op.FailUpload? {
        FailRefunds(w.db, id, w.receipts[id].org, w.receipts[id].totalRows, w.clock);
        SettlingKeepsSound(w.(receipts := w'.receipts), w', id);
      }
    }
  }

  lemma BatchKeepsSound(w: World, id: Uuid, op: BatchOp)
    requires Sound(w)
    ensures Sound(BatchStep(w, id, op))
  {
    hide Accounted;
    hide IdsFresh;
    hide Refunded;
    hide Insert;
    if op.DeleteFor? {
      DeleteRefunds(w.db, id, op.org, w.clock);
      if BatchStep(w, id, op).db != w.db { SettlingKeepsSound(w, BatchStep(w, id, op), id); }
    }
  }

  lemma CheckKeepsSound(w: World, op: CheckOp)
    requires Sound(w)
    ensures Sound(CheckStep(w, op))
  {
    hide Accounted;
    hide IdsFresh;
    hide Refunded;
  }

  /** An entry that is not a refund leaves every account as it was. */
  lemma OtherEntryKeepsAccounted(l: seq<Entry>, l': seq<Entry>, e: Entry, rs: map<Uuid, Receipt>)
    requires Accounted(l, rs) && Insert(l, e) == Some(l') && !e.reference.RefundOf?
    ensures Accounted(l', rs)
    ensures forall org: Uuid, b: Uuid :: Refunded(l', org, b) <==> Refunded(l, org, b)
  {
    hide HasReference;
    hide ReferenceSum;
    forall org: Uuid, b: Uuid
      ensures Refunded(l', org, b) <==> Refunded(l, org, b)
    {
      ReferenceAppend(l, e, org, RefundOf(b));
    }
    forall b | b in rs
      ensures Account(l', rs[b].org, b, rs[b].totalRows)
    {
      ReferenceAppend(l, e, rs[b].org, ById(b));
      ReferenceAppend(l, e, rs[b].org, RefundOf(b));
    }
  }

  lemma OrgKeepsSound(w: World, org: Uuid, op: OrgOp)
    requires Sound(w)
    ensures Sound(OrgStep(w, org, op))
  {
    hide Accounted;
    hide IdsFresh;
    hide Refunded;
    hide Insert;
    if op.GrantCredits? {
      var e := Entry(org, op.credits, Grant, GrantOf(op.digest), w.clock);
      if Insert(w.db.ledger, e).Some? {
        OtherEntryKeepsAccounted(w.db.ledger, Insert(w.db.ledger, e).value, e, w.receipts);
      }
    }
  }

  lemma CloseKeepsSound(w: World, tx: nat)
    requires Sound(w) && tx in w.debits
    ensures Sound(Close(w, tx))
  {
    hide Accounted;
    hide RowsMatch;
    hide WorkersMatch;
  }

  lemma ReserveKeepsAccounted(l: seq<Entry>, l': seq<Entry>, org: Uuid, b: Uuid, totalRows: nat, now: nat, rs: map<Uuid, Receipt>)
    requires Accounted(l, rs) && b !in rs
    requires Insert(l, Entry(org, -(totalRows as int), BatchCheck, ById(b), now)) == Some(l')
    ensures Accounted(l', rs[b := Receipt(org, totalRows, false, Stored)])
    ensures !Refunded(l', org, b)
    ensures forall o: Uuid, c: Uuid :: Refunded(l', o, c) <==> Refunded(l, o, c)
  {
    hide HasReference;
    hide ReferenceSum;
    hide ReferencesUnique;
    var e := Entry(org, -(totalRows as int), BatchCheck, ById(b), now);
    OtherEntryKeepsAccounted(l, l', e, rs);
    ReferenceAppend(l, e, org, ById(b));
    ReferenceAppend(l, e, org, RefundOf(b));
    NoReferenceNoSum(l, org, ById(b));
    assert !Refunded(l, org, b);
    NoReferenceNoSum(l, org, RefundOf(b));
  }

  lemma UploadKeepsSound(w: World, tx: nat)
    requires Sound(w) && tx in w.debits && w.debits[tx].kind.Upload?
    ensures Sound(CommitStep(w, tx))
  {
    hide Accounted;
    hide Refunded;
    hide Insert;
    var d := w.debits[tx];
    CloseKeepsSound(w, tx);
    if d.phase == BalanceRead && d.org in w.db.orgs && Reserve(w.db, d.org, d.kind.batchId, d.kind.totalRows, d.startedAt).Some? {
      var l' := Reserve(w.db, d.org, d.kind.batchId, d.kind.totalRows, d.startedAt).value.ledger;
      ReserveKeepsAccounted(w.db.ledger, l', d.org, d.kind.batchId, d.kind.totalRows, d.startedAt, w.receipts);
    }
  }

  lemma CommitKeepsSound(w: World, tx: nat)
    requires Sound(w) && tx in w.debits
    ensures Sound(CommitStep(w, tx))
  {
    var d := w.debits[tx];
    if d.kind.Upload? {
      UploadKeepsSound(w, tx);
    } else {
      hide Accounted;
      hide Refunded;
      hide Insert;
      CloseKeepsSound(w, tx);
      if Insert(w.db.ledger, DebitEntry(d)).Some? {
        OtherEntryKeepsAccounted(w.db.ledger, Insert(w.db.ledger, DebitEntry(d)).value, DebitEntry(d), w.receipts);
      }
    }
  }

  lemma DebitKeepsSound(w: World, tx: nat, op: DebitOp)
    requires Sound(w)
    ensures Sound(DebitStep(w, tx, op))
  {
    hide Accounted;
    hide RowsMatch;
    hide WorkersMatch;
    hide CommitStep;
    if !op.Call? && tx in w.debits {
      CloseKeepsSound(w, tx);
      if op.Commit? { CommitKeepsSound(w, tx); }
    }
  }

  lemma StepKeepsSound(w: World, e: Event)
    requires Sound(w)
    ensures Sound(Step(w, e))
  {
    match e
    case Tick =>
    case OnDebit(tx, op) => DebitKeepsSound(w, tx, op);
    case OnOrg(org, op) => OrgKeepsSound(w, org, op);
    case OnRoute(id, op) => RouteKeepsSound(w, id, op);
    case OnJob(k, op) => JobKeepsSound(w, k, op);
    case OnBatch(id, op) => BatchKeepsSound(w, id, op);
    case OnChecks(op) => CheckKeepsSound(w, op);
  }

  lemma {:induction false} RunKeepsSound(w: World, events: seq<Event>)
    requires Sound(w)
    ensures Sound(Run(w, events))
    decreases |events|
  {
    if events != [] {
      StepKeepsSound(w, events[0]);
      RunKeepsSound(Step(w, events[0]), events[1..]);
    }
  }

  /**
   In every run, with repeated, racing and misreported completions, failures
   and deletions: one refund entry at most, and reservation plus refund between
   -totalRows and 0.
   */
  lemma BatchCostBounded(orgs: map<Uuid, Org>, events: seq<Event>, b: Uuid)
    requires b in Run(Start(orgs), events).receipts
    ensures var w := Run(Start(orgs), events);
      var org, totalRows := w.receipts[b].org, w.receipts[b].totalRows;
      && -(totalRows as int) <= BatchNet(w.db.ledger, org, b) <= 0
      && (forall i, j :: 0 <= i < j < |w.db.ledger| && w.db.ledger[i].org == w.db.ledger[j].org == org ==>
            !(w.db.ledger[i].reference == w.db.ledger[j].reference == RefundOf(b)))
  {
    RunKeepsSound(Start(orgs), events);
  }

  // ------------------------------------------------------- deletion is final

  /** Deleted before any claim: fully refunded, and nothing left to claim. */
  ghost predicate Gone(w: World, org: Uuid, b: Uuid) {
    && OnTerms(w.receipts, b, org, if b in w.receipts then w.receipts[b].totalRows else 0)
    && b !in w.db.batches && Refunded(w.db.ledger, org, b) && BatchNet(w.db.ledger, org, b) == 0
  }

  lemma DeleteLeavesNothing(w: World, org: Uuid, b: Uuid)
    requires Sound(w) && b in w.db.batches && w.db.batches[b].org == org && Claimable(w.db.batches[b].status)
    ensures Gone(Step(w, OnBatch(b, DeleteFor(org))), org, b)
  {
    RefundOnceSettles(w.db.ledger, b, org, w.db.batches[b].totalRows, w.clock);
  }

  /** One insert at most, and no batch id comes back. */
  ghost predicate Progress(w: World, w': World) {
    && (w'.db.ledger == w.db.ledger || exists e: Entry :: Insert(w.db.ledger, e) == Some(w'.db.ledger))
    && (forall b :: b in w.receipts ==>
          && OnTerms(w'.receipts, b, w.receipts[b].org, w.receipts[b].totalRows)
          && (b in w'.db.batches ==> b in w.db.batches))
  }

  lemma SettlingProgresses(w: World, w': World, id: Uuid)
    requires Settles(w, w', id)
    ensures Progress(w, w')
  {
    hide Insert;
  }

  lemma DebitProgresses(w: World, tx: nat, op: DebitOp)
    requires IdsFresh(w.issued, w.receipts, w.debits)
    ensures Progress(w, DebitStep(w, tx, op))
  {
    hide Insert;
    if tx in w.debits && op.Commit? {
      var d, w' := w.debits[tx], DebitStep(w, tx, op);
      assert w'.db.ledger == w.db.ledger || Insert(w.db.ledger, DebitEntry(d)) == Some(w'.db.ledger);
    }
  }

  lemma OrgProgresses(w: World, org: Uuid, op: OrgOp)
    ensures Progress(w, OrgStep(w, org, op))
  {
    hide Insert;
    if op.GrantCredits? {
      var e := Entry(org, op.credits, Grant, GrantOf(op.digest), w.clock);
      var l' := OrgStep(w, org, op).db.ledger;
      assert l' == w.db.ledger || Insert(w.db.ledger, e) == Some(l');
    }
  }

  lemma RouteProgresses(w: World, id: Uuid, op: RouteOp)
    ensures Progress(w, RouteStep(w, id, op))
  {
    hide Insert;
    hide Fail;
    if id in w.receipts { FailRefunds(w.db, id, w.receipts[id].org, w.receipts[id].totalRows, w.clock); }
  }

  lemma JobProgresses(w: World, k: nat, op: JobOp)
    requires Sound(w)
    ensures Progress(w, JobStep(w, k, op))
  {
    hide Sound;
    hide Settles;
    if !op.ClaimJob? && k in w.workers {
      JobSettles(w, k, op);
      SettlingProgresses(w, JobStep(w, k, op), w.workers[k].batch);
    }
  }

  lemma BatchProgresses(w: World, id: Uuid, op: BatchOp)
    ensures Progress(w, BatchStep(w, id, op))
  {
    hide Insert;
    if op.DeleteFor? { DeleteRefunds(w.db, id, op.org, w.clock); }
  }

  lemma StepProgresses(w: World, e: Event)
    requires Sound(w)
    ensures Progress(w, Step(w, e))
  {
    hide DebitStep, OrgStep, RouteStep, JobStep, BatchStep, CheckStep, RowsMatch, WorkersMatch, Accounted, Progress;
    match e
    case Tick => NothingProgresses(w, Step(w, e));
    case OnDebit(tx, op) => DebitProgresses(w, tx, op);
    case OnOrg(org, op) => OrgProgresses(w, org, op);
    case OnRoute(id, op) => RouteProgresses(w, id, op);
    case OnJob(k, op) => JobProgresses(w, k, op);
    case OnBatch(id, op) => BatchProgresses(w, id, op);
    case OnChecks(op) => CheckProgresses(w, op);
  }

  lemma NothingProgresses(w: World, w': World)
    requires w'.db == w.db && w'.receipts == w.receipts
    ensures Progress(w, w')
  {
    hide Insert;
  }

  lemma CheckProgresses(w: World, op: CheckOp)
    ensures Progress(w, CheckStep(w, op))
  {
    hide Insert;
  }

  /** Both references of a refunded batch are taken, so no insert can concern it. */
  lemma InsertLeavesGone(l: seq<Entry>, e: Entry, org: Uuid, b: Uuid)
    requires HasReference(l, org, ById(b)) && Refunded(l, org, b) && Insert(l, e).Some?
    ensures Untouched(l, Insert(l, e).value, org, b)
  {
    hide HasReference;
    ReferenceAppend(l, e, org, ById(b));
    ReferenceAppend(l, e, org, RefundOf(b));
  }

  lemma StepKeepsGone(w: World, e: Event, org: Uuid, b: Uuid)
    requires Sound(w) && Gone(w, org, b)
    ensures Gone(Step(w, e), org, b)
  {
    hide Step;
    hide HasReference;
    hide Insert;
    StepProgresses(w, e);
    var l' := Step(w, e).db.ledger;
    assert Account(w.db.ledger, org, b, w.receipts[b].totalRows);
    if l' != w.db.ledger {
      var entry: Entry :| Insert(w.db.ledger, entry) == Some(l');
      InsertLeavesGone(w.db.ledger, entry, org, b);
    }
  }

  lemma {:induction false} RunKeepsGone(w: World, events: seq<Event>, org: Uuid, b: Uuid)
    requires Sound(w) && Gone(w, org, b)
    ensures Gone(Run(w, events), org, b)
    decreases |events|
  {
    if events != [] {
      StepKeepsGone(w, events[0], org, b);
      StepKeepsSound(w, events[0]);
      RunKeepsGone(Step(w, events[0]), events[1..], org, b);
    }
  }

  /**
   Deleting a batch nobody has claimed ends it: whatever happens before and
   after, misreported commits included, its net cost is 0 and no later claim
   succeeds.
   */
  lemma DeletionIsFinal(orgs: map<Uuid, Org>, before: seq<Event>, org: Uuid, b: Uuid, after: seq<Event>)
    requires var w := Run(Start(orgs), before);
      b in w.db.batches && w.db.batches[b].org == org && Claimable(w.db.batches[b].status)
    ensures var w := Run(Step(Run(Start(orgs), before), OnBatch(b, DeleteFor(org))), after);
      BatchNet(w.db.ledger, org, b) == 0 && b !in w.db.batches && Claim(w.db, b).1 == NotClaimable
  {
    var w := Run(Start(orgs), before);
    RunKeepsSound(Start(orgs), before);
    DeleteLeavesNothing(w, org, b);
    StepKeepsSound(w, OnBatch(b, DeleteFor(org)));
    RunKeepsGone(Step(w, OnBatch(b, DeleteFor(org))), after, org, b);
  }
}

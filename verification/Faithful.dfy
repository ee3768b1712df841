/**
 What a batch row says about its cost: in every run, and exactly what its status
 says when the commits and the publish of that batch are reported faithfully.
 */
module Faithful {
  import opened Prelude
  import opened Ledger
  import opened Batches
  import opened CreditProtocol
  import opened Settlement

  /** What a row's status says about the ledger. */
  ghost predicate CostsWhatItSays(l: seq<Entry>, b: Uuid, row: Batch) {
    BatchNet(l, row.org, b) ==
      match row.status
      case Done => -(row.charged as int)
      case Failed => 0
      case _ => -(row.totalRows as int)
  }

  // -------------------------------------------------------- rows of every run

  /** Partly charged and then failed: the refund of the completion is the only one. */
  predicate FailedAfterCharge(row: Batch) {
    row.status == Failed && 0 < row.charged < row.totalRows
  }

  /** Wholly charged although a refund had already been given. */
  ghost predicate DoneAfterRefund(l: seq<Entry>, b: Uuid, row: Batch) {
    row.status == Done && row.charged == row.totalRows && Refunded(l, row.org, b)
  }

  /** What any row of any run has cost. */
  ghost predicate RowStory(l: seq<Entry>, b: Uuid, row: Batch) {
    && row.charged <= row.totalRows
    && match row.status
       case Done =>
         && BatchNet(l, row.org, b) == (if DoneAfterRefund(l, b, row) then 0 else -(row.charged as int))
         && (row.charged < row.totalRows ==> Refunded(l, row.org, b))
       case Failed =>
         && BatchNet(l, row.org, b) == (if FailedAfterCharge(row) then -(row.charged as int) else 0)
         && (row.totalRows > 0 ==> Refunded(l, row.org, b))
       case _ => row.charged == 0 && !Refunded(l, row.org, b) && BatchNet(l, row.org, b) == -(row.totalRows as int)
  }

  ghost predicate RowsTold(l: seq<Entry>, batches: map<Uuid, Batch>) {
    forall b :: b in batches ==> RowStory(l, b, batches[b])
  }

  /** A worker is alone on its batch, and one that can still complete it has not done so. */
  ghost predicate WorkersSole(batches: map<Uuid, Batch>, workers: map<nat, Worker>) {
    && (forall k, j :: k in workers && j in workers && k != j ==> workers[k].batch != workers[j].batch)
    && (forall k :: k in workers && !workers[k].failing && workers[k].batch in batches ==> Completable(batches[workers[k].batch]))
  }

  predicate Completable(row: Batch) {
    (row.status == Processing || row.status == Failed) && row.charged == 0
  }

  ghost predicate Told(w: World) {
    RowsTold(w.db.ledger, w.db.batches) && WorkersSole(w.db.batches, w.workers)
  }

  lemma UntouchedStory(l: seq<Entry>, l': seq<Entry>, b: Uuid, row: Batch)
    requires Untouched(l, l', row.org, b)
    ensures RowStory(l', b, row) <==> RowStory(l, b, row)
  {
  }

  /** What was never refunded still costs its whole reservation. */
  lemma UnrefundedCosts(l: seq<Entry>, org: Uuid, b: Uuid, totalRows: nat)
    requires Account(l, org, b, totalRows) && !Refunded(l, org, b)
    ensures BatchNet(l, org, b) == -(totalRows as int)
  {
    NoReferenceNoSum(l, org, RefundOf(b));
  }

  /** Failing a batch, whatever happened to it before. */
  lemma FailStory(t: Tables, id: Uuid, now: nat)
    requires id in t.batches && RowStory(t.ledger, id, t.batches[id])
    requires Account(t.ledger, t.batches[id].org, id, t.batches[id].totalRows)
    ensures var t' := Fail(t, id, t.batches[id].org, t.batches[id].totalRows, now);
      id in t'.batches && t'.batches[id] == t.batches[id].(status := Failed) && RowStory(t'.ledger, id, t'.batches[id])
  {
    hide ReferenceSum, HasReference;
    var row := t.batches[id];
    if !Refunded(t.ledger, row.org, id) {
      UnrefundedCosts(t.ledger, row.org, id, row.totalRows);
      RefundOnceSettles(t.ledger, id, row.org, row.totalRows, now);
    }
  }

  /** Completing a batch that was not completed before, but may have been failed. */
  lemma CompleteStory(t: Tables, id: Uuid, charged: nat, days: nat, now: nat)
    requires id in t.batches && RowStory(t.ledger, id, t.batches[id]) && Completable(t.batches[id])
    requires Account(t.ledger, t.batches[id].org, id, t.batches[id].totalRows) && charged <= t.batches[id].totalRows
    ensures var row := t.batches[id];
      var (t', r) := Complete(t, id, row.org, charged, row.totalRows, days, now);
      && id in t'.batches && RowStory(t'.ledger, id, t'.batches[id])
      && (r == Committed <==> charged == row.totalRows || !Refunded(t.ledger, row.org, id))
      && (r == Committed ==> t'.batches[id].status == Done && t'.batches[id].charged == charged)
      && (r == Thrown ==> t' == t)
  {
    hide ReferenceSum, HasReference;
    var row := t.batches[id];
    if !Refunded(t.ledger, row.org, id) {
      UnrefundedCosts(t.ledger, row.org, id, row.totalRows);
      CompleteSettles(t, id, row.org, charged, row.totalRows, days, now);
      ReferenceAppend(t.ledger, Entry(row.org, row.totalRows - charged, Refund, RefundOf(id), now), row.org, RefundOf(id));
    }
  }

  /** No new worker, and none that takes back a failure. */
  ghost predicate StillFailing(workers: map<nat, Worker>, workers': map<nat, Worker>) {
    forall k :: k in workers' && k in workers && workers[k].failing ==> workers'[k].failing
  }

  ghost predicate OthersAsBefore(batches: map<Uuid, Batch>, batches': map<Uuid, Batch>, id: Uuid) {
    forall b :: b in batches' && b != id ==> b in batches && batches'[b] == batches[b]
  }

  /** Settling one batch leaves the stories of the others alone. */
  lemma SettlingKeepsTold(w: World, w': World, id: Uuid)
    requires Sound(w) && Told(w) && Settles(w, w', id)
    requires OthersAsBefore(w.db.batches, w'.db.batches, id) && StillFailing(w.workers, w'.workers)
    requires id in w'.db.batches ==> RowStory(w'.db.ledger, id, w'.db.batches[id])
    requires forall k :: k in w'.workers && w'.workers[k].batch == id && !w'.workers[k].failing && id in w'.db.batches ==>
      Completable(w'.db.batches[id])
    ensures Told(w')
  {
    hide RefundsAtMost, RowStory, Accounted, Untouched, RowsMatch, WorkersMatch, IdsFresh;
    var l, l' := w.db.ledger, w'.db.ledger;
    RefundKeepsAccounted(l, l', w.receipts, id);
    forall b | b in w'.db.batches && b != id
      ensures RowStory(l', b, w'.db.batches[b])
    {
      UntouchedStory(l, l', b, w'.db.batches[b]);
    }
  }

  /** A claim takes one claimable, queued batch and adds one worker on it. */
  lemma ClaimShape(w: World, k: nat, id: Uuid)
    requires ClaimStep(w, k, id) != w
    ensures k !in w.workers && id in w.receipts && w.receipts[id].queued
    ensures id in w.db.batches && Claimable(w.db.batches[id].status)
    ensures var w' := ClaimStep(w, k, id);
      && w'.db.batches == w.db.batches[id := w.db.batches[id].(status := Processing)]
      && k in w'.workers && w'.workers == w.workers[k := w'.workers[k]]
      && w'.workers[k].batch == id && w'.workers[k].org == w.db.batches[id].org
      && w'.db.ledger == w.db.ledger && w'.receipts == w.receipts
  {
  }

  lemma ClaimKeepsTold(w: World, k: nat, id: Uuid)
    requires Sound(w) && Told(w)
    ensures Told(ClaimStep(w, k, id))
  {
    hide ClaimStep, Accounted, Refunded, BatchNet, IdsFresh, RowsMatch;
    var w' := ClaimStep(w, k, id);
    if w' != w { ClaimShape(w, k, id); }
  }

  lemma SettleKeepsTold(w: World, k: nat, charged: nat, reported: bool)
    requires Sound(w) && Told(w) && k in w.workers
    ensures Told(SettleStep(w, k, charged, reported))
  {
    hide Account, Refunded, RefundsAtMost, Insert, BatchNet, RowStory, Complete, IdsFresh;
    var j, w' := w.workers[k], SettleStep(w, k, charged, reported);
    if !j.failing && charged <= j.totalRows {
      JobSettles(w, k, Settle(charged, reported));
      CompleteRefunds(w.db, j.batch, j.org, charged, j.totalRows, j.retentionDays, w.clock);
      if j.batch in w.db.batches { CompleteStory(w.db, j.batch, charged, j.retentionDays, w.clock); }
      SettlingKeepsTold(w, w', j.batch);
    }
  }

  lemma FailJobKeepsTold(w: World, k: nat)
    requires Sound(w) && Told(w) && k in w.workers
    ensures Told(JobStep(w, k, FailJob))
  {
    hide Account, Refunded, RefundsAtMost, Insert, BatchNet, RowStory, Fail, IdsFresh;
    var j, w' := w.workers[k], JobStep(w, k, FailJob);
    JobSettles(w, k, FailJob);
    FailRefunds(w.db, j.batch, j.org, j.totalRows, w.clock);
    if j.batch in w.db.batches { FailStory(w.db, j.batch, w.clock); }
    SettlingKeepsTold(w, w', j.batch);
  }

  lemma JobKeepsTold(w: World, k: nat, op: JobOp)
    requires Sound(w) && Told(w)
    ensures Told(JobStep(w, k, op))
  {
    hide RowsTold, Sound, ClaimStep, SettleStep;
    if op.ClaimJob? {
      ClaimKeepsTold(w, k, op.batch);
    } else if k in w.workers {
      if op.FailJob? { FailJobKeepsTold(w, k); }
      if op.Settle? { SettleKeepsTold(w, k, op.charged, op.reported); }
    }
  }

  lemma RouteKeepsTold(w: World, id: Uuid, op: RouteOp)
    requires Sound(w) && Told(w)
    ensures Told(RouteStep(w, id, op))
  {
    hide Account, Refunded, RefundsAtMost, Insert, BatchNet, RowStory, Fail, IdsFresh;
    var w' := RouteStep(w, id, op);
    if w' != w && op.FailUpload? {
      var v := w.(receipts := w'.receipts);
      StageKeepsSound(w, w'.receipts);
      FailRefunds(w.db, id, w.receipts[id].org, w.receipts[id].totalRows, w.clock);
      if id in w.db.batches { FailStory(w.db, id, w.clock); }
      SettlingKeepsTold(v, w', id);
    }
  }

  lemma BatchKeepsTold(w: World, id: Uuid, op: BatchOp)
    requires Sound(w) && Told(w)
    ensures Told(BatchStep(w, id, op))
  {
    hide Account, Refunded, BatchNet, Insert, IdsFresh, RowStory, RefundsAtMost;
    if op.DeleteFor? {
      DeleteRefunds(w.db, id, op.org, w.clock);
      if BatchStep(w, id, op).db != w.db { SettlingKeepsTold(w, BatchStep(w, id, op), id); }
    }
  }

  lemma CheckKeepsTold(w: World, op: CheckOp)
    requires Told(w)
    ensures Told(CheckStep(w, op))
  {
    hide RowStory;
  }

  /** An entry that is not a refund changes no batch's story. */
  lemma OtherEntryKeepsTold(l: seq<Entry>, l': seq<Entry>, e: Entry, rs: map<Uuid, Receipt>, batches: map<Uuid, Batch>)
    requires RowsTold(l, batches) && Accounted(l, rs) && RowsMatch(l, rs, batches)
    requires Insert(l, e) == Some(l') && !e.reference.RefundOf?
    ensures RowsTold(l', batches)
  {
    hide HasReference, RowStory, ReferenceSum, ReferencesUnique;
    forall b | b in batches
      ensures RowStory(l', b, batches[b])
    {
      var org := batches[b].org;
      ReferenceAppend(l, e, org, ById(b));
      ReferenceAppend(l, e, org, RefundOf(b));
      UntouchedStory(l, l', b, batches[b]);
    }
  }

  lemma OrgKeepsTold(w: World, org: Uuid, op: OrgOp)
    requires Sound(w) && Told(w)
    ensures Told(OrgStep(w, org, op))
  {
    hide RowsTold, WorkersSole, Insert, Accounted, RowsMatch, WorkersMatch, IdsFresh;
    if op.GrantCredits? {
      var e := Entry(org, op.credits, Grant, GrantOf(op.digest), w.clock);
      if Insert(w.db.ledger, e).Some? {
        OtherEntryKeepsTold(w.db.ledger, Insert(w.db.ledger, e).value, e, w.receipts, w.db.batches);
      }
    }
  }

  lemma UploadKeepsTold(w: World, tx: nat)
    requires Sound(w) && Told(w) && tx in w.debits && w.debits[tx].kind.Upload?
    ensures Told(CommitStep(w, tx))
  {
    hide Insert, Refunded, Account, BatchNet, RowsMatch;
    var d, w' := w.debits[tx], CommitStep(w, tx);
    if w'.receipts != w.receipts {
      var id, l' := d.kind.batchId, w'.db.ledger;
      OtherEntryKeepsTold(w.db.ledger, l', DebitEntry(d), w.receipts, w.db.batches);
      ReserveKeepsAccounted(w.db.ledger, l', d.org, id, d.kind.totalRows, d.startedAt, w.receipts);
      assert id in w.receipts[id := Receipt(d.org, d.kind.totalRows, false, Stored)];
      UnrefundedCosts(l', d.org, id, d.kind.totalRows);
    }
  }

  lemma CommitKeepsTold(w: World, tx: nat)
    requires Sound(w) && Told(w) && tx in w.debits
    ensures Told(CommitStep(w, tx))
  {
    hide Insert, RowsTold, WorkersSole, Accounted, RowsMatch, WorkersMatch, IdsFresh;
    var d, w' := w.debits[tx], CommitStep(w, tx);
    if d.kind.Upload? {
      UploadKeepsTold(w, tx);
    } else if w'.db.ledger != w.db.ledger {
      OtherEntryKeepsTold(w.db.ledger, w'.db.ledger, DebitEntry(d), w.receipts, w.db.batches);
    }
  }

  lemma DebitKeepsTold(w: World, tx: nat, op: DebitOp)
    requires Sound(w) && Told(w)
    ensures Told(DebitStep(w, tx, op))
  {
    hide RowsTold, WorkersSole, Sound, CommitStep;
    if tx in w.debits && op.Commit? { CommitKeepsTold(w, tx); }
  }

  lemma StepKeepsTold(w: World, e: Event)
    requires Sound(w) && Told(w)
    ensures Sound(Step(w, e)) && Told(Step(w, e))
  {
    hide Sound, RowsTold, WorkersSole;
    StepKeepsSound(w, e);
    match e
    case Tick =>
    case OnDebit(tx, op) => DebitKeepsTold(w, tx, op);
    case OnOrg(org, op) => OrgKeepsTold(w, org, op);
    case OnRoute(id, op) => RouteKeepsTold(w, id, op);
    case OnJob(k, op) => JobKeepsTold(w, k, op);
    case OnBatch(id, op) => BatchKeepsTold(w, id, op);
    case OnChecks(op) => CheckKeepsTold(w, op);
  }

  lemma {:induction false} RunKeepsTold(w: World, events: seq<Event>)
    requires Sound(w) && Told(w)
    ensures Sound(Run(w, events)) && Told(Run(w, events))
    decreases |events|
  {
    hide Sound, Told, Step;
    if events != [] {
      StepKeepsTold(w, events[0]);
      RunKeepsTold(Step(w, events[0]), events[1..]);
    }
  }

  lemma StartIsTold(orgs: map<Uuid, Org>)
    ensures Sound(Start(orgs)) && Told(Start(orgs))
  {
  }

  /**
   Every row of every run, misreported commits and publishes included: its
   status tells its cost unless it was failed after part of it was charged, or
   completed at full charge after it was refunded; and what it cost then.
   */
  lemma CostOfAnyRow(orgs: map<Uuid, Org>, events: seq<Event>, b: Uuid)
    requires b in Run(Start(orgs), events).db.batches
    ensures var l := Run(Start(orgs), events).db.ledger;
      var row := Run(Start(orgs), events).db.batches[b];
      && (CostsWhatItSays(l, b, row) <==> !FailedAfterCharge(row) && !(DoneAfterRefund(l, b, row) && row.charged > 0))
      && (FailedAfterCharge(row) ==> BatchNet(l, row.org, b) == -(row.charged as int))
      && (DoneAfterRefund(l, b, row) ==> BatchNet(l, row.org, b) == 0)
  {
    hide Run, Refunded, BatchNet;
    StartIsTold(orgs);
    RunKeepsTold(Start(orgs), events);
  }

  // ----------------------------------------- batches reported on faithfully

  /** Taking effect for batch `b`, and reported as a failure. */
  predicate LossyFor(w: World, e: Event, b: Uuid) {
    || (e.OnRoute? && e.batch == b && e.route.PublishLost?)
    || (e.OnJob? && e.job.Settle? && !e.job.reported && e.worker in w.workers && w.workers[e.worker].batch == b)
  }

  /** Nothing that concerns `b` is misreported; other batches may fare as they will. */
  predicate FaithfulTo(w: World, events: seq<Event>, b: Uuid)
    decreases |events|
  {
    events == [] || (!LossyFor(w, events[0], b) && FaithfulTo(Step(w, events[0]), events[1..], b))
  }

  ghost predicate CleanRow(l: seq<Entry>, batches: map<Uuid, Batch>, b: Uuid) {
    b in batches ==>
      && (batches[b].status == Failed ==> batches[b].charged == 0)
      && (batches[b].charged > 0 ==> !DoneAfterRefund(l, b, batches[b]))
  }

  /** A worker on the batch finds it in processing. */
  ghost predicate CleanWork(receipts: map<Uuid, Receipt>, batches: map<Uuid, Batch>, workers: map<nat, Worker>, b: Uuid) {
    forall k :: k in workers && workers[k].batch == b ==>
      b in receipts && receipts[b].queued && (b in batches ==> batches[b].status == Processing)
  }

  /** Until its job is queued the batch stays claimable; the route does not both queue and fail it. */
  ghost predicate CleanRoute(receipts: map<Uuid, Receipt>, batches: map<Uuid, Batch>, b: Uuid) {
    b in receipts && receipts[b].stage != Published ==>
      && !receipts[b].queued
      && (receipts[b].stage != Settled && b in batches ==> Claimable(batches[b].status))
  }

  ghost predicate Clean(w: World, b: Uuid) {
    && CleanRow(w.db.ledger, w.db.batches, b)
    && CleanWork(w.receipts, w.db.batches, w.workers, b)
    && CleanRoute(w.receipts, w.db.batches, b)
  }

  /** Settling another batch. */
  lemma SettlingElsewhereKeepsClean(w: World, w': World, id: Uuid, b: Uuid)
    requires Sound(w) && Clean(w, b) && Settles(w, w', id) && id != b && OthersAsBefore(w.db.batches, w'.db.batches, id)
    ensures Clean(w', b)
  {
    hide RefundsAtMost, Accounted, RowsMatch, WorkersMatch, IdsFresh, Refunded;
    RefundKeepsAccounted(w.db.ledger, w'.db.ledger, w.receipts, id);
    if b in w'.db.batches { assert Untouched(w.db.ledger, w'.db.ledger, w'.db.batches[b].org, b); }
  }

  lemma ClaimKeepsClean(w: World, k: nat, id: Uuid, b: Uuid)
    requires Clean(w, b)
    ensures Clean(ClaimStep(w, k, id), b)
  {
    hide ClaimStep, Refunded;
    if ClaimStep(w, k, id) != w { ClaimShape(w, k, id); }
  }

  lemma SettleKeepsClean(w: World, k: nat, charged: nat, b: Uuid)
    requires Sound(w) && Told(w) && Clean(w, b) && k in w.workers && w.workers[k].batch == b
    ensures Clean(SettleStep(w, k, charged, true), b)
  {
    hide Account, Refunded, Insert, BatchNet, IdsFresh;
    var j, w' := w.workers[k], SettleStep(w, k, charged, true);
    if !j.failing && charged <= j.totalRows && b in w.db.batches {
      CompleteStory(w.db, b, charged, j.retentionDays, w.clock);
    }
  }

  lemma FailJobKeepsClean(w: World, k: nat, b: Uuid)
    requires Sound(w) && Told(w) && Clean(w, b) && k in w.workers && w.workers[k].batch == b
    ensures Clean(JobStep(w, k, FailJob), b)
  {
    hide Account, Refunded, Insert, BatchNet, IdsFresh;
  }

  lemma JobElsewhereKeepsClean(w: World, k: nat, op: JobOp, b: Uuid)
    requires Sound(w) && Clean(w, b) && k in w.workers && w.workers[k].batch != b && !op.ClaimJob?
    ensures Clean(JobStep(w, k, op), b)
  {
    hide Account, Refunded, RefundsAtMost, Insert, BatchNet, IdsFresh, Complete, Fail, Clean;
    var j := w.workers[k];
    JobSettles(w, k, op);
    FailRefunds(w.db, j.batch, j.org, j.totalRows, w.clock);
    if op.Settle? && op.charged <= j.totalRows {
      CompleteRefunds(w.db, j.batch, j.org, op.charged, j.totalRows, j.retentionDays, w.clock);
    }
    SettlingElsewhereKeepsClean(w, JobStep(w, k, op), j.batch, b);
  }

  lemma JobKeepsClean(w: World, k: nat, op: JobOp, b: Uuid)
    requires Sound(w) && Told(w) && Clean(w, b) && !LossyFor(w, OnJob(k, op), b)
    ensures Clean(JobStep(w, k, op), b)
  {
    hide Sound, Told, ClaimStep, SettleStep, CleanRow, CleanRoute;
    if op.ClaimJob? {
      ClaimKeepsClean(w, k, op.batch, b);
    } else if k in w.workers {
      if w.workers[k].batch != b {
        JobElsewhereKeepsClean(w, k, op, b);
      } else {
        if op.FailJob? { FailJobKeepsClean(w, k, b); }
        if op.Settle? { SettleKeepsClean(w, k, op.charged, b); }
      }
    }
  }

  lemma RouteKeepsClean(w: World, id: Uuid, op: RouteOp, b: Uuid)
    requires Sound(w) && Told(w) && Clean(w, b) && !LossyFor(w, OnRoute(id, op), b)
    ensures Clean(RouteStep(w, id, op), b)
  {
    hide Refunded, Sound, RowStory;
    if op.FailUpload? {
      if id == b { FailUploadKeepsClean(w, b); } else { FailUploadElsewhere(w, id, b); }
    }
  }

  lemma FailUploadKeepsClean(w: World, b: Uuid)
    requires Told(w) && Clean(w, b)
    ensures Clean(RouteStep(w, b, FailUpload), b)
  {
    hide Refunded, Insert, BatchNet;
  }

  lemma FailUploadElsewhere(w: World, id: Uuid, b: Uuid)
    requires Sound(w) && Clean(w, b) && id != b
    ensures Clean(RouteStep(w, id, FailUpload), b)
  {
    hide Account, Refunded, RefundsAtMost, Insert, BatchNet, IdsFresh, Fail;
    var w' := RouteStep(w, id, FailUpload);
    if w' != w {
      var v := w.(receipts := w'.receipts);
      StageKeepsSound(w, w'.receipts);
      FailRefunds(w.db, id, w.receipts[id].org, w.receipts[id].totalRows, w.clock);
      SettlingElsewhereKeepsClean(v, w', id, b);
    }
  }

  lemma BatchKeepsClean(w: World, id: Uuid, op: BatchOp, b: Uuid)
    requires Sound(w) && Clean(w, b)
    ensures Clean(BatchStep(w, id, op), b)
  {
    hide Account, Refunded, BatchNet, Insert, IdsFresh, RefundsAtMost;
    if op.DeleteFor? && id != b {
      DeleteRefunds(w.db, id, op.org, w.clock);
      if BatchStep(w, id, op).db != w.db { SettlingElsewhereKeepsClean(w, BatchStep(w, id, op), id, b); }
    }
  }

  lemma CheckKeepsClean(w: World, op: CheckOp, b: Uuid)
    requires Clean(w, b)
    ensures Clean(CheckStep(w, op), b)
  {
    hide Refunded;
  }

  lemma OrgKeepsClean(w: World, org: Uuid, op: OrgOp, b: Uuid)
    requires Sound(w) && Clean(w, b)
    ensures Clean(OrgStep(w, org, op), b)
  {
    hide Refunded, Insert, Accounted, RowsMatch, WorkersMatch, IdsFresh;
    if op.GrantCredits? {
      var e := Entry(org, op.credits, Grant, GrantOf(op.digest), w.clock);
      if Insert(w.db.ledger, e).Some? {
        OtherEntryKeepsAccounted(w.db.ledger, Insert(w.db.ledger, e).value, e, w.receipts);
      }
    }
  }

  lemma CommitKeepsClean(w: World, tx: nat, b: Uuid)
    requires Sound(w) && Clean(w, b) && tx in w.debits
    ensures Clean(CommitStep(w, tx), b)
  {
    hide Refunded, Insert, Accounted, RowsMatch;
    var w' := CommitStep(w, tx);
    if w'.db.ledger != w.db.ledger {
      OtherEntryKeepsAccounted(w.db.ledger, w'.db.ledger, DebitEntry(w.debits[tx]), w.receipts);
    }
  }

  lemma DebitKeepsClean(w: World, tx: nat, op: DebitOp, b: Uuid)
    requires Sound(w) && Clean(w, b)
    ensures Clean(DebitStep(w, tx, op), b)
  {
    hide CleanRow, CleanWork, CleanRoute, Sound, CommitStep;
    if tx in w.debits && op.Commit? { CommitKeepsClean(w, tx, b); }
  }

  lemma StepKeepsClean(w: World, e: Event, b: Uuid)
    requires Sound(w) && Told(w) && Clean(w, b) && !LossyFor(w, e, b)
    ensures Clean(Step(w, e), b)
  {
    hide Sound, Told, CleanRow, CleanWork, CleanRoute;
    match e
    case Tick =>
    case OnDebit(tx, op) => DebitKeepsClean(w, tx, op, b);
    case OnOrg(org, op) => OrgKeepsClean(w, org, op, b);
    case OnRoute(id, op) => RouteKeepsClean(w, id, op, b);
    case OnJob(k, op) => JobKeepsClean(w, k, op, b);
    case OnBatch(id, op) => BatchKeepsClean(w, id, op, b);
    case OnChecks(op) => CheckKeepsClean(w, op, b);
  }

  lemma {:induction false} RunKeepsClean(w: World, events: seq<Event>, b: Uuid)
    requires Sound(w) && Told(w) && Clean(w, b) && FaithfulTo(w, events, b)
    ensures Clean(Run(w, events), b)
    decreases |events|
  {
    hide Sound, Told, Clean, Step;
    if events != [] {
      StepKeepsTold(w, events[0]);
      StepKeepsClean(w, events[0], b);
      RunKeepsClean(Step(w, events[0]), events[1..], b);
    }
  }

  /**
   While a batch row exists its ledger net is -totalRows when pending or
   processing, -charged when done and 0 when failed, in every run that
   misreports nothing about that batch.
   */
  lemma StatusTellsCost(orgs: map<Uuid, Org>, events: seq<Event>, b: Uuid)
    requires FaithfulTo(Start(orgs), events, b)
    requires b in Run(Start(orgs), events).db.batches
    ensures var w := Run(Start(orgs), events);
      CostsWhatItSays(w.db.ledger, b, w.db.batches[b])
  {
    hide Run, CostsWhatItSays, Sound, Told, Refunded, BatchNet;
    StartIsTold(orgs);
    RunKeepsClean(Start(orgs), events, b);
    CostOfAnyRow(orgs, events, b);
  }

  /** In particular when nothing at all is misreported. */
  lemma {:induction false} HonestRunsAreFaithful(w: World, events: seq<Event>, b: Uuid)
    requires forall e :: e in events ==> !Lossy(e)
    ensures FaithfulTo(w, events, b)
    decreases |events|
  {
    hide Step;
    if events != [] {
      assert events[0] in events;
      HonestRunsAreFaithful(Step(w, events[0]), events[1..], b);
    }
  }
}

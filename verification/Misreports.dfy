/**
 What a misreported publish or completion does to a batch: which charges leave
 its row telling its cost, and runs that get there.
 */
module Misreports {
  import opened Prelude
  import opened Ledger
  import opened Batches
  import opened CreditProtocol
  import opened Settlement
  import opened Faithful

  /** A worker that can complete its batch, which is in processing. */
  ghost predicate AtWork(w: World, k: nat) {
    && Sound(w) && Told(w) && k in w.workers && !w.workers[k].failing
    && w.workers[k].batch in w.db.batches && w.db.batches[w.workers[k].batch].status == Processing
  }

  /** When a row of a run tells its cost. */
  lemma TellsUnless(l: seq<Entry>, b: Uuid, row: Batch)
    requires RowStory(l, b, row)
    ensures CostsWhatItSays(l, b, row) <==> !FailedAfterCharge(row) && !(DoneAfterRefund(l, b, row) && row.charged > 0)
  {
    hide BatchNet, Refunded;
  }

  lemma StoryOf(w: World, b: Uuid)
    requires Told(w) && b in w.db.batches
    ensures RowStory(w.db.ledger, b, w.db.batches[b])
  {
    hide RowStory;
  }

  /** Completing at work: the row is done at the charge, refunded of the rest. */
  lemma Completes(w: World, k: nat, charged: nat, reported: bool)
    requires AtWork(w, k) && charged <= w.workers[k].totalRows
    ensures var b := w.workers[k].batch;
      var w' := Step(w, OnJob(k, Settle(charged, reported)));
      && Sound(w') && Told(w') && w'.receipts == w.receipts && b in w'.db.batches
      && w'.db.batches[b].status == Done && w'.db.batches[b].charged == charged
      && w'.db.batches[b].org == w.db.batches[b].org && w'.db.batches[b].totalRows == w.db.batches[b].totalRows
      && (!reported ==> k in w'.workers && w'.workers[k] == w.workers[k].(failing := true))
  {
    hide Account, BatchNet, IdsFresh, Insert, Refunded;
    var j := w.workers[k];
    StepKeepsTold(w, OnJob(k, Settle(charged, reported)));
    hide Told;
    StoryOf(w, j.batch);
    CompleteStory(w.db, j.batch, charged, j.retentionDays, w.clock);
  }

  /** The terms a worker and a row agree on. */
  lemma SameTermsAtWork(w: World, k: nat)
    requires Sound(w) && k in w.workers && w.workers[k].batch in w.db.batches
    ensures var j := w.workers[k];
      w.db.batches[j.batch].org == j.org && w.db.batches[j.batch].totalRows == j.totalRows
  {
    hide Accounted, IdsFresh, Refunded;
  }

  lemma FailsByWorker(w: World, k: nat)
    requires Sound(w) && Told(w) && k in w.workers && w.workers[k].batch in w.db.batches
    ensures var b := w.workers[k].batch;
      var w' := Step(w, OnJob(k, FailJob));
      Told(w') && b in w'.db.batches && w'.db.batches[b] == w.db.batches[b].(status := Failed)
  {
    hide Sound, Told, Insert;
    StepKeepsTold(w, OnJob(k, FailJob));
  }

  lemma FailsByRoute(w: World, b: Uuid)
    requires Sound(w) && Told(w) && b in w.receipts && w.receipts[b].stage == Unpublished && b in w.db.batches
    ensures var w' := Step(w, OnRoute(b, FailUpload));
      && Sound(w') && Told(w') && w'.workers == w.workers
      && b in w'.db.batches && w'.db.batches[b] == w.db.batches[b].(status := Failed)
  {
    hide Sound, Told, Insert;
    StepKeepsTold(w, OnRoute(b, FailUpload));
  }

  /**
   When a completion commits but reports a failure, the worker goes on to fail
   the batch. The row then says nothing was charged, which is true exactly if
   nothing or everything had been charged.
   */
  lemma LostCompletionMisleads(w: World, k: nat, charged: nat)
    requires AtWork(w, k) && charged <= w.workers[k].totalRows
    ensures var b := w.workers[k].batch;
      var w' := Step(Step(w, OnJob(k, Settle(charged, false))), OnJob(k, FailJob));
      && b in w'.db.batches && w'.db.batches[b].status == Failed
      && (CostsWhatItSays(w'.db.ledger, b, w'.db.batches[b]) <==> charged == 0 || charged == w.workers[k].totalRows)
  {
    hide Step, Told, CostsWhatItSays, RowStory;
    var b := w.workers[k].batch;
    SameTermsAtWork(w, k);
    Completes(w, k, charged, false);
    var w1 := Step(w, OnJob(k, Settle(charged, false)));
    hide Sound;
    FailsByWorker(w1, k);
    var w2 := Step(w1, OnJob(k, FailJob));
    StoryOf(w2, b);
    TellsUnless(w2.db.ledger, b, w2.db.batches[b]);
  }

  /**
   When the job was queued although publishing it reported a failure, the route
   fails the batch while a worker may complete it. If the worker comes first, the
   row tells its cost exactly for a charge of nothing or everything.
   */
  lemma LostPublishWorkerFirst(w: World, k: nat, charged: nat)
    requires AtWork(w, k) && charged <= w.workers[k].totalRows
    requires w.workers[k].batch in w.receipts && w.receipts[w.workers[k].batch].stage == Unpublished
    ensures var b := w.workers[k].batch;
      var w' := Step(Step(w, OnJob(k, Settle(charged, true))), OnRoute(b, FailUpload));
      && b in w'.db.batches && w'.db.batches[b].status == Failed
      && (CostsWhatItSays(w'.db.ledger, b, w'.db.batches[b]) <==> charged == 0 || charged == w.workers[k].totalRows)
  {
    hide Step, Told, CostsWhatItSays, RowStory;
    var b := w.workers[k].batch;
    SameTermsAtWork(w, k);
    Completes(w, k, charged, true);
    var w1 := Step(w, OnJob(k, Settle(charged, true)));
    hide Sound;
    FailsByRoute(w1, b);
    var w2 := Step(w1, OnRoute(b, FailUpload));
    StoryOf(w2, b);
    TellsUnless(w2.db.ledger, b, w2.db.batches[b]);
  }

  /** Completing a batch the route has failed: only a full charge, which needs no refund, goes through. */
  lemma CompletesFailed(w: World, k: nat, charged: nat)
    requires Sound(w) && Told(w) && k in w.workers && !w.workers[k].failing && charged <= w.workers[k].totalRows
    requires w.workers[k].batch in w.db.batches && w.db.batches[w.workers[k].batch].status == Failed
    ensures var b := w.workers[k].batch;
      var w' := Step(w, OnJob(k, Settle(charged, true)));
      && Told(w') && b in w'.db.batches && w'.db.batches[b].totalRows == w.workers[k].totalRows
      && (if charged == w.workers[k].totalRows
          then w'.db.batches[b].status == Done && w'.db.batches[b].charged == charged
               && (charged > 0 ==> Refunded(w'.db.ledger, w'.db.batches[b].org, b))
          else w'.db == w.db)
  {
    hide Account, BatchNet, IdsFresh, Insert, Refunded;
    var j := w.workers[k];
    StepKeepsTold(w, OnJob(k, Settle(charged, true)));
    SameTermsAtWork(w, k);
    StoryOf(w, j.batch);
    assert Completable(w.db.batches[j.batch]);
    hide Told;
    CompleteStory(w.db, j.batch, charged, j.retentionDays, w.clock);
  }

  /**
   If the route comes first, the completion goes through, as done at no cost,
   exactly for a full charge; otherwise the row stays failed and refunded.
   */
  lemma LostPublishRouteFirst(w: World, k: nat, charged: nat)
    requires AtWork(w, k) && charged <= w.workers[k].totalRows
    requires w.workers[k].batch in w.receipts && w.receipts[w.workers[k].batch].stage == Unpublished
    ensures var b, total := w.workers[k].batch, w.workers[k].totalRows;
      var w' := Step(Step(w, OnRoute(b, FailUpload)), OnJob(k, Settle(charged, true)));
      && b in w'.db.batches
      && w'.db.batches[b].status == (if charged == total then Done else Failed)
      && (CostsWhatItSays(w'.db.ledger, b, w'.db.batches[b]) <==> charged < total || total == 0)
  {
    hide Step, CostsWhatItSays, RowStory, Refunded;
    var b := w.workers[k].batch;
    SameTermsAtWork(w, k);
    FailsByRoute(w, b);
    var w1 := Step(w, OnRoute(b, FailUpload));
    assert Completable(w1.db.batches[b]);
    hide Sound, Told;
    CompletesFailed(w1, k, charged);
    var w2 := Step(w1, OnJob(k, Settle(charged, true)));
    StoryOf(w2, b);
    TellsUnless(w2.db.ledger, b, w2.db.batches[b]);
  }

  // ------------------------------------------------------------ runs that get there

  const CUSTOMER: map<Uuid, Org> := map[1 := Org(7, true)]

  /** A grant of `n` credits and an upload of `n` rows, as batch 5. */
  function UploadRun(n: nat): seq<Event> {
    [OnOrg(1, GrantCredits(n, ""))] + ([OnDebit(0, Call(1, Upload(5, n)))] + ([OnDebit(0, Begin)]
    + ([OnDebit(0, Lock)] + ([OnDebit(0, ReadBalance)] + ([OnDebit(0, Commit)] + [])))))
  }

  function Uploading(n: nat, phase: Phase): World {
    World(0, Tables(CUSTOMER, [Entry(1, n, Grant, GrantOf(""), 0)], map[]), {},
          if Holds(phase) then map[1 := 0] else map[], map[0 := Debit(1, Upload(5, n), 0, 0, phase)], {5}, map[], map[], [])
  }

  function Uploaded(n: nat): World {
    World(0,
          Tables(CUSTOMER, [Entry(1, n, Grant, GrantOf(""), 0), Entry(1, -(n as int), BatchCheck, ById(5), 0)],
                 map[5 := Batch(1, Pending, n, 0, 7 * DAY_MS)]),
          {}, map[], map[], {5}, map[5 := Receipt(1, n, false, Stored)], map[], [])
  }

  lemma GrantAndCall(n: nat)
    requires n > 0
    ensures Step(Step(Start(CUSTOMER), OnOrg(1, GrantCredits(n, ""))), OnDebit(0, Call(1, Upload(5, n)))) == Uploading(n, Called)
  {
  }

  lemma UploadAdvances(n: nat)
    requires n > 0
    ensures Step(Uploading(n, Called), OnDebit(0, Begin)) == Uploading(n, Begun)
    ensures Step(Uploading(n, Begun), OnDebit(0, Lock)) == Uploading(n, Locked)
    ensures Step(Uploading(n, Locked), OnDebit(0, ReadBalance)) == Uploading(n, BalanceRead)
  {
    var none: seq<Entry> := [];
    BalanceAppend(none, Entry(1, n, Grant, GrantOf(""), 0), 1);
    assert none + [Entry(1, n, Grant, GrantOf(""), 0)] == [Entry(1, n, Grant, GrantOf(""), 0)];
  }

  lemma UploadCommits(n: nat)
    ensures Step(Uploading(n, BalanceRead), OnDebit(0, Commit)) == Uploaded(n)
  {
    var w := Uploading(n, BalanceRead);
    var grant, entry := Entry(1, n, Grant, GrantOf(""), 0), Entry(1, -(n as int), BatchCheck, ById(5), 0);
    assert !HasReference([grant], 1, ById(5)) && [grant] + [entry] == [grant, entry];
    assert w.debits - {0} == map[] && w.locks - {1} == map[];
  }

  lemma UploadReached(n: nat)
    requires n > 0
    ensures Run(Start(CUSTOMER), UploadRun(n)) == Uploaded(n)
  {
    hide Step, Uploading, Uploaded;
    GrantAndCall(n);
    UploadAdvances(n);
    UploadCommits(n);
    var start := Start(CUSTOMER);
    var last := [OnDebit(0, Commit)] + [];
    var reading := [OnDebit(0, ReadBalance)] + last;
    var locking := [OnDebit(0, Lock)] + reading;
    var beginning := [OnDebit(0, Begin)] + locking;
    var calling := [OnDebit(0, Call(1, Upload(5, n)))] + beginning;
    RunOne(start, OnOrg(1, GrantCredits(n, "")), calling);
    RunOne(Step(start, OnOrg(1, GrantCredits(n, ""))), OnDebit(0, Call(1, Upload(5, n))), beginning);
    RunOne(Uploading(n, Called), OnDebit(0, Begin), locking);
    RunOne(Uploading(n, Begun), OnDebit(0, Lock), reading);
    RunOne(Uploading(n, Locked), OnDebit(0, ReadBalance), last);
    RunOne(Uploading(n, BalanceRead), OnDebit(0, Commit), []);
  }

  function WorkRun(n: nat, publish: RouteOp): seq<Event> {
    UploadRun(n) + ([OnRoute(5, publish)] + ([OnJob(0, ClaimJob(5))] + []))
  }

  lemma ClaimReached(n: nat, publish: RouteOp)
    requires publish == Publish || publish == PublishLost
    ensures var w := Step(Step(Uploaded(n), OnRoute(5, publish)), OnJob(0, ClaimJob(5)));
      && w.workers == map[0 := Worker(5, 1, n, 7, false)]
      && 5 in w.db.batches && w.db.batches[5].status == Processing
      && 5 in w.receipts && w.receipts[5].stage == (if publish == Publish then Published else Unpublished)
  {
  }

  /** A worker on a batch of any size, its publish reported or lost. */
  lemma WorkReached(n: nat, publish: RouteOp)
    requires n > 0 && (publish == Publish || publish == PublishLost)
    ensures var w := Run(Start(CUSTOMER), WorkRun(n, publish));
      && AtWork(w, 0) && w.workers[0].batch == 5 && w.workers[0].totalRows == n
      && 5 in w.receipts && w.receipts[5].stage == (if publish == Publish then Published else Unpublished)
  {
    hide Step, Uploaded, UploadRun, Sound, Told;
    UploadReached(n);
    ClaimReached(n, publish);
    var claiming := [OnJob(0, ClaimJob(5))] + [];
    RunConcat(Start(CUSTOMER), UploadRun(n), [OnRoute(5, publish)] + claiming);
    RunOne(Uploaded(n), OnRoute(5, publish), claiming);
    RunOne(Step(Uploaded(n), OnRoute(5, publish)), OnJob(0, ClaimJob(5)), []);
    StartIsTold(CUSTOMER);
    RunKeepsTold(Start(CUSTOMER), WorkRun(n, publish));
  }

  lemma RunTwoMore(orgs: map<Uuid, Org>, events: seq<Event>, e: Event, f: Event)
    ensures Run(Start(orgs), events + ([e] + ([f] + []))) == Step(Step(Run(Start(orgs), events), e), f)
  {
    hide Step;
    var w := Run(Start(orgs), events);
    RunConcat(Start(orgs), events, [e] + ([f] + []));
    RunOne(w, e, [f] + []);
    RunOne(Step(w, e), f, []);
  }

  ghost predicate TellsCost(w: World, b: Uuid) {
    b in w.db.batches && CostsWhatItSays(w.db.ledger, b, w.db.batches[b])
  }

  /**
   For every size and charge, runs from nothing: a lost completion, and a lost
   publish with the worker or the route first. Each breaks the row's word exactly
   for the charges named above, so any partial charge of two rows or more breaks
   the first two, and any full charge the third.
   */
  lemma MisreportsHappen(n: nat, charged: nat)
    requires n > 0 && charged <= n
    ensures TellsCost(Run(Start(CUSTOMER), WorkRun(n, Publish) + ([OnJob(0, Settle(charged, false))] + ([OnJob(0, FailJob)] + []))), 5)
       <==> charged == 0 || charged == n
    ensures TellsCost(Run(Start(CUSTOMER), WorkRun(n, PublishLost) + ([OnJob(0, Settle(charged, true))] + ([OnRoute(5, FailUpload)] + []))), 5)
       <==> charged == 0 || charged == n
    ensures TellsCost(Run(Start(CUSTOMER), WorkRun(n, PublishLost) + ([OnRoute(5, FailUpload)] + ([OnJob(0, Settle(charged, true))] + []))), 5)
       <==> charged < n
  {
    hide Step, Run, WorkRun, AtWork, CostsWhatItSays;
    WorkReached(n, Publish);
    WorkReached(n, PublishLost);
    var w, v := Run(Start(CUSTOMER), WorkRun(n, Publish)), Run(Start(CUSTOMER), WorkRun(n, PublishLost));
    assert 0 in w.workers && 0 in v.workers by { WorkerThere(w, 0); WorkerThere(v, 0); }
    LostCompletionMisleads(w, 0, charged);
    LostPublishWorkerFirst(v, 0, charged);
    LostPublishRouteFirst(v, 0, charged);
    RunTwoMore(CUSTOMER, WorkRun(n, Publish), OnJob(0, Settle(charged, false)), OnJob(0, FailJob));
    RunTwoMore(CUSTOMER, WorkRun(n, PublishLost), OnJob(0, Settle(charged, true)), OnRoute(5, FailUpload));
    RunTwoMore(CUSTOMER, WorkRun(n, PublishLost), OnRoute(5, FailUpload), OnJob(0, Settle(charged, true)));
  }

  lemma WorkerThere(w: World, k: nat)
    requires AtWork(w, k)
    ensures k in w.workers
  {
  }
}

/**
 One batch from upload to settlement: what inspection counted is reserved, what
 the processor charged is settled, and the ledger says so.
 */
module BatchRun {
  import opened Prelude
  import opened Ledger
  import opened Batches
  import opened CreditProtocol
  import opened Settlement
  import opened Faithful
  import opened Misreports
  import opened CsvInspect
  import opened BatchProcessor
  import Text
  import ResultCodec
  import CsvLine

  /** The processor's loop on an accepted file; its charge never exceeds what inspection counted. */
  method ProcessUpload(env: Env, records: seq<Record>, isHeader: string -> bool, chunkSize: nat)
    returns (upload: Inspection, job: Job)
    requires forall column :: Collisionless(env, FileAddresses(env, column, records))
    ensures Inspects(records, isHeader, upload)
    ensures upload.Accepted? ==>
      && job.Finished(env, upload.emailColumn, DataRows(records, upload.hasHeader), chunkSize)
      && job.charges.charged + job.charges.cached + job.charges.engineErrors == |job.consulted|
      && job.charges.charged == |job.inserted| <= upload.totalRows
      && Total(job.distribution) == job.processed == upload.totalRows
  {
    hide Job.Finished, Inspects;
    upload := InspectCsv(records, isHeader);
    job := new Job();
    if upload.Accepted? {
      FewerAddresses(env, upload.emailColumn, records, upload.hasHeader);
      job.ProcessBatch(env, upload.emailColumn, upload.hasHeader, records, chunkSize);
      SettlementAddsUp(job, env, records, isHeader, upload, chunkSize);
    }
  }

  lemma FewerAddresses(env: Env, column: nat, records: seq<Record>, hasHeader: bool)
    requires Collisionless(env, FileAddresses(env, column, records))
    ensures Collisionless(env, FileAddresses(env, column, DataRows(records, hasHeader)))
  {
    var data := DataRows(records, hasHeader);
    forall a | a in FileAddresses(env, column, data)
      ensures a in FileAddresses(env, column, records)
    {
      var i :| 0 <= i < |data| && ReadRow(env, column, data[i]).address == a;
      var k := |records| - |data| + i;
      assert records[k] == data[i];
    }
  }

  /** A worker whose batch was reserved by inspection processes the file and settles: done, and paid for exactly. */
  method WorkOnBatch(w: World, k: nat, env: Env, records: seq<Record>, isHeader: string -> bool, chunkSize: nat)
    returns (upload: Inspection, job: Job, w': World)
    requires AtWork(w, k) && forall column :: Collisionless(env, FileAddresses(env, column, records))
    ensures Inspects(records, isHeader, upload)
    ensures upload.Accepted? && upload.totalRows == w.workers[k].totalRows ==>
      var b := w.workers[k].batch;
      && w' == Step(w, OnJob(k, Settle(job.charges.charged, true)))
      && b in w'.db.batches && w'.db.batches[b].status == Done && w'.db.batches[b].charged == job.charges.charged
      && BatchNet(w'.db.ledger, w'.db.batches[b].org, b) == -(|job.inserted| as int)
  {
    hide AtWork, Inspects, Job.Finished;
    upload, job := ProcessUpload(env, records, isHeader, chunkSize);
    w' := w;
    WorkerThere(w, k);
    if upload.Accepted? && upload.totalRows == w.workers[k].totalRows {
      w' := Step(w, OnJob(k, Settle(job.charges.charged, true)));
      SettledAtCharge(w, k, job.charges.charged);
    }
  }

  /** Completing a batch at work commits, and its net is the charge. */
  lemma SettledAtCharge(w: World, k: nat, charged: nat)
    requires AtWork(w, k) && k in w.workers && charged <= w.workers[k].totalRows
    ensures var b := w.workers[k].batch;
      var w' := Step(w, OnJob(k, Settle(charged, true)));
      && b in w'.db.batches && w'.db.batches[b].status == Done && w'.db.batches[b].charged == charged
      && BatchNet(w'.db.ledger, w'.db.batches[b].org, b) == -(charged as int)
  {
    hide BatchNet, Insert, Account, Accounted, IdsFresh, RefundsAtMost;
    var j := w.workers[k];
    Completes(w, k, charged, true);
    SameTermsAtWork(w, k);
    StoryOf(w, j.batch);
    assert Account(w.db.ledger, j.org, j.batch, j.totalRows) by { WorkerAccount(w, k); }
    CompleteSettles(w.db, j.batch, j.org, charged, j.totalRows, j.retentionDays, w.clock);
  }

  lemma WorkerAccount(w: World, k: nat)
    requires Sound(w) && k in w.workers
    ensures var j := w.workers[k]; Account(w.db.ledger, j.org, j.batch, j.totalRows)
  {
    hide Account;
  }

  // --------------------------------------------------------------- the result file

  /** A row of the result file: the record's own cells and the five added ones. */
  function ResultCells(line: Line): seq<string> {
    line.cells + [line.normalized, ResultCodec.ShowVerdict(line.result.verdict), Text.ShowNat(line.result.score),
                  Text.Join(line.result.reasonCodes, '|'), line.result.suggestion]
  }

  function HeaderCells(header: Record): seq<string> {
    header + ["normalized_email", "verdict", "score", "reason_codes", "suggestion"]
  }

  function ResultRows(header: seq<Record>, output: seq<Line>): (rows: seq<seq<string>>)
    ensures |rows| == |header| + |output|
  {
    seq(|header|, i requires 0 <= i < |header| => HeaderCells(header[i]))
    + seq(|output|, i requires 0 <= i < |output| => ResultCells(output[i]))
  }

  /** A cell as it is read back: a formula comes behind an apostrophe. */
  ghost predicate CellReads(read: string, cell: string) {
    read == if CsvLine.Inert(cell) then cell else "'" + cell
  }

  /** The record's own cells, then the address, the verdict and the score as they are. */
  ghost predicate RowReads(row: seq<string>, line: Line) {
    var n := |line.cells|;
    && |row| == n + 5 && (forall j :: 0 <= j < n ==> CellReads(row[j], line.cells[j]))
    && CellReads(row[n], line.normalized)
    && row[n + 1] == ResultCodec.ShowVerdict(line.result.verdict) && row[n + 2] == Text.ShowNat(line.result.score)
    && CellReads(row[n + 3], Text.Join(line.result.reasonCodes, '|')) && CellReads(row[n + 4], line.result.suggestion)
  }

  /** Reading the result file as CSV gives, after the header, one row for each output line. */
  lemma ResultFileReads(header: seq<Record>, output: seq<Line>)
    ensures var rows := CsvLine.ReadFile(CsvLine.PrintFile(ResultRows(header, output)));
      && rows.Some? && |rows.value| == |header| + |output|
      && forall i :: 0 <= i < |output| ==> RowReads(rows.value[|header| + i], output[i])
  {
    hide CsvLine.ReadFile, CsvLine.PrintFile, CsvLine.Inert, CsvLine.NeutralizeRows, RowReads;
    var written := ResultRows(header, output);
    CsvLine.FileRead(written);
    var rows := CsvLine.NeutralizeRows(written);
    forall i | 0 <= i < |output|
      ensures RowReads(rows[|header| + i], output[i])
    {
      assert written[|header| + i] == ResultCells(output[i]);
      RowIsRead(rows[|header| + i], output[i]);
    }
  }

  lemma RowIsRead(row: seq<string>, line: Line)
    requires |row| == |ResultCells(line)| && forall j :: 0 <= j < |row| ==> CellReads(row[j], ResultCells(line)[j])
    ensures RowReads(row, line)
  {
    hide CsvLine.Inert, Text.ShowNat, ResultCodec.ShowVerdict;
    var cells, n := ResultCells(line), |line.cells|;
    assert forall j :: 0 <= j < n ==> cells[j] == line.cells[j];
    assert cells[n] == line.normalized && cells[n + 1] == ResultCodec.ShowVerdict(line.result.verdict);
    assert cells[n + 2] == Text.ShowNat(line.result.score) && cells[n + 3] == Text.Join(line.result.reasonCodes, '|');
    assert cells[n + 4] == line.result.suggestion;
    VerdictShown(line.result.verdict);
    ScoreShown(line.result.score);
  }

  lemma VerdictShown(v: ResultCodec.Verdict)
    ensures CsvLine.Inert(ResultCodec.ShowVerdict(v))
  {
  }

  lemma ScoreShown(n: nat)
    ensures CsvLine.Inert(Text.ShowNat(n))
  {
    assert Text.ShowNat(n)[0] in Text.ShowNat(n);
  }
}

/**
 Everything that moves credits, as one machine of interleaved steps. Debits
 take the organisation lock, read, and commit in separate steps; grants wait
 for the lock; refunds from completion, failure and deletion ignore it.
 Claims, deletions, completions, failures and the upload route race on batch
 rows. Every list of events is a run: an event that is not enabled does nothing.
 */
module CreditProtocol {
  import opened Prelude
  import opened Ledger
  import opened Batches

  const CACHE_WINDOW_MS: nat := 7 * DAY_MS

  datatype Check = Check(id: Uuid, org: Uuid, hash: string, createdAt: nat, expiresAt: nat)

  datatype Kind =
    | Email(checkId: Uuid, hash: string)
    | Phone(phoneCheckId: Uuid)
    | Upload(batchId: Uuid, totalRows: nat)

  datatype Phase = Called | Begun | Locked | CacheMissed | BalanceRead

  /** An open debit: `requestedAt` is the caller's `now`, `startedAt` the transaction's. */
  datatype Debit = Debit(org: Uuid, kind: Kind, requestedAt: nat, startedAt: nat, phase: Phase)

  datatype Stage = Stored | Published | Unpublished | Settled

  /** What the upload route knows of a batch it created. */
  datatype Receipt = Receipt(org: Uuid, totalRows: nat, queued: bool, stage: Stage)

  /** A worker that has claimed a batch and not yet settled it. */
  datatype Worker = Worker(batch: Uuid, org: Uuid, totalRows: nat, retentionDays: nat, failing: bool)

  /** History: one committed email debit; `startedAt` is what its check and ledger rows are stamped with. */
  datatype Paid = Paid(org: Uuid, hash: string, requestedAt: nat, startedAt: nat, retentionDays: nat, committedAt: nat)

  datatype World = World(
    clock: nat,
    db: Tables,
    checks: set<Check>,
    locks: map<Uuid, nat>,
    debits: map<nat, Debit>,
    issued: set<Uuid>,
    receipts: map<Uuid, Receipt>,
    workers: map<nat, Worker>,
    paid: seq<Paid>)

  datatype DebitOp = Call(org: Uuid, kind: Kind) | Begin | Lock | ReadCache | ReadBalance | Commit | Abort
  datatype OrgOp = GrantCredits(credits: nat, digest: string) | SetRetention(days: nat) | SoftDelete
  /** PublishLost: the job was queued although publishing it reported a failure. */
  datatype RouteOp = Publish | PublishFails | PublishLost | FailUpload
  /** Settle(charged, false): the completion committed but reported a failure. */
  datatype JobOp = ClaimJob(batch: Uuid) | Settle(charged: nat, reported: bool) | Break | FailJob | Crash
  datatype BatchOp = DeleteFor(org: Uuid) | RemoveRow
  datatype CheckOp = Store(check: Check) | PurgeExpired | DeleteOne(target: Check) | Wipe(org: Uuid)

  datatype Event =
    | Tick
    | OnDebit(tx: nat, debit: DebitOp)
    | OnOrg(org: Uuid, change: OrgOp)
    | OnRoute(batch: Uuid, route: RouteOp)
    | OnJob(worker: nat, job: JobOp)
    | OnBatch(row: Uuid, action: BatchOp)
    | OnChecks(checks: CheckOp)

  /** A commit or a publish that took effect and was reported as failed. */
  predicate Lossy(e: Event) {
    (e.OnRoute? && e.route.PublishLost?) || (e.OnJob? && e.job.Settle? && !e.job.reported)
  }

  /** A customer deleting check rows before they expire. */
  predicate ExplicitDeletion(e: Event) {
    e.OnChecks? && (e.checks.DeleteOne? || e.checks.Wipe?)
  }

  predicate Holds(phase: Phase) {
    phase == Locked || phase == CacheMissed || phase == BalanceRead
  }

  function Cost(kind: Kind): nat {
    if kind.Upload? then kind.totalRows else 1
  }

  function Start(orgs: map<Uuid, Org>): World {
    World(0, Tables(orgs, [], map[]), {}, map[], map[], {}, map[], map[], [])
  }

  // ------------------------------------------------------------------ debits

  /** End of a debit transaction, committed or not: the lock goes with it. */
  function Close(w: World, tx: nat): World
    requires tx in w.debits
  {
    var d := w.debits[tx];
    w.(debits := w.debits - {tx}, locks := if Holds(d.phase) then w.locks - {d.org} else w.locks)
  }

  function Enter(w: World, tx: nat, phase: Phase): World
    requires tx in w.debits
  {
    w.(debits := w.debits[tx := w.debits[tx].(phase := phase)])
  }

  /** findRecentEmailCheck's filter. */
  predicate Reusable(c: Check, org: Uuid, hash: string, now: nat) {
    c.org == org && c.hash == hash && now < c.createdAt + CACHE_WINDOW_MS && now < c.expiresAt
  }

  /** A fresh batch id is drawn for every upload. */
  function CallStep(w: World, tx: nat, org: Uuid, kind: Kind): World {
    if tx in w.debits || (kind.Upload? && kind.batchId in w.issued) then w
    else w.(debits := w.debits[tx := Debit(org, kind, w.clock, w.clock, Called)],
            issued := if kind.Upload? then w.issued + {kind.batchId} else w.issued)
  }

  function LockStep(w: World, tx: nat): World
    requires tx in w.debits
  {
    var org := w.debits[tx].org;
    if w.debits[tx].phase != Begun || org in w.locks then w
    else if org !in w.db.orgs || !w.db.orgs[org].active then Close(w, tx)
    else Enter(w, tx, Locked).(locks := w.locks[org := tx])
  }

  function ReadCacheStep(w: World, tx: nat): World
    requires tx in w.debits
  {
    var d := w.debits[tx];
    if d.phase != Locked || !d.kind.Email? then w
    else if exists c :: c in w.checks && Reusable(c, d.org, d.kind.hash, d.requestedAt) then Close(w, tx)
    else Enter(w, tx, CacheMissed)
  }

  function ReadBalanceStep(w: World, tx: nat): World
    requires tx in w.debits
  {
    var d := w.debits[tx];
    if d.phase != (if d.kind.Email? then CacheMissed else Locked) then w
    else if Balance(w.db.ledger, d.org) < Cost(d.kind) then Close(w, tx)
    else Enter(w, tx, BalanceRead)
  }

  /** The entry a debit writes when it commits. */
  function DebitEntry(d: Debit): Entry {
    match d.kind
    case Email(id, _) => Entry(d.org, -1, SingleCheck, ById(id), d.startedAt)
    case Phone(id) => Entry(d.org, -1, SingleCheck, ById(id), d.startedAt)
    case Upload(id, totalRows) => Entry(d.org, -(totalRows as int), BatchCheck, ById(id), d.startedAt)
  }

  /** The rows and the ledger entry of a debit become visible together. */
  function CommitStep(w: World, tx: nat): World
    requires tx in w.debits
  {
    var d := w.debits[tx];
    var org := d.org;
    if d.phase != BalanceRead || org !in w.db.orgs then w
    else if d.kind.Upload? then
      var id := d.kind.batchId;
      match Reserve(w.db, org, id, d.kind.totalRows, d.startedAt)
      case None => Close(w, tx)
      case Some(db) => Close(w, tx).(db := db, receipts := w.receipts[id := Receipt(org, d.kind.totalRows, false, Stored)])
    else
      match Insert(w.db.ledger, DebitEntry(d))
      case None => Close(w, tx)
      case Some(ledger) =>
        var paying := Close(w, tx).(db := w.db.(ledger := ledger));
        if d.kind.Phone? then paying
        else
          var expiresAt := d.requestedAt + w.db.orgs[org].retentionDays * DAY_MS;
          paying.(checks := w.checks + {Check(d.kind.checkId, org, d.kind.hash, d.startedAt, expiresAt)},
                  paid := w.paid + [Paid(org, d.kind.hash, d.requestedAt, d.startedAt, w.db.orgs[org].retentionDays, w.clock)])
  }

  function DebitStep(w: World, tx: nat, op: DebitOp): World {
    if op.Call? then CallStep(w, tx, op.org, op.kind)
    else if tx !in w.debits then w
    else
      match op
      case Begin =>
        if w.debits[tx].phase != Called then w
        else w.(debits := w.debits[tx := w.debits[tx].(startedAt := w.clock, phase := Begun)])
      case Lock => LockStep(w, tx)
      case ReadCache => ReadCacheStep(w, tx)
      case ReadBalance => ReadBalanceStep(w, tx)
      case Commit => CommitStep(w, tx)
      case _ => Close(w, tx)
  }

  // ------------------------------------- organisations, routes, jobs, batches

  function OrgStep(w: World, org: Uuid, op: OrgOp): World {
    if org in w.locks || org !in w.db.orgs || !w.db.orgs[org].active then w
    else
      var old_ := w.db.orgs[org];
      match op
      case GrantCredits(credits, digest) => (
        if credits == 0 then w
        else
          match Insert(w.db.ledger, Entry(org, credits, Grant, GrantOf(digest), w.clock))
          case None => w
          case Some(ledger) => w.(db := w.db.(ledger := ledger)))
      case SetRetention(days) =>
        if days !in {7, 30, 90} then w
        else w.(db := w.db.(orgs := w.db.orgs[org := old_.(retentionDays := days)]))
      case SoftDelete => w.(db := w.db.(orgs := w.db.orgs[org := old_.(active := false)]))
  }

  /** Uploads, jobs and batch rows leave debits, checks and organisations alone. */
  ghost predicate KeepsDebitSide(w: World, w': World) {
    && w'.clock == w.clock && w'.checks == w.checks && w'.locks == w.locks && w'.debits == w.debits
    && w'.issued == w.issued && w'.paid == w.paid && w'.db.orgs == w.db.orgs
  }

  function RouteStep(w: World, id: Uuid, op: RouteOp): (w': World)
    ensures KeepsDebitSide(w, w')
  {
    if id !in w.receipts || w.receipts[id].stage != (if op.FailUpload? then Unpublished else Stored) then w
    else
      var r := w.receipts[id];
      match op
      case Publish => w.(receipts := w.receipts[id := r.(queued := true, stage := Published)])
      case PublishFails => w.(receipts := w.receipts[id := r.(stage := Unpublished)])
      case PublishLost => w.(receipts := w.receipts[id := r.(queued := true, stage := Unpublished)])
      case FailUpload =>
        w.(receipts := w.receipts[id := r.(stage := Settled)], db := Fail(w.db, id, r.org, r.totalRows, w.clock))
  }

  function ClaimStep(w: World, k: nat, id: Uuid): (w': World)
    ensures KeepsDebitSide(w, w')
  {
    if k in w.workers || id !in w.receipts || !w.receipts[id].queued then w
    else
      var (db, result) := Claim(w.db, id);
      match result
      case NotClaimable => w
      case Claimed(batch, days) =>
        w.(db := db, workers := w.workers[k := Worker(id, batch.org, batch.totalRows, days, false)])
      case ClaimOrgUnavailable(batch) =>
        w.(db := db, workers := w.workers[k := Worker(id, batch.org, batch.totalRows, 0, true)])
  }

  /** `charged` is what the batch processor counted; BatchRun.ProcessUpload shows that it never exceeds the reservation. */
  function SettleStep(w: World, k: nat, charged: nat, reported: bool): (w': World)
    requires k in w.workers
    ensures KeepsDebitSide(w, w')
  {
    var j := w.workers[k];
    if j.failing || charged > j.totalRows then w
    else
      var (db, result) := Complete(w.db, j.batch, j.org, charged, j.totalRows, j.retentionDays, w.clock);
      w.(db := db,
         workers := if result == Committed && reported then w.workers - {k} else w.workers[k := j.(failing := true)])
  }

  function JobStep(w: World, k: nat, op: JobOp): (w': World)
    ensures KeepsDebitSide(w, w')
  {
    if op.ClaimJob? then ClaimStep(w, k, op.batch)
    else if k !in w.workers then w
    else
      var j := w.workers[k];
      match op
      case Settle(charged, reported) => SettleStep(w, k, charged, reported)
      case Break => w.(workers := w.workers[k := j.(failing := true)])
      case FailJob => w.(db := Fail(w.db, j.batch, j.org, j.totalRows, w.clock), workers := w.workers - {k})
      case _ => w.(workers := w.workers - {k})
  }

  /** RemoveRow: expiry and organisation purge delete rows without a refund. */
  function BatchStep(w: World, id: Uuid, op: BatchOp): (w': World)
    ensures KeepsDebitSide(w, w')
  {
    match op
    case DeleteFor(org) => w.(db := Delete(w.db, id, org, w.clock).0)
    case RemoveRow => w.(db := w.db.(batches := w.db.batches - {id}))
  }

  function CheckStep(w: World, op: CheckOp): World {
    match op
    case Store(c) => w.(checks := w.checks + {c})
    case PurgeExpired => w.(checks := (set c | c in w.checks && w.clock < c.expiresAt))
    case DeleteOne(c) => w.(checks := w.checks - {c})
    case Wipe(org) =>
      if org in w.locks then w
      else w.(checks := (set c | c in w.checks && c.org != org),
              db := w.db.(batches := map b | b in w.db.batches && w.db.batches[b].org != org :: w.db.batches[b]))
  }

  function Step(w: World, e: Event): World {
    match e
    case Tick => w.(clock := w.clock + 1)
    case OnDebit(tx, op) => DebitStep(w, tx, op)
    case OnOrg(org, op) => OrgStep(w, org, op)
    case OnRoute(id, op) => RouteStep(w, id, op)
    case OnJob(k, op) => JobStep(w, k, op)
    case OnBatch(id, op) => BatchStep(w, id, op)
    case OnChecks(op) => CheckStep(w, op)
  }

  function Run(w: World, events: seq<Event>): World
    decreases |events|
  {
    if events == [] then w else Run(Step(w, events[0]), events[1..])
  }

  lemma RunOne(w: World, e: Event, rest: seq<Event>)
    ensures Run(w, [e] + rest) == Run(Step(w, e), rest)
  {
    assert ([e] + rest)[1..] == rest;
  }

  lemma {:induction false} RunConcat(w: World, xs: seq<Event>, ys: seq<Event>)
    ensures Run(w, xs + ys) == Run(Run(w, xs), ys)
    decreases |xs|
  {
    if xs == [] {
      assert xs + ys == ys;
    } else {
      assert (xs + ys)[1..] == xs[1..] + ys;
      RunConcat(Step(w, xs[0]), xs[1..], ys);
    }
  }
}

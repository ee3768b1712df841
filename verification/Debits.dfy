/**
 The locked debits when nothing comes in between: what one call of each does,
 and that the upload's debit is the transaction that creates a batch.
 */
module Debits {
  import opened Prelude
  import opened Ledger
  import opened Batches
  import opened CreditProtocol

  /** The steps of one debit, in order. */
  function Steps(tx: nat, org: Uuid, kind: Kind): seq<Event> {
    [OnDebit(tx, Call(org, kind))] + ([OnDebit(tx, Begin)] + ([OnDebit(tx, Lock)]
    + ((if kind.Email? then [OnDebit(tx, ReadCache)] else []) + ([OnDebit(tx, ReadBalance)] + ([OnDebit(tx, Commit)] + [])))))
  }

  /** The caller's transaction is new and finds the organisation unlocked. */
  ghost predicate Undisturbed(w: World, tx: nat, org: Uuid, kind: Kind) {
    tx !in w.debits && org !in w.locks && (kind.Upload? ==> kind.batchId !in w.issued)
  }

  /** The world with the debit open in some phase. */
  function Open(w: World, tx: nat, org: Uuid, kind: Kind, phase: Phase): World {
    w.(debits := w.debits[tx := Debit(org, kind, w.clock, w.clock, phase)],
       locks := if Holds(phase) then w.locks[org := tx] else w.locks,
       issued := if kind.Upload? then w.issued + {kind.batchId} else w.issued)
  }

  /** The world with the debit gone. */
  function Closed(w: World, kind: Kind): World {
    w.(issued := if kind.Upload? then w.issued + {kind.batchId} else w.issued)
  }

  lemma OpensAndLocks(w: World, tx: nat, org: Uuid, kind: Kind)
    requires Undisturbed(w, tx, org, kind)
    ensures Step(w, OnDebit(tx, Call(org, kind))) == Open(w, tx, org, kind, Called)
    ensures Step(Open(w, tx, org, kind, Called), OnDebit(tx, Begin)) == Open(w, tx, org, kind, Begun)
    ensures Step(Open(w, tx, org, kind, Begun), OnDebit(tx, Lock))
         == if ActiveOrg(w.db, org) then Open(w, tx, org, kind, Locked) else Closed(w, kind)
  {
    var d := Debit(org, kind, w.clock, w.clock, Called);
    assert w.debits[tx := d][tx := d.(phase := Begun)] == w.debits[tx := d.(phase := Begun)];
    assert w.debits[tx := d.(phase := Begun)][tx := d.(phase := Locked)] == w.debits[tx := d.(phase := Locked)];
    assert w.debits[tx := d.(phase := Begun)] - {tx} == w.debits;
  }

  lemma Closes(w: World, tx: nat, org: Uuid, kind: Kind, phase: Phase)
    requires Undisturbed(w, tx, org, kind)
    ensures tx in Open(w, tx, org, kind, phase).debits && Close(Open(w, tx, org, kind, phase), tx) == Closed(w, kind)
  {
    var v := Open(w, tx, org, kind, phase);
    assert v.debits - {tx} == w.debits;
    assert Holds(phase) ==> v.locks - {org} == w.locks;
  }

  /** An earlier check of the address that may still be reused. */
  ghost predicate CacheHit(w: World, org: Uuid, hash: string) {
    exists c :: c in w.checks && c.org == org && c.hash == hash
      && w.clock < c.createdAt + 7 * (24 * 60 * 60 * 1000) && w.clock < c.expiresAt
  }

  lemma ReadsCache(w: World, tx: nat, org: Uuid, kind: Kind)
    requires Undisturbed(w, tx, org, kind) && kind.Email?
    ensures Step(Open(w, tx, org, kind, Locked), OnDebit(tx, ReadCache))
         == if CacheHit(w, org, kind.hash) then Closed(w, kind) else Open(w, tx, org, kind, CacheMissed)
  {
    Closes(w, tx, org, kind, Locked);
    var d := Debit(org, kind, w.clock, w.clock, Locked);
    assert w.debits[tx := d][tx := d.(phase := CacheMissed)] == w.debits[tx := d.(phase := CacheMissed)];
    assert CacheHit(w, org, kind.hash) <==> exists c :: c in w.checks && Reusable(c, org, kind.hash, w.clock);
  }

  lemma ReadsBalance(w: World, tx: nat, org: Uuid, kind: Kind, phase: Phase)
    requires Undisturbed(w, tx, org, kind) && phase == (if kind.Email? then CacheMissed else Locked)
    ensures Step(Open(w, tx, org, kind, phase), OnDebit(tx, ReadBalance))
         == if Balance(w.db.ledger, org) < (if kind.Upload? then kind.totalRows else 1) then Closed(w, kind)
            else Open(w, tx, org, kind, BalanceRead)
  {
    hide Balance;
    Closes(w, tx, org, kind, phase);
    var d := Debit(org, kind, w.clock, w.clock, phase);
    assert w.debits[tx := d][tx := d.(phase := BalanceRead)] == w.debits[tx := d.(phase := BalanceRead)];
  }

  /** A debit that is gone takes no more steps. */
  lemma NothingMore(w: World, tx: nat, op: DebitOp)
    requires tx !in w.debits && !op.Call?
    ensures Step(w, OnDebit(tx, op)) == w
  {
  }

  /** Where the debit stands before its commit. */
  lemma UpToCommit(w: World, tx: nat, org: Uuid, kind: Kind)
    requires Undisturbed(w, tx, org, kind)
    ensures var cost := if kind.Upload? then kind.totalRows else 1;
      var goes := ActiveOrg(w.db, org) && (kind.Email? ==> !CacheHit(w, org, kind.hash)) && Balance(w.db.ledger, org) >= cost;
      Run(w, Steps(tx, org, kind)) == if goes then Step(Open(w, tx, org, kind, BalanceRead), OnDebit(tx, Commit)) else Closed(w, kind)
  {
    hide Step, Balance, CacheHit, ActiveOrg;
    OpensAndLocks(w, tx, org, kind);
    if kind.Email? { ReadsCache(w, tx, org, kind); }
    ReadsBalance(w, tx, org, kind, if kind.Email? then CacheMissed else Locked);
    var gone := Closed(w, kind);
    NothingMore(gone, tx, ReadCache);
    NothingMore(gone, tx, ReadBalance);
    NothingMore(gone, tx, Commit);
    var last := [OnDebit(tx, Commit)] + [];
    var reading := [OnDebit(tx, ReadBalance)] + last;
    var caching := (if kind.Email? then [OnDebit(tx, ReadCache)] else []) + reading;
    var locking := [OnDebit(tx, Lock)] + caching;
    var beginning := [OnDebit(tx, Begin)] + locking;
    RunOne(w, OnDebit(tx, Call(org, kind)), beginning);
    RunOne(Open(w, tx, org, kind, Called), OnDebit(tx, Begin), locking);
    RunOne(Open(w, tx, org, kind, Begun), OnDebit(tx, Lock), caching);
    var locked := Step(Open(w, tx, org, kind, Begun), OnDebit(tx, Lock));
    assert !kind.Email? ==> caching == reading;
    var cached := if kind.Email? then Step(locked, OnDebit(tx, ReadCache)) else locked;
    if kind.Email? { RunOne(locked, OnDebit(tx, ReadCache), reading); }
    RunOne(cached, OnDebit(tx, ReadBalance), last);
    var read := Step(cached, OnDebit(tx, ReadBalance));
    RunOne(read, OnDebit(tx, Commit), []);
  }

  /** Uploading: the five steps of the debit are the transaction that creates the batch. */
  lemma UploadIsCreate(w: World, tx: nat, org: Uuid, id: Uuid, totalRows: nat)
    requires Undisturbed(w, tx, org, Upload(id, totalRows))
    ensures var w' := Run(w, Steps(tx, org, Upload(id, totalRows)));
      var (db, r) := Create(w.db, org, id, totalRows, w.clock);
      && w'.db == db && w'.debits == w.debits && w'.locks == w.locks && w'.checks == w.checks && w'.paid == w.paid
      && w'.receipts == (if r.Created? then w.receipts[id := Receipt(org, totalRows, false, Stored)] else w.receipts)
  {
    hide Balance, HasReference;
    var kind := Upload(id, totalRows);
    UpToCommit(w, tx, org, kind);
    Closes(w, tx, org, kind, BalanceRead);
    hide Close;
  }

  /** One check row and one credit, or nothing. */
  lemma EmailCheckOutcome(w: World, tx: nat, org: Uuid, checkId: Uuid, hash: string)
    requires Undisturbed(w, tx, org, Email(checkId, hash))
    ensures var w' := Run(w, Steps(tx, org, Email(checkId, hash)));
      var pays := ActiveOrg(w.db, org) && !CacheHit(w, org, hash) && Balance(w.db.ledger, org) >= 1 && !Taken(w.db, org, ById(checkId));
      && (!pays ==> w' == w)
      && (pays ==>
            && w'.db == w.db.(ledger := w.db.ledger + [Entry(org, -1, SingleCheck, ById(checkId), w.clock)])
            && w'.checks == w.checks + {Check(checkId, org, hash, w.clock,
                                              w.clock + w.db.orgs[org].retentionDays * (24 * 60 * 60 * 1000))}
            && w'.debits == w.debits && w'.locks == w.locks && w'.receipts == w.receipts && w'.workers == w.workers
            && |w'.paid| == |w.paid| + 1)
  {
    hide Balance, HasReference, CacheHit, Taken;
    TakenIsIndexed(w.db, org, ById(checkId));
    UpToCommit(w, tx, org, Email(checkId, hash));
    Closes(w, tx, org, Email(checkId, hash), BalanceRead);
    hide Close;
  }

  /** One credit, or nothing; a phone check is never answered from the cache. */
  lemma PhoneCheckOutcome(w: World, tx: nat, org: Uuid, checkId: Uuid)
    requires Undisturbed(w, tx, org, Phone(checkId))
    ensures var w' := Run(w, Steps(tx, org, Phone(checkId)));
      var pays := ActiveOrg(w.db, org) && Balance(w.db.ledger, org) >= 1 && !Taken(w.db, org, ById(checkId));
      w' == if pays then w.(db := w.db.(ledger := w.db.ledger + [Entry(org, -1, SingleCheck, ById(checkId), w.clock)])) else w
  {
    hide Balance, HasReference, Taken;
    TakenIsIndexed(w.db, org, ById(checkId));
    UpToCommit(w, tx, org, Phone(checkId));
    Closes(w, tx, org, Phone(checkId), BalanceRead);
    hide Close;
  }

  /** A grant waits for the lock, and adds its credits once for each digest. */
  lemma GrantOutcome(w: World, org: Uuid, credits: nat, digest: string)
    requires org !in w.locks
    ensures var w' := Step(w, OnOrg(org, GrantCredits(credits, digest)));
      w' == if ActiveOrg(w.db, org) && credits > 0 && !Taken(w.db, org, GrantOf(digest))
            then w.(db := w.db.(ledger := w.db.ledger + [Entry(org, credits, Grant, GrantOf(digest), w.clock)]))
            else w
  {
    TakenIsIndexed(w.db, org, GrantOf(digest));
    hide HasReference, Taken;
  }

  // -------------------------------------------- what else changes what debits see

  /** A change of retention or a soft deletion waits for the lock, and touches the organisation's row alone. */
  lemma OrgChangeOutcome(w: World, org: Uuid, days: nat)
    ensures var changes := org !in w.locks && ActiveOrg(w.db, org);
      && Step(w, OnOrg(org, SetRetention(days)))
         == (if changes && (days == 7 || days == 30 || days == 90)
             then w.(db := w.db.(orgs := w.db.orgs[org := Org(days, true)])) else w)
      && Step(w, OnOrg(org, SoftDelete))
         == (if changes then w.(db := w.db.(orgs := w.db.orgs[org := Org(w.db.orgs[org].retentionDays, false)])) else w)
  {
  }

  /** Purging removes exactly the expired checks; a wipe exactly one organisation's checks and batches, and no ledger entry. */
  lemma ChecksOutcome(w: World, org: Uuid)
    ensures var purged, wiped := Step(w, OnChecks(PurgeExpired)), Step(w, OnChecks(Wipe(org)));
      && purged == w.(checks := purged.checks)
      && (forall c :: c in purged.checks <==> c in w.checks && w.clock < c.expiresAt)
      && wiped == w.(checks := wiped.checks, db := w.db.(batches := wiped.db.batches))
      && (forall c :: c in wiped.checks <==> c in w.checks && (c.org != org || org in w.locks))
      && (forall b :: b in wiped.db.batches <==> b in w.db.batches && (w.db.batches[b].org != org || org in w.locks))
      && (forall b :: b in wiped.db.batches ==> wiped.db.batches[b] == w.db.batches[b])
  {
  }
}

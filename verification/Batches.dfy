/**
 The batch transactions of packages/db/src/batches.ts as functions of the
 tables they touch. A thrown database error rolls the transaction back, so the
 tables of a failed transaction are the tables it started from.
 */
module Batches {
  import opened Prelude
  import opened Ledger

  datatype Status = Pending | Validating | Processing | Done | Failed

  datatype Batch = Batch(org: Uuid, status: Status, totalRows: nat, charged: nat, expiresAt: nat)

  datatype Org = Org(retentionDays: nat, active: bool)

  datatype Tables = Tables(orgs: map<Uuid, Org>, ledger: seq<Entry>, batches: map<Uuid, Batch>)

  datatype CreateResult =
    | Created(balance: int)
    | Insufficient(available: int, shortfall: int)
    | CreateOrgUnavailable
    | CreateThrown

  datatype ClaimResult = Claimed(batch: Batch, retentionDays: nat) | ClaimOrgUnavailable(lost: Batch) | NotClaimable

  datatype Settlement = Committed | Thrown

  datatype DeleteResult = Deleted(refunded: nat) | StillProcessing | NotFound

  predicate Claimable(status: Status) {
    status == Pending || status == Validating
  }

  function SetStatus(batches: map<Uuid, Batch>, id: Uuid, status: Status): map<Uuid, Batch> {
    if id in batches then batches[id := batches[id].(status := status)] else batches
  }

  /** The batch row and its reservation, written together. */
  function Reserve(t: Tables, org: Uuid, id: Uuid, totalRows: nat, now: nat): (r: Option<Tables>)
  {
    if org !in t.orgs || id in t.batches then None
    else
      match Insert(t.ledger, Entry(org, -(totalRows as int), BatchCheck, ById(id), now))
      case None => None
      case Some(ledger) =>
        Some(t.(ledger := ledger,
                batches := t.batches[id := Batch(org, Pending, totalRows, 0, now + t.orgs[org].retentionDays * DAY_MS)]))
  }

  function Create(t: Tables, org: Uuid, id: Uuid, totalRows: nat, now: nat): (Tables, CreateResult) {
    if org !in t.orgs || !t.orgs[org].active then (t, CreateOrgUnavailable)
    else
      var balance := Balance(t.ledger, org);
      if balance < totalRows then (t, Insufficient(balance, totalRows - balance))
      else
        match Reserve(t, org, id, totalRows, now)
        case None => (t, CreateThrown)
        case Some(t') => (t', Created(balance - totalRows))
  }

  function Claim(t: Tables, id: Uuid): (Tables, ClaimResult) {
    if id !in t.batches || !Claimable(t.batches[id].status) then (t, NotClaimable)
    else
      var batches := SetStatus(t.batches, id, Processing);
      var batch := batches[id];
      (t.(batches := batches),
       if batch.org !in t.orgs || !t.orgs[batch.org].active then ClaimOrgUnavailable(batch)
       else Claimed(batch, t.orgs[batch.org].retentionDays))
  }

  function Complete(t: Tables, id: Uuid, org: Uuid, charged: nat, reserved: nat, retentionDays: nat, now: nat): (Tables, Settlement) {
    var batches := if id !in t.batches then t.batches
      else t.batches[id := t.batches[id].(status := Done, charged := charged, expiresAt := now + retentionDays * DAY_MS)];
    if reserved - charged > 0 then
      match Insert(t.ledger, Entry(org, reserved - charged, Refund, RefundOf(id), now))
      case None => (t, Thrown)
      case Some(ledger) => (t.(ledger := ledger, batches := batches), Committed)
    else (t.(batches := batches), Committed)
  }

  /** ON CONFLICT DO NOTHING: an existing refund is left alone. */
  function RefundOnce(ledger: seq<Entry>, org: Uuid, id: Uuid, amount: nat, now: nat): seq<Entry> {
    match Insert(ledger, Entry(org, amount, Refund, RefundOf(id), now))
    case None => ledger
    case Some(l) => l
  }

  function Fail(t: Tables, id: Uuid, org: Uuid, reserved: nat, now: nat): Tables {
    t.(ledger := if reserved > 0 then RefundOnce(t.ledger, org, id, reserved, now) else t.ledger,
       batches := SetStatus(t.batches, id, Failed))
  }

  function Delete(t: Tables, id: Uuid, org: Uuid, now: nat): (Tables, DeleteResult) {
    if id !in t.batches || t.batches[id].org != org then (t, NotFound)
    else
      var row := t.batches[id];
      if row.status == Processing then (t, StillProcessing)
      else if Claimable(row.status) then
        (t.(ledger := RefundOnce(t.ledger, org, id, row.totalRows, now), batches := t.batches - {id}),
         Deleted(if HasReference(t.ledger, org, RefundOf(id)) then 0 else row.totalRows))
      else (t.(batches := t.batches - {id}), Deleted(0))
  }

  /** `l'` is `l`, or `l` with the one refund of batch `id`, of at most `most` credits. */
  ghost predicate RefundsAtMost(l: seq<Entry>, l': seq<Entry>, org: Uuid, id: Uuid, most: nat) {
    l' == l || (exists amount: nat, now: nat :: amount <= most
                  && Insert(l, Entry(org, amount, Refund, RefundOf(id), now)) == Some(l'))
  }

  /** Apart from the ledger nothing changed, or just the row of `id`, which moved to `status`. */
  ghost predicate MovesRow(t: Tables, t': Tables, id: Uuid, status: Status) {
    && t'.orgs == t.orgs && t'.batches.Keys == t.batches.Keys
    && (forall b :: b in t.batches && b != id ==> t'.batches[b] == t.batches[b])
    && (id in t.batches ==>
          && t'.batches[id].org == t.batches[id].org && t'.batches[id].totalRows == t.batches[id].totalRows
          && (t' == t || t'.batches[id].status == status))
  }

  lemma CompleteRefunds(t: Tables, id: Uuid, org: Uuid, charged: nat, reserved: nat, retentionDays: nat, now: nat)
    requires charged <= reserved
    ensures var t' := Complete(t, id, org, charged, reserved, retentionDays, now).0;
      RefundsAtMost(t.ledger, t'.ledger, org, id, reserved) && MovesRow(t, t', id, Done)
  {
    var amount: nat := reserved - charged;
    assert Insert(t.ledger, Entry(org, amount, Refund, RefundOf(id), now)).Some? ==>
      RefundsAtMost(t.ledger, t.ledger + [Entry(org, amount, Refund, RefundOf(id), now)], org, id, reserved);
  }

  lemma FailRefunds(t: Tables, id: Uuid, org: Uuid, reserved: nat, now: nat)
    ensures var t' := Fail(t, id, org, reserved, now);
      RefundsAtMost(t.ledger, t'.ledger, org, id, reserved) && MovesRow(t, t', id, Failed)
      && (id in t.batches ==> t'.batches[id].status == Failed)
  {
  }

  lemma DeleteRefunds(t: Tables, id: Uuid, org: Uuid, now: nat)
    ensures Delete(t, id, org, now).0 == t
         || (id in t.batches && t.batches[id].org == org
             && RefundsAtMost(t.ledger, Delete(t, id, org, now).0.ledger, org, id, t.batches[id].totalRows))
  {
  }

  // ------------------------------------------------- each transaction's outcome

  /** The organisation exists and is not deleted. */
  ghost predicate ActiveOrg(t: Tables, org: Uuid) {
    org in t.orgs && t.orgs[org].active
  }

  ghost predicate Taken(t: Tables, org: Uuid, reference: Reference) {
    exists e :: e in t.ledger && e.org == org && e.reference == reference
  }

  lemma TakenIsIndexed(t: Tables, org: Uuid, reference: Reference)
    ensures HasReference(t.ledger, org, reference) <==> Taken(t, org, reference)
  {
  }

  /**
   An upload is created exactly if its organisation is active, its balance covers
   all rows and neither the batch id nor its reference is in use; the balance then
   falls by the rows, and stays at or above zero. In every other case nothing
   changes, and the answer says why.
   */
  lemma CreateOutcome(t: Tables, org: Uuid, id: Uuid, totalRows: nat, now: nat)
    ensures var (t', r) := Create(t, org, id, totalRows, now);
      var balance, free := Balance(t.ledger, org), id !in t.batches && !Taken(t, org, ById(id));
      && (r.CreateOrgUnavailable? <==> !ActiveOrg(t, org))
      && (r.Insufficient? <==> ActiveOrg(t, org) && balance < totalRows)
      && (r.Insufficient? ==> r.available == balance && r.shortfall == totalRows - balance)
      && (r.CreateThrown? <==> ActiveOrg(t, org) && balance >= totalRows && !free)
      && (r.Created? <==> ActiveOrg(t, org) && balance >= totalRows && free)
      && (!r.Created? ==> t' == t)
      && (r.Created? ==>
            && r.balance == Balance(t'.ledger, org) == balance - totalRows >= 0
            && t'.orgs == t.orgs
            && t'.ledger == t.ledger + [Entry(org, -(totalRows as int), BatchCheck, ById(id), now)]
            && t'.batches == t.batches[id := Batch(org, Pending, totalRows, 0,
                                                   now + t.orgs[org].retentionDays * (24 * 60 * 60 * 1000))])
  {
    TakenIsIndexed(t, org, ById(id));
    BalanceAppend(t.ledger, Entry(org, -(totalRows as int), BatchCheck, ById(id), now), org);
    hide Balance, HasReference, Taken;
  }

  /** A claim takes a pending or validating row into processing, whoever owns it, and changes nothing else. */
  lemma ClaimOutcome(t: Tables, id: Uuid)
    ensures var (t', r) := Claim(t, id);
      var waiting := id in t.batches && (t.batches[id].status == Pending || t.batches[id].status == Validating);
      && (r.NotClaimable? <==> !waiting)
      && (!waiting ==> t' == t)
      && (waiting ==>
            && t'.orgs == t.orgs && t'.ledger == t.ledger
            && t'.batches == t.batches[id := t.batches[id].(status := Processing)]
            && (r.Claimed? <==> ActiveOrg(t, t.batches[id].org))
            && (r.Claimed? ==> r.batch == t'.batches[id] && r.retentionDays == t.orgs[t.batches[id].org].retentionDays)
            && (r.ClaimOrgUnavailable? ==> r.lost == t'.batches[id]))
  {
  }

  /** A completion refunds what was not charged, or changes nothing because a refund exists. */
  lemma CompleteOutcome(t: Tables, id: Uuid, org: Uuid, charged: nat, reserved: nat, days: nat, now: nat)
    ensures var (t', r) := Complete(t, id, org, charged, reserved, days, now);
      && (r == Thrown <==> charged < reserved && Taken(t, org, RefundOf(id)))
      && (r == Thrown ==> t' == t)
      && (r == Committed ==>
            && t'.orgs == t.orgs && t'.batches.Keys == t.batches.Keys
            && t'.ledger == t.ledger + (if charged < reserved then [Entry(org, reserved - charged, Refund, RefundOf(id), now)] else [])
            && (forall b :: b in t.batches && b != id ==> t'.batches[b] == t.batches[b])
            && (id in t.batches ==>
                  t'.batches[id] == Batch(t.batches[id].org, Done, t.batches[id].totalRows, charged, now + days * (24 * 60 * 60 * 1000))))
  {
    TakenIsIndexed(t, org, RefundOf(id));
    hide HasReference, Taken;
  }

  /** A failure marks the row and refunds the whole reservation, once. */
  lemma FailOutcome(t: Tables, id: Uuid, org: Uuid, reserved: nat, now: nat)
    ensures var t' := Fail(t, id, org, reserved, now);
      && t'.orgs == t.orgs && t'.batches.Keys == t.batches.Keys
      && t'.ledger == t.ledger
           + (if reserved > 0 && !Taken(t, org, RefundOf(id)) then [Entry(org, reserved, Refund, RefundOf(id), now)] else [])
      && (forall b :: b in t.batches && b != id ==> t'.batches[b] == t.batches[b])
      && (id in t.batches ==> t'.batches[id] == t.batches[id].(status := Failed))
  {
    TakenIsIndexed(t, org, RefundOf(id));
    hide HasReference, Taken;
  }

  /** A deletion is refused while processing, and otherwise refunds exactly an unclaimed, unrefunded batch. */
  lemma DeleteOutcome(t: Tables, id: Uuid, org: Uuid, now: nat)
    ensures var (t', r) := Delete(t, id, org, now);
      var own := id in t.batches && t.batches[id].org == org;
      && (r.NotFound? <==> !own)
      && (r.StillProcessing? <==> own && t.batches[id].status == Processing)
      && (!r.Deleted? ==> t' == t)
      && (r.Deleted? ==>
            && t'.orgs == t.orgs && t'.batches == t.batches - {id}
            && var refund := (t.batches[id].status == Pending || t.batches[id].status == Validating) && !Taken(t, org, RefundOf(id));
            && r.refunded == (if refund then t.batches[id].totalRows else 0)
            && t'.ledger == t.ledger + (if refund then [Entry(org, t.batches[id].totalRows, Refund, RefundOf(id), now)] else []))
  {
    TakenIsIndexed(t, org, RefundOf(id));
    hide HasReference, Taken;
  }

  /** The tables, with each exported transaction as the statements it runs. */
  class Database {
    var orgs: map<Uuid, Org>
    var ledger: seq<Entry>
    var batches: map<Uuid, Batch>

    function Contents(): Tables
      reads this
    {
      Tables(orgs, ledger, batches)
    }

    constructor (t: Tables)
      ensures Contents() == t
    {
      orgs, ledger, batches := t.orgs, t.ledger, t.batches;
    }

    /** coalesce(sum(delta), 0) */
    method LockedBalance(org: Uuid) returns (balance: int)
      ensures balance == Balance(ledger, org)
    {
      balance := 0;
      for i := 0 to |ledger|
        invariant balance == Balance(ledger[..i], org)
      {
        assert ledger[..i + 1][..i] == ledger[..i];
        if ledger[i].org == org { balance := balance + ledger[i].delta; }
      }
      assert ledger[..|ledger|] == ledger;
    }

    method InsertLedger(entry: Entry) returns (inserted: bool)
      modifies this`ledger
      ensures Insert(old(ledger), entry) == if inserted then Some(ledger) else None
      ensures !inserted ==> ledger == old(ledger)
    {
      inserted := true;
      for i := 0 to |ledger|
        invariant inserted && ledger == old(ledger)
        invariant forall k :: 0 <= k < i ==> ledger[k].org != entry.org || ledger[k].reference != entry.reference
      {
        if ledger[i].org == entry.org && ledger[i].reference == entry.reference { return false; }
      }
      ledger := ledger + [entry];
    }

    method CreateBatchWithReservation(id: Uuid, org: Uuid, totalRows: nat, now: nat) returns (r: CreateResult)
      modifies this
      ensures (Contents(), r) == Create(old(Contents()), org, id, totalRows, now)
    {
      if org !in orgs || !orgs[org].active { return CreateOrgUnavailable; }
      var balance := LockedBalance(org);
      if balance < totalRows { return Insufficient(balance, totalRows - balance); }
      if id in batches { return CreateThrown; }
      var savepoint := batches;
      batches := batches[id := Batch(org, Pending, totalRows, 0, now + orgs[org].retentionDays * DAY_MS)];
      var inserted := InsertLedger(Entry(org, -(totalRows as int), BatchCheck, ById(id), now));
      if !inserted {
        batches := savepoint;
        return CreateThrown;
      }
      return Created(balance - totalRows);
    }

    method ClaimBatchForProcessing(id: Uuid) returns (r: ClaimResult)
      modifies this`batches
      ensures (Contents(), r) == Claim(old(Contents()), id)
    {
      if id !in batches || !Claimable(batches[id].status) { return NotClaimable; }
      var batch := batches[id].(status := Processing);
      batches := batches[id := batch];
      if batch.org !in orgs || !orgs[batch.org].active { return ClaimOrgUnavailable(batch); }
      return Claimed(batch, orgs[batch.org].retentionDays);
    }

    method CompleteBatch(id: Uuid, org: Uuid, charged: nat, reserved: nat, retentionDays: nat, now: nat) returns (r: Settlement)
      modifies this
      ensures (Contents(), r) == Complete(old(Contents()), id, org, charged, reserved, retentionDays, now)
    {
      var refund := reserved - charged;
      var savepoint := batches;
      if id in batches {
        batches := batches[id := batches[id].(status := Done, charged := charged, expiresAt := now + retentionDays * DAY_MS)];
      }
      if refund > 0 {
        var inserted := InsertLedger(Entry(org, refund, Refund, RefundOf(id), now));
        if !inserted {
          batches := savepoint;
          return Thrown;
        }
      }
      return Committed;
    }

    method FailBatch(id: Uuid, org: Uuid, reserved: nat, now: nat)
      modifies this
      ensures Contents() == Fail(old(Contents()), id, org, reserved, now)
    {
      if id in batches { batches := batches[id := batches[id].(status := Failed)]; }
      if reserved > 0 {
        var _ := InsertLedger(Entry(org, reserved, Refund, RefundOf(id), now));
      }
    }

    method DeleteBatchForOrg(id: Uuid, org: Uuid, now: nat) returns (r: DeleteResult)
      modifies this
      ensures (Contents(), r) == Delete(old(Contents()), id, org, now)
    {
      if id !in batches || batches[id].org != org { return NotFound; }
      var row := batches[id];
      if row.status == Processing { return StillProcessing; }
      var refunded := 0;
      if Claimable(row.status) {
        var inserted := InsertLedger(Entry(row.org, row.totalRows, Refund, RefundOf(id), now));
        refunded := if inserted then row.totalRows else 0;
      }
      batches := batches - {id};
      return Deleted(refunded);
    }
  }
}

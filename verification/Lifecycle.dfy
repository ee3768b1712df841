/**
 The retention sweep: objects are deleted before the rows and markers that
 track them, so stopping anywhere loses track of nothing.
 */
module Lifecycle {
  import opened Prelude

  type Id = nat

  /** org/{org}/...; an export carries its creation time in its name. */
  datatype Key = Key(org: Id, exportedAt: Option<nat>, name: string)

  datatype CheckRow = CheckRow(id: Id, org: Id, phone: bool, expiresAt: nat)
  datatype BatchRow = BatchRow(org: Id, inputKey: Key, resultKey: Option<Key>, expiresAt: nat)
  datatype OrgRow = OrgRow(deletedAt: Option<nat>, purgedAt: Option<nat>)
  datatype LeadRow = LeadRow(id: Id, expiresAt: nat, erased: bool)
  datatype LedgerRow = LedgerRow(id: Id, org: Id, createdAt: nat)

  datatype Store = Store(
    objects: set<Key>, checks: set<CheckRow>, batches: map<Id, BatchRow>, orgs: map<Id, OrgRow>,
    leads: set<LeadRow>, ledger: set<LedgerRow>, audit: nat)

  const GRACE_MS: nat := 30 * DAY_MS
  const EXPORT_TTL_MS: nat := DAY_MS

  function KeysOf(row: BatchRow): set<Key> {
    {row.inputKey} + (if row.resultKey.Some? then {row.resultKey.value} else {})
  }

  /** The object keys of some batches. */
  function KeysOfAll(batches: map<Id, BatchRow>, ids: set<Id>): set<Key>
    requires ids <= batches.Keys
  {
    set b, k | b in ids && k in KeysOf(batches[b]) :: k
  }

  /** Batch objects live under their organisation, which exists until purged; a purged one has nothing left. */
  ghost predicate Valid(s: Store) {
    && (forall b :: b in s.batches ==> s.batches[b].org in s.orgs && forall k :: Names(s.batches[b], k) ==> k.org == s.batches[b].org)
    && (forall o :: o in s.orgs && s.orgs[o].purgedAt.Some? ==>
          && (forall b :: b in s.batches ==> s.batches[b].org != o)
          && (forall c :: c in s.checks ==> c.org != o)
          && (forall k :: k in s.objects ==> k.org != o))
  }

  ghost predicate Names(row: BatchRow, k: Key) {
    k == row.inputKey || row.resultKey == Some(k)
  }

  ghost predicate BatchTracked(s: Store, k: Key) {
    exists b :: b in s.batches && Names(s.batches[b], k)
  }

  /** The purge of the organisation is still to come and will empty its prefix. */
  ghost predicate OrgTracked(s: Store, k: Key) {
    k.org in s.orgs && s.orgs[k.org].purgedAt.None?
  }

  /** Nothing new, and what still exists is tracked by everything that tracked it before. */
  ghost predicate Safe(s: Store, s': Store) {
    && s'.objects <= s.objects
    && forall k :: k in s'.objects ==>
         (BatchTracked(s, k) ==> BatchTracked(s', k)) && (OrgTracked(s, k) ==> OrgTracked(s', k))
  }

  lemma SafeTransitive(a: Store, b: Store, c: Store)
    requires Safe(a, b) && Safe(b, c)
    ensures Safe(a, c)
  {
    hide BatchTracked;
    hide OrgTracked;
  }

  // ---------------------------------------------------- what a sweep may remove

  /** Deleted thirty days ago or more, and not purged before. */
  ghost predicate PurgedNow(s: Store, o: Id, now: nat) {
    && o in s.orgs && s.orgs[o].purgedAt.None? && s.orgs[o].deletedAt.Some?
    && s.orgs[o].deletedAt.value + 30 * 24 * 60 * 60 * 1000 <= now
  }

  ghost predicate KeepsBatch(s: Store, b: Id, now: nat) {
    b in s.batches && now < s.batches[b].expiresAt && !PurgedNow(s, s.batches[b].org, now)
  }

  /** Not an object of an expired batch or a purged organisation, nor an export older than a day. */
  ghost predicate KeepsObject(s: Store, k: Key, now: nat) {
    && k in s.objects && !PurgedNow(s, k.org, now)
    && (forall b :: b in s.batches && s.batches[b].expiresAt <= now ==> !Names(s.batches[b], k))
    && (k.exportedAt.Some? ==> now <= k.exportedAt.value + 24 * 60 * 60 * 1000)
  }

  ghost predicate KeepsCheck(s: Store, c: CheckRow, now: nat) {
    c in s.checks && now < c.expiresAt && !PurgedNow(s, c.org, now)
  }

  ghost predicate KeepsLead(s: Store, l: LeadRow, now: nat) {
    l in s.leads && now < l.expiresAt && !l.erased
  }

  ghost predicate KeepsEntry(s: Store, e: LedgerRow, cutoff: nat) {
    e in s.ledger && cutoff < e.createdAt
  }

  /** An organisation that is or gets purged goes with its last ledger row. */
  ghost predicate KeepsOrg(s: Store, o: Id, now: nat, cutoff: nat) {
    && o in s.orgs
    && (s.orgs[o].purgedAt.Some? || PurgedNow(s, o, now) ==> exists e :: KeepsEntry(s, e, cutoff) && e.org == o)
  }

  /** Everything that is to stay stays; the rest may have gone, and nothing has come. */
  ghost predicate Spares(s: Store, s': Store, now: nat, cutoff: nat) {
    && s'.objects <= s.objects && s'.checks <= s.checks && s'.leads <= s.leads && s'.ledger <= s.ledger
    && (forall b :: b in s'.batches ==> b in s.batches && s'.batches[b] == s.batches[b])
    && (forall o :: o in s'.orgs ==> o in s.orgs && Marked(s, s', o, now))
    && (forall b :: KeepsBatch(s, b, now) ==> b in s'.batches)
    && (forall k :: KeepsObject(s, k, now) ==> k in s'.objects)
    && (forall c :: KeepsCheck(s, c, now) ==> c in s'.checks)
    && (forall l :: KeepsLead(s, l, now) ==> l in s'.leads)
    && (forall e :: KeepsEntry(s, e, cutoff) ==> e in s'.ledger)
    && (forall o :: KeepsOrg(s, o, now, cutoff) ==> o in s'.orgs)
  }

  /** An organisation's row is as it was, or marked as purged if it was to be. */
  ghost predicate Marked(s: Store, s': Store, o: Id, now: nat)
    requires o in s.orgs && o in s'.orgs
  {
    s'.orgs[o] == s.orgs[o] || (PurgedNow(s, o, now) && s'.orgs[o] == s.orgs[o].(purgedAt := Some(now)))
  }

  /** What each step of a sweep keeps to, wherever the sweep stops. */
  ghost predicate Careful(s: Store, s': Store, now: nat, cutoff: nat) {
    Safe(s, s') && Spares(s, s', now, cutoff)
  }

  lemma CarefulItself(s: Store, now: nat, cutoff: nat)
    ensures Careful(s, s, now, cutoff)
  {
    hide PurgedNow;
    StartDrain(s);
    SparesItself(s, now, cutoff);
  }

  lemma CarefulTransitive(a: Store, b: Store, c: Store, now: nat, cutoff: nat)
    requires Careful(a, b, now, cutoff) && Careful(b, c, now, cutoff)
    ensures Careful(a, c, now, cutoff)
  {
    hide Safe, Spares;
    SafeTransitive(a, b, c);
    SparesTransitive(a, b, c, now, cutoff);
  }

  /** What a completed sweep leaves: exactly what is to stay, with the purged organisations marked. */
  ghost predicate Leaves(s: Store, s': Store, now: nat, cutoff: nat) {
    && (forall b :: b in s'.batches <==> KeepsBatch(s, b, now))
    && (forall b :: b in s'.batches ==> s'.batches[b] == s.batches[b])
    && (forall k :: k in s'.objects <==> KeepsObject(s, k, now))
    && (forall c :: c in s'.checks <==> KeepsCheck(s, c, now))
    && (forall l :: l in s'.leads <==> KeepsLead(s, l, now))
    && (forall e :: e in s'.ledger <==> KeepsEntry(s, e, cutoff))
    && (forall o :: o in s'.orgs <==> KeepsOrg(s, o, now, cutoff))
    && (forall o :: o in s'.orgs ==>
          s'.orgs[o] == if PurgedNow(s, o, now) then s.orgs[o].(purgedAt := Some(now)) else s.orgs[o])
  }

  lemma SparesItself(s: Store, now: nat, cutoff: nat)
    ensures Spares(s, s, now, cutoff)
  {
  }

  lemma PurgedNowBefore(a: Store, b: Store, o: Id, now: nat, cutoff: nat)
    requires Spares(a, b, now, cutoff) && PurgedNow(b, o, now)
    ensures PurgedNow(a, o, now)
  {
  }

  lemma {:induction false} SparesTransitive(a: Store, b: Store, c: Store, now: nat, cutoff: nat)
    requires Spares(a, b, now, cutoff) && Spares(b, c, now, cutoff)
    ensures Spares(a, c, now, cutoff)
  {
    forall o | PurgedNow(b, o, now)
      ensures PurgedNow(a, o, now)
    {
      PurgedNowBefore(a, b, o, now, cutoff);
    }
    hide PurgedNow;
    forall o | KeepsOrg(a, o, now, cutoff)
      ensures KeepsOrg(b, o, now, cutoff)
    {
      if b.orgs[o].purgedAt.Some? || PurgedNow(b, o, now) {
        var e :| KeepsEntry(a, e, cutoff) && e.org == o;
        assert KeepsEntry(b, e, cutoff);
      }
    }
    forall k | KeepsObject(a, k, now)
      ensures KeepsObject(b, k, now)
    {
    }
  }

  // ----------------------------------------------------- what a full sweep does

  function PurgeChecks(s: Store, now: nat): Store {
    s.(checks := set c | c in s.checks && now < c.expiresAt)
  }

  function Expired(s: Store, now: nat): set<Id> {
    set b | b in s.batches && s.batches[b].expiresAt <= now
  }

  function RemoveBatches(s: Store, ids: set<Id>): Store
    requires ids <= s.batches.Keys
  {
    s.(objects := s.objects - KeysOfAll(s.batches, ids), batches := s.batches - ids)
  }

  function DrainBatches(s: Store, now: nat): Store {
    RemoveBatches(s, Expired(s, now))
  }

  function Due(s: Store, now: nat): set<Id> {
    set o | o in s.orgs && s.orgs[o].deletedAt.Some? && s.orgs[o].deletedAt.value + GRACE_MS <= now && s.orgs[o].purgedAt.None?
  }

  function Prefix(s: Store, o: Id): set<Key> {
    set k | k in s.objects && k.org == o
  }

  /** hardDeleteOrganizationData: the children go, the row stays, marked. */
  function HardDelete(s: Store, o: Id, now: nat): Store
    requires o in s.orgs
  {
    s.(checks := (set c | c in s.checks && c.org != o),
       batches := (map b | b in s.batches && s.batches[b].org != o :: s.batches[b]),
       orgs := s.orgs[o := s.orgs[o].(purgedAt := Some(now))],
       audit := s.audit + 1)
  }

  /** All of `due` emptied, stripped and marked. */
  function PurgeOrgs(s: Store, due: set<Id>, now: nat): Store
    requires due <= s.orgs.Keys
  {
    s.(objects := (set k | k in s.objects && k.org !in due),
       checks := (set c | c in s.checks && c.org !in due),
       batches := (map b | b in s.batches && s.batches[b].org !in due :: s.batches[b]),
       orgs := (map o | o in s.orgs :: if o in due then s.orgs[o].(purgedAt := Some(now)) else s.orgs[o]),
       audit := s.audit + |due|)
  }

  function PurgeLeads(s: Store, now: nat): Store {
    s.(leads := set l | l in s.leads && now < l.expiresAt && !l.erased)
  }

  function StaleExports(s: Store, now: nat): set<Key> {
    set k | k in s.objects && k.exportedAt.Some? && now - k.exportedAt.value > EXPORT_TTL_MS
  }

  function PurgeLedger(s: Store, cutoff: nat): Store {
    s.(ledger := set e | e in s.ledger && cutoff < e.createdAt)
  }

  function Retired(s: Store): set<Id> {
    set o | o in s.orgs && s.orgs[o].purgedAt.Some? && forall e :: e in s.ledger ==> e.org != o
  }

  function RemoveRetired(s: Store): Store {
    s.(orgs := s.orgs - Retired(s))
  }

  /** The whole sweep, without interruption. */
  function Result(s: Store, now: nat, cutoff: nat): Store {
    var drained := DrainBatches(PurgeChecks(s, now), now);
    var emptied := PurgeLeads(PurgeOrgs(drained, Due(drained, now), now), now);
    var trimmed := emptied.(objects := emptied.objects - StaleExports(emptied, now));
    var retired := RemoveRetired(PurgeLedger(trimmed, cutoff));
    retired.(audit := retired.audit + 1)
  }

  /** Nothing is left for a sweep at `now` to do. */
  ghost predicate Swept(s: Store, now: nat, cutoff: nat) {
    && (forall c :: c in s.checks ==> now < c.expiresAt)
    && (forall b :: b in s.batches ==> now < s.batches[b].expiresAt)
    && (forall o :: o in s.orgs ==> !PurgedNow(s, o, now))
    && (forall k :: k in s.objects && k.exportedAt.Some? ==> now <= k.exportedAt.value + 24 * 60 * 60 * 1000)
    && (forall o :: o in s.orgs && s.orgs[o].purgedAt.Some? ==> exists e :: e in s.ledger && e.org == o)
    && (forall l :: l in s.leads ==> now < l.expiresAt && !l.erased)
    && (forall e :: e in s.ledger ==> cutoff < e.createdAt)
  }

  // ------------------------------------------------------------------ the sweep

  /** How one operation goes: through, not at all, or (storage) partly before failing. */
  datatype Fate = Goes | Stops | Partly(done: set<Key>)

  class Sweep {
    var s: Store
    var ops: nat
    const fate: nat -> Fate

    constructor (s0: Store, fate0: nat -> Fate)
      ensures s == s0 && fate == fate0 && ops == 0
    {
      s, fate, ops := s0, fate0, 0;
    }

    /** deleteObjects: missing keys are fine, a per-key failure throws after deleting the rest. */
    method DeleteObjects(keys: set<Key>) returns (ok: bool)
      requires Valid(s)
      modifies this
      ensures Valid(s) && Safe(old(s), s)
      ensures s == old(s).(objects := s.objects) && old(s).objects - keys <= s.objects
      ensures ok ==> s.objects == old(s).objects - keys
    {
      ops := ops + 1;
      match fate(ops) {
        case Goes =>
          s := s.(objects := s.objects - keys);
          ok := true;
        case Stops => ok := false;
        case Partly(done) =>
          s := s.(objects := s.objects - (keys * done));
          ok := false;
      }
      SameTracking(old(s), s);
    }

    /** A database statement or transaction: it happens or it does not. */
    method Commits() returns (ok: bool)
      modifies this`ops
    {
      ops := ops + 1;
      ok := fate(ops) == Goes;
    }

    /** Up to `limit` expired batches, in no particular order. */
    method ListExpired(now: nat, limit: nat) returns (page: set<Id>)
      ensures forall b :: b in page ==> b in s.batches && s.batches[b].expiresAt <= now
      ensures |page| <= limit
      ensures page == {} && limit > 0 ==> forall b :: b in s.batches ==> now < s.batches[b].expiresAt
    {
      page := {};
      var rest := Expired(s, now);
      while rest != {} && |page| < limit
        invariant page <= Expired(s, now) && rest == Expired(s, now) - page && |page| <= limit
        decreases |rest|
      {
        var b :| b in rest;
        page, rest := page + {b}, rest - {b};
      }
      assert page == {} && limit > 0 ==> Expired(s, now) == {};
      assert forall b :: b in s.batches && s.batches[b].expiresAt <= now ==> b in Expired(s, now);
    }

    method Drain(now: nat, pageSize: nat, ghost cutoff: nat) returns (ok: bool)
      requires Valid(s)
      modifies this
      ensures Valid(s) && Careful(old(s), s, now, cutoff)
      ensures ok && pageSize > 0 ==> s == DrainBatches(old(s), now)
    {
      hide Safe, Spares, Valid;
      ghost var gone: set<Id> := {};
      ghost var s0 := s;
      StartDrain(s);
      CarefulItself(s, now, cutoff);
      while true
        invariant Valid(s) && Careful(s0, s, now, cutoff) && gone <= Expired(s0, now) && s == RemoveBatches(s0, gone)
        decreases |Expired(s, now)|
      {
        var page := ListExpired(now, pageSize);
        if page == {} {
          if pageSize > 0 { DrainDone(s0, s, gone, now); }
          return true;
        }
        assert page <= Expired(s, now);
        ghost var s1 := s;
        var removed := RemovePage(page, now, cutoff);
        CarefulTransitive(s0, s1, s, now, cutoff);
        if !removed { return false; }
        DrainStep(s0, s1, gone, page, now);
        gone := gone + page;
      }
    }

    /** One page: the objects first, then the rows. */
    method RemovePage(page: set<Id>, now: nat, ghost cutoff: nat) returns (ok: bool)
      requires Valid(s) && page <= Expired(s, now)
      modifies this
      ensures Valid(s) && Careful(old(s), s, now, cutoff)
      ensures ok ==> s == old(s).(objects := old(s).objects - KeysOfAll(old(s).batches, page), batches := old(s).batches - page)
    {
      hide Safe, Spares, Valid, KeepsObject;
      ghost var s0 := s;
      var keys := KeysOfAll(s.batches, page);
      ExpiredObjectsGo(s, page, now);
      ok := DeleteObjects(keys);
      ObjectsWithin(s0, now);
      DroppingObjectsSpares(s0, s, now, cutoff);
      if !ok { return; }
      ok := Commits();
      if !ok { return; }
      ghost var s1 := s;
      DroppingRowsSafe(s, page);
      DroppingRowsSpares(s, page, now, cutoff);
      s := s.(batches := s.batches - page);
      CarefulTransitive(s0, s1, s, now, cutoff);
    }

    /** Empty the prefix, look again, and only then strip and mark the organisation. */
    method PurgeOne(o: Id, now: nat, ghost cutoff: nat) returns (ok: bool)
      requires Valid(s) && PurgedNow(s, o, now)
      modifies this
      ensures Valid(s) && Careful(old(s), s, now, cutoff)
      ensures ok ==> s == HardDelete(old(s).(objects := old(s).objects - Prefix(old(s), o)), o, now)
    {
      hide Safe, Spares, Valid;
      ghost var s0 := s;
      CarefulItself(s, now, cutoff);
      var keys := Prefix(s, o);
      if keys != {} {
        var deleted := DeleteObjects(keys);
        assert forall k :: KeepsObject(s0, k, now) ==> k in s.objects;
        DroppingObjectsSpares(s0, s, now, cutoff);
        if !deleted { return false; }
      }
      assert s.objects == s0.objects - keys;
      var remaining := Prefix(s, o);
      if remaining != {} { return false; }
      var committed := Commits();
      if !committed { return false; }
      ghost var s1 := s;
      HardDeleteSafe(s, o, now);
      HardDeleteSpares(s, o, now, cutoff);
      s := HardDelete(s, o, now);
      CarefulTransitive(s0, s1, s, now, cutoff);
      assert s1 == s0.(objects := s0.objects - keys);
      return true;
    }

    method PurgeNext(o: Id, now: nat, ghost s0: Store, ghost done: set<Id>, ghost cutoff: nat) returns (ok: bool)
      requires Valid(s) && Careful(s0, s, now, cutoff) && done <= s0.orgs.Keys && o !in done && PurgedNow(s0, o, now) && s == PurgeOrgs(s0, done, now)
      modifies this
      ensures Valid(s) && Careful(s0, s, now, cutoff)
      ensures ok ==> s == PurgeOrgs(s0, done + {o}, now)
    {
      OtherPurgeKeepsDue(s0, done, o, now);
      hide Safe, Spares, Valid, PurgeOrgs, HardDelete, PurgedNow;
      ghost var s1 := s;
      PurgedExists(s0, o, now);
      OneMorePurged(s0, done, o, now);
      ok := PurgeOne(o, now, cutoff);
      CarefulTransitive(s0, s1, s, now, cutoff);
    }

    method PurgeDue(now: nat, ghost cutoff: nat) returns (ok: bool)
      requires Valid(s)
      modifies this
      ensures Valid(s) && Careful(old(s), s, now, cutoff)
      ensures ok ==> s == PurgeOrgs(old(s), Due(old(s), now), now)
    {
      hide Due, Safe, Spares, Valid, PurgeOrgs, PurgedNow;
      CarefulItself(s, now, cutoff);
      NoOrgsPurged(s, now);
      DueExist(s, now);
      DueArePurged(s, now);
      ghost var s0 := s;
      var due := Due(s, now);
      var left := due;
      assert due - left == {};
      while left != {}
        invariant Valid(s) && Careful(s0, s, now, cutoff) && left <= due && due <= s0.orgs.Keys && s == PurgeOrgs(s0, due - left, now)
        decreases left
      {
        var o :| o in left;
        assert due - left + {o} == due - (left - {o});
        var purged := PurgeNext(o, now, s0, due - left, cutoff);
        if !purged { return false; }
        left := left - {o};
      }
      assert due - left == due;
      return true;
    }

    method DropExports(now: nat, ghost cutoff: nat) returns (ok: bool)
      requires Valid(s)
      modifies this
      ensures Valid(s) && Careful(old(s), s, now, cutoff)
      ensures ok ==> s == old(s).(objects := old(s).objects - StaleExports(old(s), now))
    {
      hide Safe, Spares, Valid;
      CarefulItself(s, now, cutoff);
      ghost var s0 := s;
      ok := true;
      var stale := StaleExports(s, now);
      if stale != {} {
        ok := DeleteObjects(stale);
        assert forall k :: KeepsObject(s0, k, now) ==> k in s.objects;
        DroppingObjectsSpares(s0, s, now, cutoff);
      }
    }

    /**
     runLifecycleSweep: wherever it stops, nothing loses its tracking and
     everything that is to stay is still there; when it completes, nothing else is.
     */
    method RunLifecycleSweep(now: nat, cutoff: nat, pageSize: nat) returns (ok: bool)
      requires Valid(s)
      modifies this
      ensures Valid(s) && Safe(old(s), s) && Spares(old(s), s, now, cutoff)
      ensures ok && pageSize > 0 ==> Leaves(old(s), s, now, cutoff)
      ensures ok && pageSize > 0 ==> s == Result(old(s), now, cutoff)
    {
      ghost var s0 := s;
      ok := Sweeps(now, cutoff, pageSize);
      if ok && pageSize > 0 { ResultLeaves(s0, now, cutoff); }
    }

    /** The six parts in order, each followed by the next only if it went through. */
    method Sweeps(now: nat, cutoff: nat, pageSize: nat) returns (ok: bool)
      requires Valid(s)
      modifies this
      ensures Valid(s) && Careful(old(s), s, now, cutoff)
      ensures ok && pageSize > 0 ==> s == Result(old(s), now, cutoff)
    {
      hide Safe, Spares, Valid;
      ghost var s0 := s;
      CarefulItself(s, now, cutoff);
      ok := Commits();
      if !ok { return; }
      PurgeChecksSafe(s, now);
      PurgeChecksSpares(s, now, cutoff);
      s := PurgeChecks(s, now);

      ghost var s1 := s;
      ok := Drain(now, pageSize, cutoff);
      CarefulTransitive(s0, s1, s, now, cutoff);
      if !ok { return; }

      ghost var s2 := s;
      ok := PurgeDue(now, cutoff);
      CarefulTransitive(s0, s2, s, now, cutoff);
      if !ok { return; }

      ok := Commits();
      if !ok { return; }
      ghost var s3 := s;
      PurgeLeadsSpares(s, now, cutoff);
      s := PurgeLeads(s, now);
      OnlyAside(s3, s);
      CarefulTransitive(s0, s3, s, now, cutoff);

      ghost var s4 := s;
      ok := DropExports(now, cutoff);
      CarefulTransitive(s0, s4, s, now, cutoff);
      if !ok { return; }

      ok := Commits();
      if !ok { return; }
      ghost var s5 := s;
      PurgeLedgerSpares(s, now, cutoff);
      s := PurgeLedger(s, cutoff);
      OnlyAside(s5, s);
      CarefulTransitive(s0, s5, s, now, cutoff);

      ok := Commits();
      if !ok { return; }
      ghost var s6 := s;
      RemoveRetiredSafe(s);
      RemoveRetiredSpares(s, now, cutoff);
      s := RemoveRetired(s);
      CarefulTransitive(s0, s6, s, now, cutoff);

      ok := Commits();
      if !ok { return; }
      ghost var s7 := s;
      AuditSpares(s, now, cutoff);
      s := s.(audit := s.audit + 1);
      OnlyAside(s7, s);
      CarefulTransitive(s0, s7, s, now, cutoff);
    }
  }

  lemma ObjectsWithin(s: Store, now: nat)
    ensures forall k :: KeepsObject(s, k, now) ==> k in s.objects
  {
  }

  lemma PurgedExists(s: Store, o: Id, now: nat)
    requires PurgedNow(s, o, now)
    ensures o in s.orgs
  {
  }

  lemma OtherPurgeKeepsDue(s: Store, done: set<Id>, o: Id, now: nat)
    requires done <= s.orgs.Keys && o !in done && PurgedNow(s, o, now)
    ensures PurgedNow(PurgeOrgs(s, done, now), o, now)
  {
  }

  /** Objects that are not to stay may go. */
  lemma DroppingObjectsSpares(s: Store, s': Store, now: nat, cutoff: nat)
    requires s' == s.(objects := s'.objects) && s'.objects <= s.objects
    requires forall k :: KeepsObject(s, k, now) ==> k in s'.objects
    ensures Spares(s, s', now, cutoff)
  {
    hide PurgedNow, KeepsObject;
  }

  lemma ExpiredObjectsGo(s: Store, page: set<Id>, now: nat)
    requires page <= Expired(s, now)
    ensures forall k :: k in KeysOfAll(s.batches, page) ==> !KeepsObject(s, k, now)
  {
    forall k | k in KeysOfAll(s.batches, page)
      ensures !KeepsObject(s, k, now)
    {
      var b :| b in page && k in KeysOf(s.batches[b]);
      assert Names(s.batches[b], k);
    }
  }

  lemma DroppingRowsSpares(s: Store, page: set<Id>, now: nat, cutoff: nat)
    requires page <= Expired(s, now)
    ensures Spares(s, s.(batches := s.batches - page), now, cutoff)
  {
    hide PurgedNow;
  }

  lemma DueArePurged(s: Store, now: nat)
    ensures forall o :: o in Due(s, now) <==> PurgedNow(s, o, now)
  {
  }

  lemma HardDeleteSpares(s: Store, o: Id, now: nat, cutoff: nat)
    requires PurgedNow(s, o, now)
    ensures Spares(s, HardDelete(s, o, now), now, cutoff)
  {
  }

  lemma PurgeChecksSpares(s: Store, now: nat, cutoff: nat)
    ensures Spares(s, PurgeChecks(s, now), now, cutoff)
  {
    hide PurgedNow;
  }

  lemma PurgeLeadsSpares(s: Store, now: nat, cutoff: nat)
    ensures Spares(s, PurgeLeads(s, now), now, cutoff)
  {
    hide PurgedNow;
  }

  lemma PurgeLedgerSpares(s: Store, now: nat, cutoff: nat)
    ensures Spares(s, PurgeLedger(s, cutoff), now, cutoff)
  {
    hide PurgedNow;
  }

  lemma RemoveRetiredSpares(s: Store, now: nat, cutoff: nat)
    ensures Spares(s, RemoveRetired(s), now, cutoff)
  {
    hide PurgedNow;
  }

  lemma AuditSpares(s: Store, now: nat, cutoff: nat)
    ensures Spares(s, s.(audit := s.audit + 1), now, cutoff)
  {
    hide PurgedNow;
  }

  /** The specified result is what is to stay. */
  lemma ResultLeaves(s: Store, now: nat, cutoff: nat)
    requires Valid(s)
    ensures Leaves(s, Result(s, now, cutoff), now, cutoff)
  {
    var r := Result(s, now, cutoff);
    var drained := DrainBatches(PurgeChecks(s, now), now);
    DueArePurged(drained, now);
    assert forall o :: PurgedNow(drained, o, now) <==> PurgedNow(s, o, now);
    DrainedObjects(s, now);
    hide PurgedNow;
    assert forall k :: k in r.objects <==> KeepsObject(s, k, now);
    assert forall o :: o in r.orgs <==> KeepsOrg(s, o, now, cutoff) by { ResultOrgs(s, now, cutoff); }
  }

  lemma DrainedObjects(s: Store, now: nat)
    ensures forall k :: k in DrainBatches(s, now).objects <==>
      k in s.objects && forall b :: b in s.batches && s.batches[b].expiresAt <= now ==> !Names(s.batches[b], k)
  {
    forall k | k in s.objects
      ensures k in KeysOfAll(s.batches, Expired(s, now)) <==> exists b :: b in s.batches && s.batches[b].expiresAt <= now && Names(s.batches[b], k)
    {
      if b :| b in s.batches && s.batches[b].expiresAt <= now && Names(s.batches[b], k) {
        assert b in Expired(s, now) && k in KeysOf(s.batches[b]);
      }
    }
  }

  lemma ResultOrgs(s: Store, now: nat, cutoff: nat)
    ensures forall o :: o in Result(s, now, cutoff).orgs <==> KeepsOrg(s, o, now, cutoff)
  {
    var r := Result(s, now, cutoff);
    var drained := DrainBatches(PurgeChecks(s, now), now);
    DueArePurged(drained, now);
    assert forall o :: PurgedNow(drained, o, now) <==> PurgedNow(s, o, now);
    hide PurgedNow;
    forall o
      ensures o in r.orgs <==> KeepsOrg(s, o, now, cutoff)
    {
      assert (forall e :: e in r.ledger ==> e.org != o) <==> !exists e :: KeepsEntry(s, e, cutoff) && e.org == o;
    }
  }

  lemma StartDrain(s: Store)
    ensures RemoveBatches(s, {}) == s && Safe(s, s)
  {
    assert KeysOfAll(s.batches, {}) == {};
    assert s.batches - {} == s.batches;
  }

  /** Removing a page, objects and rows, from what earlier pages left. */
  lemma DrainStep(s0: Store, s1: Store, gone: set<Id>, page: set<Id>, now: nat)
    requires gone <= Expired(s0, now) && s1 == RemoveBatches(s0, gone) && page <= Expired(s1, now) && page != {}
    ensures page <= s1.batches.Keys && gone + page <= Expired(s0, now)
    ensures var s' := s1.(objects := s1.objects - KeysOfAll(s1.batches, page), batches := s1.batches - page);
      s' == RemoveBatches(s0, gone + page) && |Expired(s', now)| < |Expired(s1, now)|
  {
    var s' := s1.(objects := s1.objects - KeysOfAll(s1.batches, page), batches := s1.batches - page);
    assert KeysOfAll(s0.batches, gone + page) == KeysOfAll(s0.batches, gone) + KeysOfAll(s1.batches, page);
    assert s'.batches == s0.batches - (gone + page);
    assert Expired(s', now) == Expired(s1, now) - page;
    var b :| b in page;
    assert Expired(s', now) < Expired(s1, now);
    StrictSubset(Expired(s', now), Expired(s1, now));
  }

  lemma StrictSubset(a: set<Id>, b: set<Id>)
    requires a < b
    ensures |a| < |b|
  {
    assert b == a + (b - a);
  }

  lemma DrainDone(s0: Store, s: Store, gone: set<Id>, now: nat)
    requires gone <= Expired(s0, now) && s == RemoveBatches(s0, gone) && Expired(s, now) == {}
    ensures s == DrainBatches(s0, now)
  {
    forall b | b in Expired(s0, now)
      ensures b in gone
    {
      assert b !in gone ==> b in Expired(s, now);
    }
    assert gone == Expired(s0, now);
  }

  lemma SameTracking(s: Store, s': Store)
    requires Valid(s) && s'.objects <= s.objects && s' == s.(objects := s'.objects)
    ensures Valid(s') && Safe(s, s')
  {
  }

  lemma PurgeChecksSafe(s: Store, now: nat)
    requires Valid(s)
    ensures Valid(PurgeChecks(s, now)) && Safe(s, PurgeChecks(s, now))
  {
  }

  /** Rows may go once none of their objects exists. */
  lemma DroppingRowsSafe(s: Store, ids: set<Id>)
    requires Valid(s) && ids <= s.batches.Keys && s.objects !! KeysOfAll(s.batches, ids)
    ensures var s' := s.(batches := s.batches - ids);
      Valid(s') && Safe(s, s')
  {
    var s' := s.(batches := s.batches - ids);
    forall k | k in s'.objects && BatchTracked(s, k)
      ensures BatchTracked(s', k)
    {
      var b :| b in s.batches && Names(s.batches[b], k);
      assert k in KeysOf(s.batches[b]) && k !in KeysOfAll(s.batches, ids);
      assert b in s'.batches;
    }
  }

  /** The marker may be set once the prefix is empty. */
  lemma HardDeleteSafe(s: Store, o: Id, now: nat)
    requires Valid(s) && o in s.orgs && Prefix(s, o) == {}
    ensures Valid(HardDelete(s, o, now)) && Safe(s, HardDelete(s, o, now))
  {
    var s' := HardDelete(s, o, now);
    assert forall k :: k in s.objects && k.org == o ==> k in Prefix(s, o);
    forall k | k in s'.objects && BatchTracked(s, k)
      ensures BatchTracked(s', k)
    {
      var b :| b in s.batches && Names(s.batches[b], k);
      assert b in s'.batches && s'.batches[b] == s.batches[b];
    }
  }

  lemma RemoveRetiredSafe(s: Store)
    requires Valid(s)
    ensures Valid(RemoveRetired(s)) && Safe(s, RemoveRetired(s))
  {
  }

  /** Leads, ledger rows and audit events track no object. */
  lemma OnlyAside(s: Store, s': Store)
    requires Valid(s) && s' == s.(leads := s'.leads, ledger := s'.ledger, audit := s'.audit)
    ensures Valid(s') && Safe(s, s')
  {
  }

  lemma DueExist(s: Store, now: nat)
    ensures Due(s, now) <= s.orgs.Keys
  {
  }

  lemma NoOrgsPurged(s: Store, now: nat)
    ensures PurgeOrgs(s, {}, now) == s
  {
  }

  lemma OneMorePurged(s0: Store, done: set<Id>, o: Id, now: nat)
    requires done <= s0.orgs.Keys && o in s0.orgs && o !in done
    ensures var s1 := PurgeOrgs(s0, done, now);
      o in s1.orgs && HardDelete(s1.(objects := s1.objects - Prefix(s1, o)), o, now) == PurgeOrgs(s0, done + {o}, now)
  {
    var s1 := PurgeOrgs(s0, done, now);
    var s2, s3 := HardDelete(s1.(objects := s1.objects - Prefix(s1, o)), o, now), PurgeOrgs(s0, done + {o}, now);
    assert s2.objects == s3.objects;
    assert s2.checks == s3.checks;
    assert s2.batches == s3.batches;
    assert s2.orgs == s3.orgs;
  }

  // ---------------------------------------------------------------- idempotence

  lemma ResultIsSwept(s: Store, now: nat, cutoff: nat)
    ensures Swept(Result(s, now, cutoff), now, cutoff)
  {
    var drained := DrainBatches(PurgeChecks(s, now), now);
    var purged := PurgeOrgs(drained, Due(drained, now), now);
    assert Expired(drained, now) == {};
    assert Due(purged, now) == {};
    var r := Result(s, now, cutoff);
    assert forall b :: b in r.batches ==> b in drained.batches && r.batches[b] == drained.batches[b];
    assert forall o :: o in r.orgs ==> o in purged.orgs && r.orgs[o] == purged.orgs[o];
    assert forall b :: b in r.batches && r.batches[b].expiresAt <= now ==> b in Expired(drained, now);
    DueArePurged(purged, now);
    assert forall o :: o in r.orgs && PurgedNow(r, o, now) ==> PurgedNow(purged, o, now);
    assert forall o :: o in r.orgs && r.orgs[o].purgedAt.Some? ==> exists e :: e in r.ledger && e.org == o;
  }

  /** A swept store stays as it is, but for one more audit event. */
  lemma SweptIsFixed(s: Store, now: nat, cutoff: nat)
    requires Swept(s, now, cutoff)
    ensures Result(s, now, cutoff) == s.(audit := s.audit + 1)
  {
    assert PurgeChecks(s, now) == s;
    StartDrain(s);
    assert Expired(s, now) == {};
    assert DrainBatches(s, now) == s;
    DueArePurged(s, now);
    assert Due(s, now) == {};
    NoOrgsPurged(s, now);
    assert StaleExports(s, now) == {} && Retired(s) == {};
    assert PurgeLeads(s, now) == s;
    assert s.objects - StaleExports(s, now) == s.objects;
    assert PurgeLedger(s, cutoff) == s;
    assert s.orgs - Retired(s) == s.orgs;
  }

  /** A second full sweep at the same instant changes nothing except the audit log. */
  lemma SecondSweepIsIdle(s: Store, now: nat, cutoff: nat)
    ensures var once := Result(s, now, cutoff);
      Result(once, now, cutoff) == once.(audit := once.audit + 1)
  {
    ResultIsSwept(s, now, cutoff);
    SweptIsFixed(Result(s, now, cutoff), now, cutoff);
  }
}

/**
 The seven-day result cache, checked again under the organisation lock, keeps
 two paid checks of one address apart.
 */
module CacheWindow {
  import opened Prelude
  import opened Ledger
  import opened Batches
  import opened CreditProtocol
  import opened Solvency

  ghost predicate SameAddress(p: Paid, org: Uuid, hash: string) {
    p.org == org && p.hash == hash
  }

  function Expires(p: Paid): nat {
    p.requestedAt + p.retentionDays * DAY_MS
  }

  /** The debit's own row answers for it until it expires. */
  ghost predicate Covered(clock: nat, checks: set<Check>, p: Paid) {
    || Expires(p) <= clock
    || (exists c :: c in checks && c.org == p.org && c.hash == p.hash && c.createdAt == p.startedAt && c.expiresAt == Expires(p))
  }

  ghost predicate AllCovered(clock: nat, checks: set<Check>, paid: seq<Paid>) {
    forall i :: 0 <= i < |paid| ==> Covered(clock, checks, paid[i])
  }

  /** For a request, the debit is a full window old; or by `clock` its row has expired. */
  ghost predicate Spent(p: Paid, requestedAt: nat, clock: nat) {
    p.startedAt + CACHE_WINDOW_MS <= requestedAt || Expires(p) <= clock
  }

  ghost predicate AllSpent(clock: nat, paid: seq<Paid>, d: Debit)
    requires d.kind.Email?
  {
    forall i :: 0 <= i < |paid| && SameAddress(paid[i], d.org, d.kind.hash) ==> Spent(paid[i], d.requestedAt, clock)
  }

  ghost predicate DebitsTimely(clock: nat, paid: seq<Paid>, debits: map<nat, Debit>) {
    forall tx :: tx in debits ==>
      var d := debits[tx];
      && d.requestedAt <= d.startedAt <= clock
      && (d.kind.Email? && (d.phase == CacheMissed || d.phase == BalanceRead) ==> AllSpent(clock, paid, d))
  }

  /** When the later of two debits for one address was paid, the earlier one was spent. */
  ghost predicate Spaced(paid: seq<Paid>) {
    && (forall i :: 0 <= i < |paid| ==> paid[i].requestedAt <= paid[i].startedAt <= paid[i].committedAt)
    && (forall i, j :: 0 <= i < j < |paid| && SameAddress(paid[i], paid[j].org, paid[j].hash) ==>
          Spent(paid[i], paid[j].requestedAt, paid[j].committedAt))
  }

  ghost predicate Timely(w: World) {
    && LocksHeld(w)
    && DebitsTimely(w.clock, w.paid, w.debits)
    && AllCovered(w.clock, w.checks, w.paid)
    && Spaced(w.paid)
  }

  /** A cache miss means every earlier debit for the address is spent. */
  lemma MissMeansSpent(w: World, d: Debit)
    requires AllCovered(w.clock, w.checks, w.paid) && d.kind.Email? && d.requestedAt <= w.clock
    requires !exists c :: c in w.checks && Reusable(c, d.org, d.kind.hash, d.requestedAt)
    ensures AllSpent(w.clock, w.paid, d)
  {
    forall i | 0 <= i < |w.paid| && SameAddress(w.paid[i], d.org, d.kind.hash)
      ensures Spent(w.paid[i], d.requestedAt, w.clock)
    {
      assert Covered(w.clock, w.checks, w.paid[i]);
    }
  }

  lemma PurgeKeepsCovered(clock: nat, checks: set<Check>, kept: set<Check>, paid: seq<Paid>)
    requires AllCovered(clock, checks, paid) && forall c :: c in checks && clock < c.expiresAt ==> c in kept
    ensures AllCovered(clock, kept, paid)
  {
    forall i | 0 <= i < |paid|
      ensures Covered(clock, kept, paid[i])
    {
      assert Covered(clock, checks, paid[i]);
    }
  }

  lemma TickKeepsTimely(w: World)
    requires Timely(w)
    ensures Timely(w.(clock := w.clock + 1))
  {
    forall i | 0 <= i < |w.paid|
      ensures Covered(w.clock + 1, w.checks, w.paid[i])
    {
      assert Covered(w.clock, w.checks, w.paid[i]);
    }
  }

  lemma OthersKeepTimely(w: World, e: Event)
    requires Timely(w) && !e.OnDebit? && !ExplicitDeletion(e)
    ensures Timely(Step(w, e))
  {
    hide RouteStep;
    hide JobStep;
    hide BatchStep;
    hide DebitsTimely;
    hide AllCovered;
    hide Spaced;
    match e
    case Tick => TickKeepsTimely(w);
    case OnOrg(_, _) =>
    case OnRoute(_, _) =>
    case OnJob(_, _) =>
    case OnBatch(_, _) =>
    case OnChecks(op) =>
      PurgeStepKeepsCovered(w, op);
  }

  lemma PurgeStepKeepsCovered(w: World, op: CheckOp)
    requires AllCovered(w.clock, w.checks, w.paid) && !op.DeleteOne? && !op.Wipe?
    ensures AllCovered(w.clock, CheckStep(w, op).checks, w.paid)
  {
    PurgeKeepsCovered(w.clock, w.checks, CheckStep(w, op).checks, w.paid);
  }

  lemma EmailCommitKeepsTimely(w: World, tx: nat)
    requires Timely(w) && tx in w.debits && w.debits[tx].kind.Email?
    ensures Timely(CommitStep(w, tx))
  {
    hide Insert;
    CloseKeepsLocks(w, tx);
    var d, w' := w.debits[tx], CommitStep(w, tx);
    if w'.paid != w.paid {
      assert w'.paid == w.paid + [Paid(d.org, d.kind.hash, d.requestedAt, d.startedAt, w.db.orgs[d.org].retentionDays, w.clock)];
      PurgeKeepsCovered(w.clock, w.checks, w'.checks, w.paid);
      forall i | 0 <= i < |w'.paid|
        ensures Covered(w'.clock, w'.checks, w'.paid[i])
      {
        if i == |w.paid| {
          var expiresAt := d.requestedAt + w.db.orgs[d.org].retentionDays * DAY_MS;
          assert Check(d.kind.checkId, d.org, d.kind.hash, d.startedAt, expiresAt) in w'.checks;
        } else {
          assert w'.paid[i] == w.paid[i];
          assert Covered(w.clock, w'.checks, w.paid[i]);
        }
      }
      assert AllSpent(w.clock, w.paid, d);
    }
  }

  lemma PhaseKeepsTimely(w: World, tx: nat, op: DebitOp)
    requires Timely(w) && tx in w.debits && !op.Call? && !op.Commit?
    ensures Timely(DebitStep(w, tx, op))
  {
    hide AllCovered;
    hide Spaced;
    hide Balance;
    DebitKeepsLocks(w, tx, op);
    var d := w.debits[tx];
    if op.ReadCache? && d.kind.Email? && !exists c :: c in w.checks && Reusable(c, d.org, d.kind.hash, d.requestedAt) {
      MissMeansSpent(w, d);
    }
  }

  lemma DebitKeepsTimely(w: World, tx: nat, op: DebitOp)
    requires Timely(w)
    ensures Timely(DebitStep(w, tx, op))
  {
    hide Timely, DebitStep, CommitStep;
    if op.Call? || tx !in w.debits {
      CallKeepsTimely(w, tx, op);
    } else if !op.Commit? {
      PhaseKeepsTimely(w, tx, op);
    } else if w.debits[tx].kind.Email? {
      EmailCommitKeepsTimely(w, tx);
      CommitIsStep(w, tx);
    } else {
      OtherCommitKeepsTimely(w, tx);
      CommitIsStep(w, tx);
    }
  }

  lemma CommitIsStep(w: World, tx: nat)
    requires tx in w.debits
    ensures DebitStep(w, tx, Commit) == CommitStep(w, tx)
  {}

  lemma CallKeepsTimely(w: World, tx: nat, op: DebitOp)
    requires Timely(w) && (op.Call? || tx !in w.debits)
    ensures Timely(DebitStep(w, tx, op))
  {
    hide AllCovered, Spaced;
    DebitKeepsLocks(w, tx, op);
  }

  lemma OtherCommitKeepsTimely(w: World, tx: nat)
    requires Timely(w) && tx in w.debits && !w.debits[tx].kind.Email?
    ensures Timely(CommitStep(w, tx))
  {
    hide Insert, AllCovered, Spaced;
    CloseKeepsLocks(w, tx);
  }

  lemma {:induction false} RunKeepsTimely(w: World, events: seq<Event>)
    requires Timely(w) && forall e :: e in events ==> !ExplicitDeletion(e)
    ensures Timely(Run(w, events))
    decreases |events|
  {
    if events != [] {
      var e := events[0];
      if e.OnDebit? { DebitKeepsTimely(w, e.tx, e.debit); } else { OthersKeepTimely(w, e); }
      RunKeepsTimely(Step(w, e), events[1..]);
    }
  }

  /** Before the later debit, no check row was deleted by hand. */
  ghost predicate NoDeletion(events: seq<Event>) {
    forall e :: e in events ==> !ExplicitDeletion(e)
  }

  /**
   Two paid checks of one address, whatever happens in between: for the second
   request the first check is seven days old, or by the second commit it has
   outlived its retention. So the rows' own stamps are seven days apart unless
   the first request waited, and the second call took, longer together than the
   retention exceeds seven days; and with seven days or more of retention the
   second commit comes at least seven days after the first request.
   */
  lemma PaidChecksAreSpaced(orgs: map<Uuid, Org>, events: seq<Event>, i: nat, j: nat)
    requires NoDeletion(events)
    requires var paid := Run(Start(orgs), events).paid;
      i < j < |paid| && paid[i].org == paid[j].org && paid[i].hash == paid[j].hash
    ensures var paid := Run(Start(orgs), events).paid;
      var p, q := paid[i], paid[j];
      && (p.startedAt + CACHE_WINDOW_MS <= q.requestedAt || p.requestedAt + p.retentionDays * DAY_MS <= q.committedAt)
      && ((p.startedAt - p.requestedAt) + (q.committedAt - q.requestedAt) + CACHE_WINDOW_MS <= p.retentionDays * DAY_MS ==>
            p.startedAt + CACHE_WINDOW_MS <= q.startedAt)
      && (p.retentionDays >= 7 ==> p.requestedAt + CACHE_WINDOW_MS <= q.committedAt)
  {
    RunKeepsTimely(Start(orgs), events);
    var paid := Run(Start(orgs), events).paid;
    assert Spent(paid[i], paid[j].requestedAt, paid[j].committedAt);
  }

  // --------------------------------------------------- and no further than that

  function Ticks(n: nat): seq<Event> {
    if n == 0 then [] else [Tick] + Ticks(n - 1)
  }

  lemma {:induction false} TicksPass(w: World, n: nat)
    ensures Run(w, Ticks(n)) == w.(clock := w.clock + n)
    decreases n
  {
    if n > 0 {
      assert Ticks(n)[1..] == Ticks(n - 1);
      TicksPass(Step(w, Tick), n - 1);
    }
  }

  lemma {:induction false} NothingButTicks(n: nat)
    ensures forall e :: e in Ticks(n) ==> e == Tick
  {
    if n > 0 { NothingButTicks(n - 1); }
  }

  /** The rest of a debit that has begun. */
  function Pay(tx: nat): seq<Event> {
    [OnDebit(tx, Lock), OnDebit(tx, ReadCache), OnDebit(tx, ReadBalance), OnDebit(tx, Commit)]
  }

  /** One debit alone in a world that can pay for it. */
  ghost predicate CanPay(w: World, tx: nat, d: Debit) {
    && w.debits == map[tx := d] && d.kind.Email?
    && d.org in w.db.orgs && w.db.orgs[d.org].active && Balance(w.db.ledger, d.org) >= 1
    && !HasReference(w.db.ledger, d.org, ById(d.kind.checkId))
    && forall c :: c in w.checks ==> !Reusable(c, d.org, d.kind.hash, d.requestedAt)
  }

  lemma PayLocks(w: World, tx: nat, d: Debit)
    requires CanPay(w, tx, d) && d.phase == Begun && w.locks == map[]
    ensures Step(w, OnDebit(tx, Lock)) == w.(debits := map[tx := d.(phase := Locked)], locks := map[d.org := tx])
  {
    hide Balance, HasReference;
    assert w.debits[tx := d.(phase := Locked)] == map[tx := d.(phase := Locked)];
  }

  lemma PayReads(w: World, tx: nat, d: Debit)
    requires CanPay(w, tx, d) && d.phase == Locked
    ensures Step(Step(w, OnDebit(tx, ReadCache)), OnDebit(tx, ReadBalance)) == w.(debits := map[tx := d.(phase := BalanceRead)])
  {
    hide Balance, HasReference;
    var w1 := Step(w, OnDebit(tx, ReadCache));
    assert w1 == w.(debits := map[tx := d.(phase := CacheMissed)]);
    assert w1.debits[tx := d.(phase := BalanceRead)] == map[tx := d.(phase := BalanceRead)];
  }

  lemma PayCommits(w: World, tx: nat, d: Debit)
    requires CanPay(w, tx, d) && d.phase == BalanceRead && w.locks == map[d.org := tx]
    ensures Step(w, OnDebit(tx, Commit)) == AfterPaying(w, d)
  {
    assert w.debits - {tx} == map[] && w.locks - {d.org} == map[];
  }

  function AfterPaying(w: World, d: Debit): World
    requires d.kind.Email? && d.org in w.db.orgs
  {
    w.(debits := map[], locks := map[],
       db := w.db.(ledger := w.db.ledger + [DebitEntry(d)]),
       checks := w.checks + {Check(d.kind.checkId, d.org, d.kind.hash, d.startedAt,
                                   d.requestedAt + w.db.orgs[d.org].retentionDays * DAY_MS)},
       paid := w.paid + [Paid(d.org, d.kind.hash, d.requestedAt, d.startedAt, w.db.orgs[d.org].retentionDays, w.clock)])
  }

  lemma PaySucceeds(w: World, tx: nat, d: Debit)
    requires CanPay(w, tx, d) && d.phase == Begun && w.locks == map[]
    ensures Run(w, Pay(tx)) == AfterPaying(w, d)
  {
    hide Step, Balance, HasReference;
    var d' := d.(phase := Locked);
    var w1 := w.(debits := map[tx := d'], locks := map[d.org := tx]);
    var w3 := w1.(debits := map[tx := d'.(phase := BalanceRead)]);
    PayLocks(w, tx, d);
    PayReads(w1, tx, d');
    PayCommits(w3, tx, d'.(phase := BalanceRead));
    assert Pay(tx) == [OnDebit(tx, Lock)] + ([OnDebit(tx, ReadCache)] + ([OnDebit(tx, ReadBalance)] + ([OnDebit(tx, Commit)] + [])));
    RunOne(w, OnDebit(tx, Lock), [OnDebit(tx, ReadCache)] + ([OnDebit(tx, ReadBalance)] + ([OnDebit(tx, Commit)] + [])));
    RunOne(w1, OnDebit(tx, ReadCache), [OnDebit(tx, ReadBalance)] + ([OnDebit(tx, Commit)] + []));
    RunOne(Step(w1, OnDebit(tx, ReadCache)), OnDebit(tx, ReadBalance), [OnDebit(tx, Commit)] + []);
    RunOne(w3, OnDebit(tx, Commit), []);
  }

  function Customer(days: nat): map<Uuid, Org> {
    map[1 := Org(days, true)]
  }

  const FIRST := Email(10, "a@b")
  const SECOND := Email(11, "a@b")

  /** The first request waits `delay` before its transaction begins. */
  function FirstHalf(delay: nat): seq<Event> {
    [OnOrg(1, GrantCredits(2, "")), OnDebit(0, Call(1, FIRST))] + Ticks(delay) + [OnDebit(0, Begin)] + Pay(0)
  }

  /** The second comes `wait` later and begins at once, but goes on only when, after `latency`, a purge has run. */
  function SecondArrives(wait: nat, latency: nat): seq<Event> {
    Ticks(wait) + [OnDebit(1, Call(1, SECOND)), OnDebit(1, Begin)] + Ticks(latency) + [OnChecks(PurgeExpired)]
  }

  /** The purge comes just as the first row expires. */
  function TightRun(days: nat, delay: nat, latency: nat): seq<Event>
    requires delay + latency <= days * DAY_MS
  {
    FirstHalf(delay) + (SecondArrives(days * DAY_MS - delay - latency, latency) + Pay(1))
  }

  lemma TightRunDeletesNothing(days: nat, delay: nat, latency: nat)
    requires delay + latency <= days * DAY_MS
    ensures NoDeletion(TightRun(days, delay, latency))
  {
    NothingButTicks(delay);
    NothingButTicks(days * DAY_MS - delay - latency);
    NothingButTicks(latency);
  }

  lemma FirstCall(days: nat)
    ensures var w := Run(Start(Customer(days)), [OnOrg(1, GrantCredits(2, "")), OnDebit(0, Call(1, FIRST))]);
      w == Start(Customer(days)).(db := Tables(Customer(days), [Entry(1, 2, Grant, GrantOf(""), 0)], map[]),
                                  debits := map[0 := Debit(1, FIRST, 0, 0, Called)])
  {
    var e0, e1 := OnOrg(1, GrantCredits(2, "")), OnDebit(0, Call(1, FIRST));
    assert [e0, e1] == [e0] + ([e1] + []);
    RunOne(Start(Customer(days)), e0, [e1] + []);
    RunOne(Step(Start(Customer(days)), e0), e1, []);
  }

  lemma Begins(w: World, tx: nat, d: Debit)
    requires w.debits == map[tx := d] && d.phase == Called
    ensures Run(w, [OnDebit(tx, Begin)]) == w.(debits := map[tx := d.(startedAt := w.clock, phase := Begun)])
  {
    RunOne(w, OnDebit(tx, Begin), []);
    assert w.debits[tx := d.(startedAt := w.clock, phase := Begun)] == map[tx := d.(startedAt := w.clock, phase := Begun)];
  }

  lemma SecondCall(w: World)
    requires w.debits == map[]
    ensures Run(w, [OnDebit(1, Call(1, SECOND)), OnDebit(1, Begin)])
         == w.(debits := map[1 := Debit(1, SECOND, w.clock, w.clock, Begun)])
  {
    var d := Debit(1, SECOND, w.clock, w.clock, Called);
    var e0, e1 := OnDebit(1, Call(1, SECOND)), OnDebit(1, Begin);
    assert [e0, e1] == [e0] + [e1];
    RunOne(w, e0, [e1]);
    Begins(w.(debits := map[1 := d]), 1, d);
  }

  lemma PurgeEmpties(w: World)
    requires forall c :: c in w.checks ==> c.expiresAt <= w.clock
    ensures Run(w, [OnChecks(PurgeExpired)]) == w.(checks := {})
  {
    RunOne(w, OnChecks(PurgeExpired), []);
  }

  /** After the first debit: one check row, one credit left. */
  lemma FirstPaid(days: nat, delay: nat)
    ensures Run(Start(Customer(days)), FirstHalf(delay)) == World(
      delay, Tables(Customer(days), [Entry(1, 2, Grant, GrantOf(""), 0), Entry(1, -1, SingleCheck, ById(10), delay)], map[]),
      {Check(10, 1, "a@b", delay, days * DAY_MS)}, map[], map[], {}, map[], map[], [Paid(1, "a@b", 0, delay, days, delay)])
  {
    hide Step, Run;
    var first := [OnOrg(1, GrantCredits(2, "")), OnDebit(0, Call(1, FIRST))];
    var start := Start(Customer(days));
    FirstCall(days);
    var w0 := Run(start, first);
    var w1 := w0.(clock := delay);
    var d := Debit(1, FIRST, 0, delay, Begun);
    var w2 := w1.(debits := map[0 := d]);
    TicksPass(w0, delay);
    Begins(w1, 0, Debit(1, FIRST, 0, 0, Called));
    PaySucceeds(w2, 0, d);
    RunConcat(start, first, Ticks(delay));
    RunConcat(start, first + Ticks(delay), [OnDebit(0, Begin)]);
    RunConcat(start, first + Ticks(delay) + [OnDebit(0, Begin)], Pay(0));
  }

  lemma SecondWaits(w: World, wait: nat, latency: nat)
    requires w.debits == map[] && forall c :: c in w.checks ==> c.expiresAt <= w.clock + wait + latency
    ensures Run(w, SecondArrives(wait, latency)) ==
      w.(clock := w.clock + wait + latency, checks := {},
         debits := map[1 := Debit(1, SECOND, w.clock + wait, w.clock + wait, Begun)])
  {
    hide Step, Run;
    var second := [OnDebit(1, Call(1, SECOND)), OnDebit(1, Begin)];
    var w1 := w.(clock := w.clock + wait);
    var w2 := w1.(debits := map[1 := Debit(1, SECOND, w1.clock, w1.clock, Begun)]);
    var w3 := w2.(clock := w2.clock + latency);
    TicksPass(w, wait);
    SecondCall(w1);
    TicksPass(w2, latency);
    PurgeEmpties(w3);
    RunConcat(w, Ticks(wait), second);
    RunConcat(w, Ticks(wait) + second, Ticks(latency));
    RunConcat(w, Ticks(wait) + second + Ticks(latency), [OnChecks(PurgeExpired)]);
  }

  lemma SecondPaid(w: World, wait: nat, latency: nat)
    requires w.debits == map[] && w.locks == map[] && 1 in w.db.orgs && w.db.orgs[1].active
    requires Balance(w.db.ledger, 1) >= 1 && !HasReference(w.db.ledger, 1, ById(11))
    requires forall c :: c in w.checks ==> c.expiresAt <= w.clock + wait + latency
    ensures Run(w, SecondArrives(wait, latency) + Pay(1)).paid == w.paid +
      [Paid(1, "a@b", w.clock + wait, w.clock + wait, w.db.orgs[1].retentionDays, w.clock + wait + latency)]
  {
    hide Step, Run, Balance, HasReference, SecondArrives, Pay;
    var d := Debit(1, SECOND, w.clock + wait, w.clock + wait, Begun);
    var w' := w.(clock := w.clock + wait + latency, checks := {}, debits := map[1 := d]);
    SecondWaits(w, wait, latency);
    PaySucceeds(w', 1, d);
    RunConcat(w, SecondArrives(wait, latency), Pay(1));
  }

  lemma OneCreditLeft(delay: nat)
    ensures var ledger := [Entry(1, 2, Grant, GrantOf(""), 0), Entry(1, -1, SingleCheck, ById(10), delay)];
      Balance(ledger, 1) == 1 && !HasReference(ledger, 1, ById(11))
  {
    var grant, spend := Entry(1, 2, Grant, GrantOf(""), 0), Entry(1, -1, SingleCheck, ById(10), delay);
    var none: seq<Entry> := [];
    assert [grant, spend] == none + [grant] + [spend];
    BalanceAppend(none, grant, 1);
    BalanceAppend(none + [grant], spend, 1);
  }

  /**
   For every retention, waiting time and latency, a run of just two debits for
   one address whose stamps are the retention apart, less both of them.
   */
  lemma SpacingIsTight(days: nat, delay: nat, latency: nat)
    requires delay + latency <= days * DAY_MS
    ensures Run(Start(Customer(days)), TightRun(days, delay, latency)).paid ==
      [Paid(1, "a@b", 0, delay, days, delay),
       Paid(1, "a@b", days * DAY_MS - latency, days * DAY_MS - latency, days, days * DAY_MS)]
  {
    hide Run, FirstHalf, SecondArrives, Pay, Balance, HasReference;
    var wait := days * DAY_MS - delay - latency;
    var start := Start(Customer(days));
    FirstPaid(days, delay);
    OneCreditLeft(delay);
    SecondPaid(Run(start, FirstHalf(delay)), wait, latency);
    RunConcat(start, FirstHalf(delay), SecondArrives(wait, latency) + Pay(1));
  }

  /** Two debits of a run for one address, the first kept for `days`, within these delays. */
  ghost predicate PaidTwice(orgs: map<Uuid, Org>, events: seq<Event>, i: nat, j: nat, days: nat, delay: nat, latency: nat) {
    var paid := Run(Start(orgs), events).paid;
    && NoDeletion(events) && i < j < |paid| && paid[i].org == paid[j].org && paid[i].hash == paid[j].hash
    && paid[i].retentionDays == days
    && paid[i].startedAt - paid[i].requestedAt <= delay && paid[j].committedAt - paid[j].requestedAt <= latency
  }

  ghost predicate StampsApart(orgs: map<Uuid, Org>, events: seq<Event>, i: nat, j: nat) {
    var paid := Run(Start(orgs), events).paid;
    i < j < |paid| && paid[i].startedAt + CACHE_WINDOW_MS <= paid[j].startedAt
  }

  /**
   The stamps of two debits for one address are seven days apart in every run
   where no request waits longer than `delay` and no call takes longer than
   `latency`, exactly if the retention is at least seven days and both of these.
   */
  lemma StampsApartExactly(days: nat, delay: nat, latency: nat)
    ensures (forall orgs, events, i, j :: PaidTwice(orgs, events, i, j, days, delay, latency) ==> StampsApart(orgs, events, i, j))
       <==> delay + latency + CACHE_WINDOW_MS <= days * DAY_MS
  {
    if delay + latency + CACHE_WINDOW_MS <= days * DAY_MS {
      forall orgs, events, i, j | PaidTwice(orgs, events, i, j, days, delay, latency)
        ensures StampsApart(orgs, events, i, j)
      {
        PaidChecksAreSpaced(orgs, events, i, j);
      }
    } else {
      var excess: nat := if days >= 7 then (days - 7) * DAY_MS + 1 else 0;
      var d := if excess <= delay then excess else delay;
      var l := excess - d;
      SpacingIsTight(days, d, l);
      TightRunDeletesNothing(days, d, l);
      hide Run, TightRun, NoDeletion;
      assert PaidTwice(Customer(days), TightRun(days, d, l), 0, 1, days, delay, latency);
      assert !StampsApart(Customer(days), TightRun(days, d, l), 0, 1);
    }
  }
}

/**
 The per-host SMTP throttle: one lease at a time and a sliding window of probe
 starts, kept in Redis and changed only by the acquire and release scripts. The
 API rate limiter is the window alone.
 */
module Throttle {
  import opened Prelude
  import opened SlidingWindow

  datatype Lease = Lease(token: Member, expiresAt: nat)

  datatype Host = Host(lease: Option<Lease>, window: Zset)

  datatype Limits = Limits(window: Config, leaseTtlMs: nat, leaseRetryMs: nat)

  datatype Answer = Granted | LeaseHeld(ttlMs: nat) | WindowFull(retryMs: nat)

  const UNUSED := Host(None, Zset([], 0))

  predicate Held(lease: Option<Lease>, now: nat) {
    lease.Some? && now <= lease.value.expiresAt
  }

  function Acquire(h: Host, token: Member, now: nat, c: Limits): (Host, Answer)
    requires c.window.limit > 0
  {
    if Held(h.lease, now) then (h, LeaseHeld(h.lease.value.expiresAt - now))
    else
      var (window, reply) := Try(h.window, token, now, c.window);
      match reply
      case Denied(retryMs) => (Host(h.lease, window), WindowFull(retryMs))
      case Admitted => (Host(Some(Lease(token, now + c.leaseTtlMs)), window), Granted)
  }

  function Release(h: Host, token: Member, now: nat): Host {
    if Held(h.lease, now) && h.lease.value.token == token then h.(lease := None) else h
  }

  /** What the caller is told to wait: at least half a second, at most the window. */
  function RetryDelay(a: Answer, c: Limits): nat
    requires !a.Granted?
  {
    var suggested := if a.WindowFull? then a.retryMs else if c.leaseRetryMs < a.ttlMs then c.leaseRetryMs else a.ttlMs;
    var patient := if suggested < 500 then 500 else suggested;
    if patient < c.window.windowMs then patient else c.window.windowMs
  }

  /** The suggestion, brought between half a second and the window; the window wins. */
  lemma DelayClamped(a: Answer, c: Limits)
    requires !a.Granted?
    ensures var delay := RetryDelay(a, c);
      && delay <= c.window.windowMs && (500 <= c.window.windowMs ==> 500 <= delay)
      && (a.WindowFull? && 500 <= a.retryMs <= c.window.windowMs ==> delay == a.retryMs)
      && (a.LeaseHeld? ==> delay <= 500 || (delay <= a.ttlMs && delay <= c.leaseRetryMs))
      && (a.LeaseHeld? && 500 <= c.leaseRetryMs <= a.ttlMs && c.leaseRetryMs <= c.window.windowMs ==> delay == c.leaseRetryMs)
  {
  }

  // --------------------------------------------------------------------- runs

  datatype Event = AcquireAt(token: Member, now: nat) | ReleaseAt(token: Member, now: nat)

  function Step(h: Host, e: Event, c: Limits): Host
    requires c.window.limit > 0
  {
    match e
    case AcquireAt(token, now) => Acquire(h, token, now, c).0
    case ReleaseAt(token, now) => Release(h, token, now)
  }

  predicate Admits(h: Host, e: Event, c: Limits)
    requires c.window.limit > 0
  {
    e.AcquireAt? && Acquire(h, e.token, e.now, c).1 == Granted
  }

  function Run(h: Host, events: seq<Event>, c: Limits): Host
    requires c.window.limit > 0
  {
    if events == [] then h else Step(Run(h, events[..|events| - 1], c), events[|events| - 1], c)
  }

  /** The start times of the admitted probes. */
  function Starts(h: Host, events: seq<Event>, c: Limits): seq<nat>
    requires c.window.limit > 0
  {
    if events == [] then []
    else
      var before, e := events[..|events| - 1], events[|events| - 1];
      Starts(h, before, c) + (if Admits(Run(h, before, c), e, c) then [e.now] else [])
  }

  /** The clock never goes back and no acquire reuses a token. */
  ghost predicate Proper(events: seq<Event>) {
    && (forall i, j :: 0 <= i < j < |events| ==> events[i].now <= events[j].now)
    && (forall i, j :: 0 <= i < j < |events| && events[i].AcquireAt? && events[j].AcquireAt? ==> events[i].token != events[j].token)
  }

  ghost function Tokens(events: seq<Event>): set<Member> {
    set i | 0 <= i < |events| && events[i].AcquireAt? :: events[i].token
  }

  lemma {:induction false} StepStaysTidy(h: Host, starts: seq<nat>, used: set<Member>, clock: nat, e: Event, c: Limits)
    requires c.window.limit > 0 && Tidy(h.window, starts, used, clock, c.window) && clock <= e.now
    requires e.AcquireAt? ==> e.token !in used
    ensures Tidy(Step(h, e, c).window, starts + (if Admits(h, e, c) then [e.now] else []),
                 if e.AcquireAt? then used + {e.token} else used, e.now, c.window)
  {
    hide Tidy;
    hide Try;
    LaterIsTidy(h.window, starts, used, clock, e.now, c.window);
    assert starts + [] == starts;
    if e.AcquireAt? && !Held(h.lease, e.now) {
      TryKeepsTidy(h.window, starts, used, clock, e.token, e.now, c.window);
    } else if e.AcquireAt? {
      MoreTokensTidy(h.window, starts, used, e.token, e.now, c.window);
    }
  }

  lemma {:induction false} TokensStep(events: seq<Event>, e: Event)
    requires Proper(events + [e])
    ensures Proper(events)
    ensures Tokens(events + [e]) == if e.AcquireAt? then Tokens(events) + {e.token} else Tokens(events)
    ensures e.AcquireAt? ==> e.token !in Tokens(events)
    ensures events != [] ==> events[|events| - 1].now <= e.now
  {
    var all := events + [e];
    assert all[|events|] == e;
    assert forall i :: 0 <= i < |events| ==> all[i] == events[i];
  }

  lemma {:induction false} RunStaysTidy(events: seq<Event>, c: Limits)
    requires c.window.limit > 0 && Proper(events)
    ensures Tidy(Run(UNUSED, events, c).window, Starts(UNUSED, events, c), Tokens(events),
                 if events == [] then 0 else events[|events| - 1].now, c.window)
  {
    hide Tidy, Step, Admits, Tokens, Proper, Run, Starts;
    if events == [] {
      NothingRun(c);
    } else {
      var before, e := events[..|events| - 1], events[|events| - 1];
      assert events == before + [e];
      TokensStep(before, e);
      RunStaysTidy(before, c);
      var clock := if before == [] then 0 else before[|before| - 1].now;
      StepStaysTidy(Run(UNUSED, before, c), Starts(UNUSED, before, c), Tokens(before), clock, e, c);
      RunExtends(before, e, c);
    }
  }

  lemma NothingRun(c: Limits)
    requires c.window.limit > 0
    ensures Tidy(Run(UNUSED, [], c).window, Starts(UNUSED, [], c), Tokens([]), 0, c.window)
  {
  }

  lemma RunExtends(before: seq<Event>, e: Event, c: Limits)
    requires c.window.limit > 0
    ensures Run(UNUSED, before + [e], c) == Step(Run(UNUSED, before, c), e, c)
    ensures Starts(UNUSED, before + [e], c) == Starts(UNUSED, before, c) + (if Admits(Run(UNUSED, before, c), e, c) then [e.now] else [])
  {
    hide Step, Admits;
    assert (before + [e])[..|before|] == before;
  }

  lemma LaterIsTidy(z: Zset, times: seq<nat>, used: set<Member>, clock: nat, later: nat, c: Config)
    requires Tidy(z, times, used, clock, c) && clock <= later
    ensures Tidy(z, times, used, later, c)
  {
  }

  lemma MoreTokensTidy(z: Zset, times: seq<nat>, used: set<Member>, token: Member, clock: nat, c: Config)
    requires Tidy(z, times, used, clock, c)
    ensures Tidy(z, times, used + {token}, clock, c)
  {
  }

  /** In every run, any window (t - windowMs, t] holds at most windowLimit admitted probes. */
  lemma {:induction false} ProbesPerWindow(events: seq<Event>, c: Limits, t: int)
    requires c.window.limit > 0 && Proper(events)
    ensures CountWithin(Starts(UNUSED, events, c), t - c.window.windowMs, t) <= c.window.limit
  {
    hide Run, Starts, Tokens, Proper, Step, Admits, CountWithin, Ordered, Spaced, Recent;
    RunStaysTidy(events, c);
    WindowHoldsLimit(Starts(UNUSED, events, c), c.window, t);
  }

  /** While a lease runs and its holder does not release it, nothing gets in and no one frees it. */
  lemma {:induction false} LeaseStands(h: Host, lease: Lease, events: seq<Event>, c: Limits)
    requires c.window.limit > 0 && h.lease == Some(lease)
    requires forall i :: 0 <= i < |events| ==> events[i].now <= lease.expiresAt
    requires forall i :: 0 <= i < |events| && events[i].ReleaseAt? ==> events[i].token != lease.token
    ensures Run(h, events, c).lease == Some(lease) && Starts(h, events, c) == []
  {
    if events != [] { LeaseStands(h, lease, events[..|events| - 1], c); }
  }

  lemma {:induction false} RunConcat(h: Host, xs: seq<Event>, ys: seq<Event>, c: Limits)
    requires c.window.limit > 0
    ensures Run(h, xs + ys, c) == Run(Run(h, xs, c), ys, c)
  {
    if ys == [] {
      assert xs + ys == xs;
    } else {
      assert (xs + ys)[..|xs + ys| - 1] == xs + ys[..|ys| - 1];
      RunConcat(h, xs, ys[..|ys| - 1], c);
    }
  }

  lemma AdmissionTakesLease(h: Host, e: Event, c: Limits)
    requires c.window.limit > 0 && Admits(h, e, c)
    ensures !Held(h.lease, e.now) && Step(h, e, c).lease == Some(Lease(e.token, e.now + c.leaseTtlMs))
  {
    hide Try;
  }

  lemma {:induction false} RunNext(h: Host, events: seq<Event>, i: nat, c: Limits)
    requires c.window.limit > 0 && i < |events|
    ensures Run(h, events[..i + 1], c) == Step(Run(h, events[..i], c), events[i], c)
  {
    assert events[..i + 1][..i] == events[..i];
  }

  /** Two admitted probes are separated by the first holder's release or by its lease running out. */
  lemma {:induction false} ProbesDoNotOverlap(events: seq<Event>, c: Limits, i: nat, j: nat)
    requires c.window.limit > 0 && Proper(events) && i < j < |events|
    requires Admits(Run(UNUSED, events[..i], c), events[i], c) && Admits(Run(UNUSED, events[..j], c), events[j], c)
    ensures events[j].now > events[i].now + c.leaseTtlMs
         || exists r :: i < r < j && events[r].ReleaseAt? && events[r].token == events[i].token
  {
    hide Run;
    hide Step;
    hide Admits;
    if events[j].now <= events[i].now + c.leaseTtlMs && !exists r :: i < r < j && events[r].ReleaseAt? && events[r].token == events[i].token {
      var lease := Lease(events[i].token, events[i].now + c.leaseTtlMs);
      AdmissionTakesLease(Run(UNUSED, events[..i], c), events[i], c);
      RunNext(UNUSED, events, i, c);
      var between := events[i + 1..j];
      forall k | 0 <= k < |between|
        ensures between[k].now <= lease.expiresAt && (between[k].ReleaseAt? ==> between[k].token != lease.token)
      {
        var at := i + 1 + k;
        assert between[k] == events[at] && i < at < j;
        assert events[at].now <= events[j].now;
      }
      hide Proper;
      LeaseStands(Run(UNUSED, events[..i + 1], c), lease, between, c);
      assert events[..j] == events[..i + 1] + between;
      RunConcat(UNUSED, events[..i + 1], between, c);
      AdmissionTakesLease(Run(UNUSED, events[..j], c), events[j], c);
    }
  }

  /** Event `i` admitted a probe whose lease no release of its own token has ended by `now`. */
  ghost predicate Standing(events: seq<Event>, c: Limits, i: nat, now: nat)
    requires c.window.limit > 0
  {
    && i < |events| && Admits(Run(UNUSED, events[..i], c), events[i], c) && now <= events[i].now + c.leaseTtlMs
    && forall r :: i < r < |events| && events[r].ReleaseAt? && events[r].token == events[i].token ==> events[i].now + c.leaseTtlMs < events[r].now
  }

  /** A lease in the store is that of an admitted probe, not released while it ran. */
  lemma {:induction false} LeaseOrigin(events: seq<Event>, c: Limits) returns (i: nat)
    requires c.window.limit > 0 && Run(UNUSED, events, c).lease.Some?
    ensures i < |events| && Admits(Run(UNUSED, events[..i], c), events[i], c)
    ensures Run(UNUSED, events, c).lease == Some(Lease(events[i].token, events[i].now + c.leaseTtlMs))
    ensures forall r :: i < r < |events| && events[r].ReleaseAt? && events[r].token == events[i].token ==> events[i].now + c.leaseTtlMs < events[r].now
  {
    hide Try;
    var n := |events| - 1;
    var before, e := events[..n], events[n];
    var h := Run(UNUSED, before, c);
    assert forall k :: 0 <= k <= n ==> before[..k] == events[..k];
    if Admits(h, e, c) {
      AdmissionTakesLease(h, e, c);
      i := n;
    } else {
      assert Step(h, e, c).lease == h.lease;
      i := LeaseOrigin(before, c);
    }
  }

  /** A held lease is that of a probe whose lease stands. */
  lemma HolderStands(events: seq<Event>, c: Limits, token: Member, now: nat) returns (i: nat)
    requires c.window.limit > 0 && Proper(events + [AcquireAt(token, now)]) && Held(Run(UNUSED, events, c).lease, now)
    ensures Standing(events, c, i, now)
    ensures Run(UNUSED, events, c).lease == Some(Lease(events[i].token, events[i].now + c.leaseTtlMs))
  {
    hide Run, Admits, Step;
    var all := events + [AcquireAt(token, now)];
    assert forall k :: 0 <= k < |events| ==> all[k] == events[k];
    assert all[|events|].now == now;
    assert forall k :: 0 <= k < |events| ==> events[k].now <= now;
    i := LeaseOrigin(events, c);
  }

  /** The store says held exactly if such a lease stands. */
  lemma HeldExactly(events: seq<Event>, c: Limits, token: Member, now: nat)
    requires c.window.limit > 0 && Proper(events + [AcquireAt(token, now)])
    ensures Held(Run(UNUSED, events, c).lease, now) <==> exists i: nat :: Standing(events, c, i, now)
  {
    hide Run, Admits, Step;
    var all := events + [AcquireAt(token, now)];
    assert forall i :: 0 <= i < |events| ==> all[i] == events[i];
    assert all[|events|].now == now;
    assert forall i :: 0 <= i < |events| ==> events[i].now <= now;
    if Held(Run(UNUSED, events, c).lease, now) {
      var i := HolderStands(events, c, token, now);
    }
    forall i: nat | Standing(events, c, i, now)
      ensures Held(Run(UNUSED, events, c).lease, now)
    {
      StandingIsHeld(events, c, i, now);
    }
  }

  lemma StandingIsHeld(events: seq<Event>, c: Limits, i: nat, now: nat)
    requires c.window.limit > 0 && Standing(events, c, i, now) && forall k :: 0 <= k < |events| ==> events[k].now <= now
    ensures Held(Run(UNUSED, events, c).lease, now)
  {
    hide Run, Admits, Step;
    var h := Run(UNUSED, events[..i], c);
    var lease := Lease(events[i].token, events[i].now + c.leaseTtlMs);
    var rest := events[i + 1..];
    AdmissionTakesLease(h, events[i], c);
    RunNext(UNUSED, events, i, c);
    assert forall k :: 0 <= k < |rest| ==> rest[k] == events[i + 1 + k];
    LeaseStands(Run(UNUSED, events[..i + 1], c), lease, rest, c);
    RunConcat(UNUSED, events[..i + 1], rest, c);
    assert events == events[..i + 1] + rest;
  }

  /**
   What an acquire answers, from the history alone: a standing lease first, then
   the window, which is full exactly if it holds the limit of admitted probes.
   */
  lemma {:induction false} AcquireExactly(events: seq<Event>, c: Limits, token: Member, now: nat)
    requires c.window.limit > 0 && Proper(events + [AcquireAt(token, now)])
    ensures var a := Acquire(Run(UNUSED, events, c), token, now, c).1;
      var stands := exists i: nat :: Standing(events, c, i, now);
      var within := CountWithin(Starts(UNUSED, events, c), now - c.window.windowMs, now);
      && (a.LeaseHeld? <==> stands)
      && (a.LeaseHeld? ==> exists i: nat :: Standing(events, c, i, now) && a.ttlMs == events[i].now + c.leaseTtlMs - now)
      && (a.WindowFull? <==> !stands && within >= c.window.limit)
      && (a.Granted? <==> !stands && within < c.window.limit)
  {
    hide Run, Starts, Tokens, CountWithin, Tidy, Try, Standing, Proper;
    HeldExactly(events, c, token, now);
    TokensStep(events, AcquireAt(token, now));
    RunStaysTidy(events, c);
    var clock := if events == [] then 0 else events[|events| - 1].now;
    if Held(Run(UNUSED, events, c).lease, now) {
      var i := HolderStands(events, c, token, now);
    }
    AdmitsExactly(Run(UNUSED, events, c).window, Starts(UNUSED, events, c), Tokens(events), clock, token, now, c.window);
  }

  /** Once only the window refuses, a later call depends on the window alone. */
  lemma WindowDecides(h: Host, token: Member, now: nat, c: Limits, wait: nat)
    requires c.window.limit > 0 && Acquire(h, token, now, c).1.WindowFull?
    ensures var (h', a) := Acquire(h, token, now, c);
      var (z, reply) := Try(h.window, token, now, c.window);
      && reply == Denied(a.retryMs) && h'.window == z
      && (Acquire(h', token, now + wait, c).1 == Granted <==> Try(z, token, now + wait, c.window).1 == Admitted)
  {
    hide Try;
  }

  lemma DelayCoversRetry(a: Answer, c: Limits)
    requires a.WindowFull? && a.retryMs <= c.window.windowMs
    ensures a.retryMs <= RetryDelay(a, c)
  {
  }

  /** A refusal by a full window clears after exactly the retry value, and so after the clamped delay. */
  lemma {:induction false} DelaySuffices(events: seq<Event>, c: Limits, token: Member, now: nat, wait: nat)
    requires c.window.limit > 0 && Proper(events + [AcquireAt(token, now)])
    requires Acquire(Run(UNUSED, events, c), token, now, c).1.WindowFull?
    ensures var (h, a) := Acquire(Run(UNUSED, events, c), token, now, c);
      && (Acquire(h, token, now + wait, c).1 == Granted <==> a.retryMs <= wait)
      && Acquire(h, token, now + RetryDelay(a, c), c).1 == Granted
  {
    hide Run;
    hide Starts;
    hide Tokens;
    hide Proper;
    hide Tidy;
    hide Try;
    hide Acquire;
    hide RetryDelay;
    TokensStep(events, AcquireAt(token, now));
    RunStaysTidy(events, c);
    var h, starts := Run(UNUSED, events, c), Starts(UNUSED, events, c);
    var clock := if events == [] then 0 else events[|events| - 1].now;
    var delay := RetryDelay(Acquire(h, token, now, c).1, c);
    WindowDecides(h, token, now, c, wait);
    WindowDecides(h, token, now, c, delay);
    RetryIsExact(h.window, starts, Tokens(events), clock, token, now, c.window, wait);
    RetryIsExact(h.window, starts, Tokens(events), clock, token, now, c.window, delay);
    DelayCoversRetry(Acquire(h, token, now, c).1, c);
  }

  // ------------------------------------------------------------ the API limiter

  datatype Request = Request(nonce: Member, now: nat)

  /** The key's sorted set and the times of the requests let through. */
  function Limiter(requests: seq<Request>, c: Config): (Zset, seq<nat>)
    requires c.limit > 0
  {
    if requests == [] then (Zset([], 0), [])
    else
      var (z, times) := Limiter(requests[..|requests| - 1], c);
      var r := requests[|requests| - 1];
      var (z', reply) := Try(z, r.nonce, r.now, c);
      (z', if reply.Admitted? then times + [r.now] else times)
  }

  ghost predicate InOrder(requests: seq<Request>) {
    forall i, j :: 0 <= i < j < |requests| ==> requests[i].now <= requests[j].now
  }

  /** The clock does not go back and, unless the limit is 1, no nonce is used twice. */
  ghost predicate ProperRequests(requests: seq<Request>, c: Config) {
    && InOrder(requests)
    && (c.limit == 1 || forall i, j :: 0 <= i < j < |requests| ==> requests[i].nonce != requests[j].nonce)
  }

  ghost function Nonces(requests: seq<Request>): set<Member> {
    set i | 0 <= i < |requests| :: requests[i].nonce
  }

  lemma {:induction false} NoncesStep(requests: seq<Request>, r: Request, c: Config)
    requires ProperRequests(requests + [r], c)
    ensures ProperRequests(requests, c)
    ensures Nonces(requests + [r]) == Nonces(requests) + {r.nonce} && (r.nonce in Nonces(requests) ==> c.limit == 1)
    ensures requests != [] ==> requests[|requests| - 1].now <= r.now
  {
    var all := requests + [r];
    assert all[|requests|] == r;
    assert forall i :: 0 <= i < |requests| ==> all[i] == requests[i];
  }

  lemma {:induction false} LimiterStaysTidy(requests: seq<Request>, c: Config)
    requires c.limit > 0 && ProperRequests(requests, c)
    ensures Tidy(Limiter(requests, c).0, Limiter(requests, c).1, Nonces(requests),
                 if requests == [] then 0 else requests[|requests| - 1].now, c)
  {
    if requests != [] {
      var before, r := requests[..|requests| - 1], requests[|requests| - 1];
      assert requests == before + [r];
      NoncesStep(before, r, c);
      hide Nonces;
      hide ProperRequests;
      hide Tidy;
      LimiterStaysTidy(before, c);
      var clock := if before == [] then 0 else before[|before| - 1].now;
      var (z, times) := Limiter(before, c);
      TryKeepsTidy(z, times, Nonces(before), clock, r.nonce, r.now, c);
    }
  }

  lemma {:induction false} SecondsSuffice(z: Zset, times: seq<nat>, used: set<Member>, clock: nat, r: Request, c: Config)
    requires c.limit > 0 && Tidy(z, times, used, clock, c) && clock <= r.now
    ensures var (z', reply) := Try(z, r.nonce, r.now, c);
      reply.Denied? ==> Try(z', r.nonce, r.now + 1000 * RetryAfterSeconds(reply.retryMs), c).1 == Admitted
  {
    hide Tidy;
    hide Try;
    hide RetryAfterSeconds;
    var reply := Try(z, r.nonce, r.now, c).1;
    if reply.Denied? {
      RetryIsExact(z, times, used, clock, r.nonce, r.now, c, 1000 * RetryAfterSeconds(reply.retryMs));
      RetryAfterSuffices(reply.retryMs);
    }
  }

  /** Any window holds at most `limit` requests of a key, and a refused one may come back after Retry-After. */
  lemma {:induction false} LimiterHolds(requests: seq<Request>, c: Config, t: int, r: Request)
    requires c.limit > 0 && ProperRequests(requests + [r], c)
    ensures CountWithin(Limiter(requests, c).1, t - c.windowMs, t) <= c.limit
    ensures var (z, reply) := Try(Limiter(requests, c).0, r.nonce, r.now, c);
      reply.Denied? ==> Try(z, r.nonce, r.now + 1000 * RetryAfterSeconds(reply.retryMs), c).1 == Admitted
  {
    hide Limiter;
    hide ProperRequests;
    hide Nonces;
    hide Try;
    hide Ordered;
    hide Spaced;
    NoncesStep(requests, r, c);
    var clock := if requests == [] then 0 else requests[|requests| - 1].now;
    LimiterStaysTidy(requests, c);
    WindowHoldsLimit(Limiter(requests, c).1, c, t);
    hide Tidy;
    SecondsSuffice(Limiter(requests, c).0, Limiter(requests, c).1, Nonces(requests), clock, r, c);
  }

  /** A request is let through exactly if fewer than the limit were in the window that ends with it. */
  lemma {:induction false} LimiterExactly(requests: seq<Request>, c: Config, r: Request)
    requires c.limit > 0 && ProperRequests(requests + [r], c)
    ensures Try(Limiter(requests, c).0, r.nonce, r.now, c).1 == Admitted <==>
      CountWithin(Limiter(requests, c).1, r.now - c.windowMs, r.now) < c.limit
  {
    hide Limiter, Nonces, Try, CountWithin, Tidy;
    NoncesStep(requests, r, c);
    hide ProperRequests;
    LimiterStaysTidy(requests, c);
    var clock := if requests == [] then 0 else requests[|requests| - 1].now;
    AdmitsExactly(Limiter(requests, c).0, Limiter(requests, c).1, Nonces(requests), clock, r.nonce, r.now, c);
  }

  lemma {:induction false} LimiterStep(requests: seq<Request>, r: Request, c: Config)
    requires c.limit > 0
    ensures var (z, times) := Limiter(requests, c);
      var (z', reply) := Try(z, r.nonce, r.now, c);
      Limiter(requests + [r], c) == (z', if reply.Admitted? then times + [r.now] else times)
  {
    assert (requests + [r])[..|requests|] == requests;
  }

  /** Many requests at one instant, all with one nonce. */
  function Reusing(n: nat): seq<Request> {
    if n == 0 then [] else Reusing(n - 1) + [Request(1, 0)]
  }

  function Instants(n: nat): seq<nat> {
    if n == 0 then [] else Instants(n - 1) + [0]
  }

  /** Reusing a nonce overwrites its entry, so the set never fills. */
  lemma ReuseReplaces(z: Zset, c: Config)
    requires c.limit >= 2 && c.windowMs > 0
    requires z == Zset([], 0) || z == Zset([Hit(1, 0)], c.windowMs)
    ensures Try(z, 1, 0, c) == (Zset([Hit(1, 0)], c.windowMs), Admitted)
  {
    var kept := Evict(Live(z, 0), 0, c.windowMs);
    assert kept == z.hits;
    assert Drop(kept, 1) == [];
    assert Place([], Hit(1, 0)) == [Hit(1, 0)];
  }

  lemma {:induction false} ReusingInOrder(n: nat)
    ensures |Reusing(n)| == n && (forall i :: 0 <= i < n ==> Reusing(n)[i] == Request(1, 0)) && InOrder(Reusing(n))
  {
    if n > 0 { ReusingInOrder(n - 1); }
  }

  lemma {:induction false} InstantsWithin(n: nat, from: int)
    requires from < 0
    ensures CountWithin(Instants(n), from, 0) == n
  {
    if n > 0 {
      InstantsWithin(n - 1, from);
      assert Instants(n)[..|Instants(n)| - 1] == Instants(n - 1);
    }
  }

  lemma {:induction false} ReuseIsAdmitted(n: nat, c: Config)
    requires c.limit >= 2 && c.windowMs > 0
    ensures Limiter(Reusing(n), c).0 == if n == 0 then Zset([], 0) else Zset([Hit(1, 0)], c.windowMs)
    ensures Limiter(Reusing(n), c).1 == Instants(n)
  {
    hide Limiter, Try, Evict, Live, Place, Drop;
    NothingYet(c);
    if n > 0 {
      var z := Limiter(Reusing(n - 1), c).0;
      ReuseIsAdmitted(n - 1, c);
      ReuseReplaces(z, c);
      LimiterStep(Reusing(n - 1), Request(1, 0), c);
      var (z', reply) := Try(z, 1, 0, c);
      assert z' == Zset([Hit(1, 0)], c.windowMs) && reply == Admitted;
    }
  }

  lemma NothingYet(c: Config)
    requires c.limit > 0
    ensures Limiter([], c) == (Zset([], 0), [])
  {}

  lemma {:induction false} NothingWithinNothing(times: seq<nat>, t: int)
    ensures CountWithin(times, t, t) == 0
  {
    if times != [] { NothingWithinNothing(times[..|times| - 1], t); }
  }

  ghost predicate Overruns(requests: seq<Request>, t: int, c: Config)
    requires c.limit > 0
  {
    CountWithin(Limiter(requests, c).1, t - c.windowMs, t) > c.limit
  }

  /** What unique nonces are for: without them the limit holds of all requests exactly if it is 1 (or the window empty). */
  lemma NoncesMatter(c: Config)
    requires c.limit > 0
    ensures (forall requests, t :: InOrder(requests) ==> !Overruns(requests, t, c)) <==> c.limit == 1 || c.windowMs == 0
  {
    hide Overruns, InOrder;
    if c.limit >= 2 && c.windowMs > 0 {
      ReuseOverruns(c);
    } else {
      forall requests, t | InOrder(requests)
        ensures !Overruns(requests, t, c)
      {
        OneIsKept(requests, t, c);
      }
    }
  }

  /** One request more than the limit, all let through at once. */
  lemma ReuseOverruns(c: Config)
    requires c.limit >= 2 && c.windowMs > 0
    ensures InOrder(Reusing(c.limit + 1)) && Overruns(Reusing(c.limit + 1), 0, c)
  {
    hide Limiter, CountWithin, Reusing, Instants, InOrder;
    ReuseIsAdmitted(c.limit + 1, c);
    ReusingInOrder(c.limit + 1);
    InstantsWithin(c.limit + 1, 0 - c.windowMs);
  }

  lemma OneIsKept(requests: seq<Request>, t: int, c: Config)
    requires c.limit > 0 && (c.limit == 1 || c.windowMs == 0) && InOrder(requests)
    ensures !Overruns(requests, t, c)
  {
    hide Limiter, CountWithin, Nonces, InOrder, Ordered, Spaced, Recent;
    if c.windowMs == 0 {
      NothingWithinNothing(Limiter(requests, c).1, t);
    } else {
      LimiterStaysTidy(requests, c);
      WindowHoldsLimit(Limiter(requests, c).1, c, t);
    }
  }

  /** One host's keys, and the scripts as the statements they run. */
  class RedisHost {
    var lease: Option<Lease>
    var window: Zset

    function Contents(): Host
      reads this
    {
      Host(lease, window)
    }

    constructor ()
      ensures Contents() == UNUSED
    {
      lease, window := None, Zset([], 0);
    }

    /** ZREMRANGEBYSCORE, one lowest score after the other */
    static method EvictOld(hits: seq<Hit>, now: nat, windowMs: nat) returns (kept: seq<Hit>)
      ensures kept == Evict(hits, now, windowMs)
    {
      kept := hits;
      while kept != [] && kept[0].score + windowMs <= now
        invariant Evict(kept, now, windowMs) == Evict(hits, now, windowMs)
        decreases |kept|
      {
        kept := kept[1..];
      }
    }

    /** The window part of both scripts: evict, count, and refuse or add. */
    static method TryWindow(z: Zset, member: Member, now: nat, c: Config) returns (z': Zset, reply: Reply)
      requires c.limit > 0
      ensures (z', reply) == Try(z, member, now, c)
    {
      hide Evict, Place, Drop, Live, RetryAfter;
      var hits := EvictOld(Live(z, now), now, c.windowMs);
      if |hits| >= c.limit {
        return Zset(hits, z.expiresAt), Denied(RetryAfter(hits[0], now, c.windowMs));
      }
      return Zset(Place(Drop(hits, member), Hit(member, now)), now + c.windowMs), Admitted;
    }

    method AcquireScript(token: Member, now: nat, c: Limits) returns (a: Answer)
      requires c.window.limit > 0
      modifies this
      ensures (Contents(), a) == Acquire(old(Contents()), token, now, c)
    {
      hide Try;
      if lease.Some? && now <= lease.value.expiresAt { return LeaseHeld(lease.value.expiresAt - now); }
      var reply;
      window, reply := TryWindow(window, token, now, c.window);
      if reply.Denied? { return WindowFull(reply.retryMs); }
      lease := Some(Lease(token, now + c.leaseTtlMs));
      return Granted;
    }

    method ReleaseScript(token: Member, now: nat)
      modifies this`lease
      ensures Contents() == Release(old(Contents()), token, now)
    {
      if lease.Some? && now <= lease.value.expiresAt && lease.value.token == token { lease := None; }
    }
  }
}

/**
 The Redis sliding window that the API rate limit and the SMTP throttle share:
 a sorted set of admission times that is evicted, counted, and added to by one
 script. A key is gone once the clock passes its expiry.
 */
module SlidingWindow {
  /** Tokens and nonces, only ever compared for equality. */
  type Member = nat

  datatype Hit = Hit(member: Member, score: nat)

  /** A sorted set with its PEXPIRE deadline; lowest score first. */
  datatype Zset = Zset(hits: seq<Hit>, expiresAt: nat)

  datatype Config = Config(windowMs: nat, limit: nat)

  datatype Reply = Admitted | Denied(retryMs: nat)

  function Live(z: Zset, now: nat): seq<Hit> {
    if now > z.expiresAt then [] else z.hits
  }

  /** ZREMRANGEBYSCORE key 0 (now - windowMs): the lowest scores are a prefix. */
  function Evict(hits: seq<Hit>, now: nat, windowMs: nat): (r: seq<Hit>)
    ensures |r| <= |hits| && r == hits[|hits| - |r|..]
    ensures r != [] ==> now < r[0].score + windowMs
    ensures forall i :: 0 <= i < |hits| - |r| ==> hits[i].score + windowMs <= now
  {
    if hits != [] && hits[0].score + windowMs <= now then Evict(hits[1..], now, windowMs) else hits
  }

  /** ZADD: an existing member is moved, a new one put in score order. */
  function Place(hits: seq<Hit>, h: Hit): seq<Hit> {
    if hits == [] || h.score < hits[0].score then [h] + hits else [hits[0]] + Place(hits[1..], h)
  }

  function Drop(hits: seq<Hit>, member: Member): seq<Hit> {
    if hits == [] then []
    else (if hits[0].member == member then [] else [hits[0]]) + Drop(hits[1..], member)
  }

  /** max(1, oldest + windowMs - now) */
  function RetryAfter(oldest: Hit, now: nat, windowMs: nat): nat {
    if oldest.score + windowMs - now < 1 then 1 else oldest.score + windowMs - now
  }

  /** The script's window part, run at `now`. A limit of 0 has no oldest entry to report. */
  function Try(z: Zset, member: Member, now: nat, c: Config): (Zset, Reply)
    requires c.limit > 0
  {
    var kept := Evict(Live(z, now), now, c.windowMs);
    if |kept| >= c.limit then (Zset(kept, z.expiresAt), Denied(RetryAfter(kept[0], now, c.windowMs)))
    else (Zset(Place(Drop(kept, member), Hit(member, now)), now + c.windowMs), Admitted)
  }

  // -------------------------------------------- what the set knows of the past

  ghost predicate Ordered(times: seq<nat>) {
    forall i, j :: 0 <= i < j < |times| ==> times[i] <= times[j]
  }

  /** Of any limit + 1 admissions in a row, the last comes a window after the first. */
  ghost predicate Spaced(times: seq<nat>, c: Config) {
    forall i, j :: 0 <= i && i + c.limit <= j < |times| ==> times[i] + c.windowMs <= times[j]
  }

  function Scores(hits: seq<Hit>): (r: seq<nat>)
    ensures |r| == |hits|
  {
    seq(|hits|, i requires 0 <= i < |hits| => hits[i].score)
  }

  /** The hits are the latest admissions; every earlier one has left the window. */
  ghost predicate Recent(hits: seq<Hit>, times: seq<nat>, clock: nat, windowMs: nat) {
    && |hits| <= |times|
    && Scores(hits) == times[|times| - |hits|..]
    && (forall i :: 0 <= i < |times| - |hits| ==> times[i] + windowMs <= clock)
  }

  /** The set after admissions at `times`, of members among `used`, seen at `clock`. */
  ghost predicate Tidy(z: Zset, times: seq<nat>, used: set<Member>, clock: nat, c: Config) {
    && Ordered(times) && Spaced(times, c) && Recent(z.hits, times, clock, c.windowMs)
    && |z.hits| <= c.limit
    && (forall i :: 0 <= i < |times| ==> times[i] <= clock && times[i] + c.windowMs <= z.expiresAt)
    && (forall i :: 0 <= i < |z.hits| ==> z.hits[i].member in used)
  }

  /** Key expiry never drops an entry that is still in the window. */
  lemma ExpiryDropsNothing(z: Zset, times: seq<nat>, used: set<Member>, clock: nat, now: nat, c: Config)
    requires Tidy(z, times, used, clock, c) && clock <= now
    ensures Recent(Live(z, now), times, now, c.windowMs)
    ensures now > z.expiresAt ==> forall i :: 0 <= i < |z.hits| ==> z.hits[i].score + c.windowMs < now
  {
    forall i | 0 <= i < |z.hits|
      ensures z.hits[i].score + c.windowMs <= z.expiresAt
    {
      assert z.hits[i].score == Scores(z.hits)[i] == times[|times| - |z.hits| + i];
    }
  }

  lemma EvictKeepsRecent(hits: seq<Hit>, times: seq<nat>, now: nat, windowMs: nat)
    requires Recent(hits, times, now, windowMs)
    ensures Recent(Evict(hits, now, windowMs), times, now, windowMs)
  {
    var kept := Evict(hits, now, windowMs);
    var gone := |hits| - |kept|;
    assert Scores(kept) == Scores(hits)[gone..] == times[|times| - |kept|..];
    forall i | 0 <= i < |times| - |kept|
      ensures times[i] + windowMs <= now
    {
      var k := i - (|times| - |hits|);
      if k >= 0 { assert hits[k].score == Scores(hits)[k] == times[i]; }
    }
  }

  lemma {:induction false} NewMemberDropsNothing(hits: seq<Hit>, member: Member)
    requires forall i :: 0 <= i < |hits| ==> hits[i].member != member
    ensures Drop(hits, member) == hits
  {
    if hits != [] { NewMemberDropsNothing(hits[1..], member); }
  }

  lemma {:induction false} LatestGoesLast(hits: seq<Hit>, h: Hit)
    requires forall i :: 0 <= i < |hits| ==> hits[i].score <= h.score
    ensures Place(hits, h) == hits + [h]
  {
    if hits != [] { LatestGoesLast(hits[1..], h); }
  }

  /** Everything kept after eviction is within the window, so the limit spaces admissions out. */
  lemma AdmissionKeepsSpaced(kept: seq<Hit>, times: seq<nat>, now: nat, c: Config)
    requires Ordered(times) && Spaced(times, c) && Recent(kept, times, now, c.windowMs) && |kept| < c.limit
    ensures Spaced(times + [now], c)
  {
    var longer := times + [now];
    forall i, j | 0 <= i && i + c.limit <= j < |longer|
      ensures longer[i] + c.windowMs <= longer[j]
    {
      assert i < |times| && longer[i] == times[i];
      if j < |times| { assert longer[j] == times[j]; }
    }
  }

  /** What eviction leaves at `now`: the admissions still in the window. */
  lemma EvictionIsExact(z: Zset, times: seq<nat>, used: set<Member>, clock: nat, now: nat, c: Config)
    requires Tidy(z, times, used, clock, c) && clock <= now
    ensures var kept := Evict(Live(z, now), now, c.windowMs);
      && Recent(kept, times, now, c.windowMs) && |kept| <= c.limit
      && (forall i :: 0 <= i < |kept| ==> kept[i].member in used && kept[i].score <= now)
  {
    hide Spaced, Ordered, Recent, Evict;
    ExpiryDropsNothing(z, times, used, clock, now, c);
    var live := Live(z, now);
    var kept := Evict(live, now, c.windowMs);
    EvictKeepsRecent(live, times, now, c.windowMs);
    EvictionIsSuffix(live, now, c.windowMs);
    RecentScores(kept, times, now, c.windowMs);
    forall i | 0 <= i < |kept|
      ensures kept[i].member in used && kept[i].score <= now
    {
      assert kept[i] in live;
    }
  }

  lemma {:induction false} EvictionIsSuffix(hits: seq<Hit>, now: nat, windowMs: nat)
    ensures |Evict(hits, now, windowMs)| <= |hits|
    ensures forall h :: h in Evict(hits, now, windowMs) ==> h in hits
  {
    if hits != [] { EvictionIsSuffix(hits[1..], now, windowMs); }
  }

  lemma RecentScores(hits: seq<Hit>, times: seq<nat>, clock: nat, windowMs: nat)
    requires Recent(hits, times, clock, windowMs)
    ensures forall i :: 0 <= i < |hits| ==> hits[i].score in times
  {
    forall i | 0 <= i < |hits|
      ensures hits[i].score in times
    {
      assert hits[i].score == Scores(hits)[i] == times[|times| - |hits| + i];
    }
  }

  lemma AdmissionKeepsTidy(kept: seq<Hit>, times: seq<nat>, used: set<Member>, member: Member, now: nat, c: Config)
    requires Ordered(times) && Spaced(times, c) && Recent(kept, times, now, c.windowMs) && |kept| < c.limit
    requires member in used ==> c.limit == 1
    requires forall i :: 0 <= i < |kept| ==> kept[i].member in used && kept[i].score <= now
    requires forall i :: 0 <= i < |times| ==> times[i] <= now
    ensures Tidy(Zset(Place(Drop(kept, member), Hit(member, now)), now + c.windowMs), times + [now], used + {member}, now, c)
  {
    NewMemberDropsNothing(kept, member);
    LatestGoesLast(kept, Hit(member, now));
    AdmissionKeepsSpaced(kept, times, now, c);
    hide Spaced;
    hide Place;
    hide Drop;
    var hits, longer := kept + [Hit(member, now)], times + [now];
    assert Scores(hits) == Scores(kept) + [now] == longer[|longer| - |hits|..];
  }

  /** One call at a time no earlier than the last, with a fresh member unless the limit is 1. */
  lemma TryKeepsTidy(z: Zset, times: seq<nat>, used: set<Member>, clock: nat, member: Member, now: nat, c: Config)
    requires c.limit > 0 && Tidy(z, times, used, clock, c) && clock <= now && (member in used ==> c.limit == 1)
    ensures var (z', reply) := Try(z, member, now, c);
      Tidy(z', if reply.Admitted? then times + [now] else times, used + {member}, now, c)
  {
    hide Evict;
    hide Live;
    hide Place;
    hide Drop;
    EvictionIsExact(z, times, used, clock, now, c);
    var kept := Evict(Live(z, now), now, c.windowMs);
    if |kept| < c.limit { AdmissionKeepsTidy(kept, times, used, member, now, c); }
  }

  // ------------------------------------------------------ admissions per window

  /** How many of the times lie in (from, to]. */
  function CountWithin(times: seq<nat>, from: int, to: int): nat {
    if times == [] then 0
    else
      var t := times[|times| - 1];
      CountWithin(times[..|times| - 1], from, to) + (if from < t <= to then 1 else 0)
  }

  lemma {:induction false} CountAtMostLast(times: seq<nat>, from: int, to: int, n: nat)
    requires forall i :: 0 <= i < |times| - n ==> times[i] <= from
    ensures CountWithin(times, from, to) <= n
    decreases |times|
  {
    if times != [] {
      var init := times[..|times| - 1];
      CountAtMostLast(init, from, to, if n == 0 then 0 else n - 1);
      if n == 0 { assert times[|times| - 1] <= from; }
    }
  }

  /** Any window (t - windowMs, t] holds at most `limit` admissions. */
  lemma {:induction false} WindowHoldsLimit(times: seq<nat>, c: Config, t: int)
    requires c.limit > 0 && Ordered(times) && Spaced(times, c)
    ensures CountWithin(times, t - c.windowMs, t) <= c.limit
    decreases |times|
  {
    if times != [] {
      var last := times[|times| - 1];
      if last > t {
        var init := times[..|times| - 1];
        assert Ordered(init) && Spaced(init, c);
        WindowHoldsLimit(init, c, t);
      } else {
        forall i | 0 <= i < |times| - c.limit
          ensures times[i] <= t - c.windowMs
        {
          assert times[i] + c.windowMs <= times[i + c.limit];
          assert times[i + c.limit] <= last;
        }
        CountAtMostLast(times, t - c.windowMs, t, c.limit);
      }
    }
  }

  // ------------------------------------------------------------------- retries

  /** Of ordered times, the last `n` lie in the window and the earlier ones before it. */
  lemma {:induction false} CountIsLast(times: seq<nat>, from: int, to: int, n: nat)
    requires n <= |times|
    requires forall i :: 0 <= i < |times| - n ==> times[i] <= from
    requires forall i :: |times| - n <= i < |times| ==> from < times[i] <= to
    ensures CountWithin(times, from, to) == n
  {
    if times != [] {
      var init := times[..|times| - 1];
      CountIsLast(init, from, to, if n == 0 then 0 else n - 1);
      if n == 0 { assert times[|times| - 1] <= from; }
    }
  }

  /** What eviction leaves is as many as were admitted in the window. */
  lemma KeptAreCounted(z: Zset, times: seq<nat>, used: set<Member>, clock: nat, now: nat, c: Config)
    requires Tidy(z, times, used, clock, c) && clock <= now
    ensures |Evict(Live(z, now), now, c.windowMs)| == CountWithin(times, now - c.windowMs, now)
  {
    hide Spaced, Live, Evict;
    EvictionIsExact(z, times, used, clock, now, c);
    var kept := Evict(Live(z, now), now, c.windowMs);
    var first := |times| - |kept|;
    forall i | first <= i < |times|
      ensures now - c.windowMs < times[i] <= now
    {
      assert times[i] == Scores(kept)[i - first];
      assert times[first] == Scores(kept)[0] == kept[0].score;
    }
    CountIsLast(times, now - c.windowMs, now, |kept|);
  }

  /** A call is admitted exactly if fewer than the limit were admitted in the window that ends with it. */
  lemma AdmitsExactly(z: Zset, times: seq<nat>, used: set<Member>, clock: nat, member: Member, now: nat, c: Config)
    requires c.limit > 0 && Tidy(z, times, used, clock, c) && clock <= now
    ensures Try(z, member, now, c).1 == Admitted <==> CountWithin(times, now - c.windowMs, now) < c.limit
  {
    hide Tidy, Evict, Live, Place, Drop, CountWithin;
    KeptAreCounted(z, times, used, clock, now, c);
  }

  /** A full window lets the next call in exactly when its oldest entry has left. */
  lemma FullWindowReopens(hits: seq<Hit>, expiresAt: nat, later: nat, c: Config)
    requires c.limit > 0 && |hits| == c.limit && hits[0].score + c.windowMs <= expiresAt
    ensures |Evict(Live(Zset(hits, expiresAt), later), later, c.windowMs)| < c.limit <==> hits[0].score + c.windowMs <= later
  {
  }

  /** The retry value of a full window is the least wait after which the call would be admitted. */
  lemma RetryIsExact(z: Zset, times: seq<nat>, used: set<Member>, clock: nat, member: Member, now: nat, c: Config, wait: nat)
    requires c.limit > 0 && Tidy(z, times, used, clock, c) && clock <= now
    requires Try(z, member, now, c).1.Denied?
    ensures var (z', reply) := Try(z, member, now, c);
      && 1 <= reply.retryMs <= c.windowMs
      && (Try(z', member, now + wait, c).1 == Admitted <==> reply.retryMs <= wait)
  {
    hide Live;
    hide Place;
    hide Drop;
    EvictionIsExact(z, times, used, clock, now, c);
    var kept := Evict(Live(z, now), now, c.windowMs);
    assert |kept| == c.limit && kept[0].score == Scores(kept)[0] == times[|times| - |kept|];
    hide Evict;
    FullWindowReopens(kept, z.expiresAt, now + wait, c);
  }

  /** Retry-After: max(1, ceil(ms / 1000)) seconds */
  function RetryAfterSeconds(retryMs: nat): nat {
    var s := (retryMs + 999) / 1000;
    if s < 1 then 1 else s
  }

  /** Waiting the announced whole seconds is enough, and no whole second less would be. */
  lemma RetryAfterSuffices(retryMs: nat)
    requires retryMs >= 1
    ensures retryMs <= 1000 * RetryAfterSeconds(retryMs)
    ensures forall s: nat :: retryMs <= 1000 * s ==> RetryAfterSeconds(retryMs) <= s
  {
  }
}

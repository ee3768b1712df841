/**
 The engine client's circuit breaker and the retrying call it guards. Calls may
 overlap: a run is any list of acquisitions and reports.
 */
module CircuitBreaker {
  import opened Prelude

  datatype State = Closed | Open | HalfOpen

  datatype Breaker = Breaker(state: State, consecutiveFailures: nat, openedAt: nat, probeInFlight: bool)

  datatype Config = Config(failureThreshold: nat, openDurationMs: nat)

  /** A success, an eligible service failure, or an answer that says nothing about health. */
  datatype Outcome = Success | Failure | Neutral

  datatype Event = Acquire(now: nat) | Report(outcome: Outcome, now: nat)

  const FRESH := Breaker(Closed, 0, 0, false)

  predicate CoolingDown(b: Breaker, now: nat, c: Config) {
    b.state == Open && now - b.openedAt < c.openDurationMs
  }

  predicate Admits(b: Breaker, now: nat, c: Config) {
    !CoolingDown(b, now, c) && !(b.state == HalfOpen && b.probeInFlight)
  }

  function AfterAcquire(b: Breaker, now: nat, c: Config): Breaker {
    if CoolingDown(b, now, c) || b.state == Closed then b else b.(state := HalfOpen, probeInFlight := true)
  }

  function Tripped(b: Breaker, now: nat): Breaker {
    Breaker(Open, 0, now, false)
  }

  function AfterReport(b: Breaker, o: Outcome, now: nat, c: Config): Breaker {
    match o
    case Success => b.(state := Closed, consecutiveFailures := 0, probeInFlight := false)
    case Failure =>
      if b.state == HalfOpen || b.consecutiveFailures + 1 >= c.failureThreshold then Tripped(b, now)
      else b.(consecutiveFailures := b.consecutiveFailures + 1)
    case Neutral =>
      if b.state == HalfOpen then b.(state := Closed, consecutiveFailures := 0, probeInFlight := false) else b
  }

  function Step(b: Breaker, e: Event, c: Config): Breaker {
    match e
    case Acquire(now) => AfterAcquire(b, now, c)
    case Report(o, now) => AfterReport(b, o, now, c)
  }

  function Run(b: Breaker, events: seq<Event>, c: Config): Breaker {
    if events == [] then b else Step(Run(b, events[..|events| - 1], c), events[|events| - 1], c)
  }

  // -------------------------------------------------------- overlapping calls

  lemma RunNext(b: Breaker, events: seq<Event>, i: nat, c: Config)
    requires i < |events|
    ensures Run(b, events[..i + 1], c) == Step(Run(b, events[..i], c), events[i], c)
  {
    assert events[..i + 1][..i] == events[..i];
  }

  lemma {:induction false} HalfOpenIsTaken(events: seq<Event>, c: Config)
    ensures Run(FRESH, events, c).state == HalfOpen ==> Run(FRESH, events, c).probeInFlight
  {
    if events != [] { HalfOpenIsTaken(events[..|events| - 1], c); }
  }

  /** The state before event `i` of a run. */
  function Before(events: seq<Event>, i: nat, c: Config): Breaker
    requires i <= |events|
  {
    Run(FRESH, events[..i], c)
  }

  lemma {:induction false} HalfOpenLasts(events: seq<Event>, c: Config, i: nat, j: nat)
    requires i <= j <= |events| && Before(events, i, c).state == HalfOpen
    requires forall r :: i <= r < j ==> events[r].Acquire?
    ensures Before(events, j, c).state == HalfOpen
    decreases j
  {
    if i < j {
      HalfOpenLasts(events, c, i, j - 1);
      RunNext(FRESH, events, j - 1, c);
    }
  }

  /**
   In every run the circuit goes half-open only by admitting a call, and
   nothing else is admitted until an outcome is reported.
   */
  lemma {:induction false} OneProbe(events: seq<Event>, c: Config, i: nat)
    requires i < |events| && Before(events, i, c).state != HalfOpen && Before(events, i + 1, c).state == HalfOpen
    ensures events[i].Acquire? && Admits(Before(events, i, c), events[i].now, c)
    ensures forall j: nat :: i < j < |events| && (forall r :: i < r <= j ==> events[r].Acquire?) ==>
      !Admits(Before(events, j, c), events[j].now, c)
  {
    RunNext(FRESH, events, i, c);
    forall j: nat | i < j < |events| && forall r :: i < r <= j ==> events[r].Acquire?
      ensures !Admits(Before(events, j, c), events[j].now, c)
    {
      HalfOpenLasts(events, c, i + 1, j);
      HalfOpenIsTaken(events[..j], c);
    }
  }

  // --------------------------------------------------------- while it is open

  /** How many failures were reported after the last success; None without a success. */
  function SinceSuccess(events: seq<Event>): Option<nat> {
    if events == [] then None
    else
      var s, e := SinceSuccess(events[..|events| - 1]), events[|events| - 1];
      if e == Report(Success, e.now) then Some(0)
      else if e == Report(Failure, e.now) && s.Some? then Some(s.value + 1)
      else s
  }

  /** A success was reported, and not yet as many failures after it as open the circuit. */
  predicate ClosedAgain(events: seq<Event>, c: Config) {
    var s := SinceSuccess(events);
    s.Some? && (s.value == 0 || s.value < c.failureThreshold)
  }

  /** All dated within the cool-down that began at `openedAt` and still runs at `now`. */
  ghost predicate WithinSpell(events: seq<Event>, openedAt: nat, now: nat, c: Config) {
    && openedAt <= now < openedAt + c.openDurationMs
    && forall i :: 0 <= i < |events| ==> openedAt <= events[i].now <= now
  }

  /**
   Overlapping calls during one cool-down: an open breaker admits a call before
   the cool-down is over exactly if a late success closed it and too few late
   failures followed to open it again.
   */
  lemma {:induction false} OpenSpell(b: Breaker, events: seq<Event>, c: Config, now: nat)
    requires b.state == Open && WithinSpell(events, b.openedAt, now, c)
    ensures Admits(Run(b, events, c), now, c) <==> ClosedAgain(events, c)
    ensures var r := Run(b, events, c);
      if ClosedAgain(events, c) then r.state == Closed && r.consecutiveFailures == SinceSuccess(events).value
      else r.state == Open && b.openedAt <= r.openedAt <= now
  {
    if events != [] { OpenSpell(b, events[..|events| - 1], c, now); }
  }

  lemma {:induction false} RunConcat(b: Breaker, xs: seq<Event>, ys: seq<Event>, c: Config)
    ensures Run(b, xs + ys, c) == Run(Run(b, xs, c), ys, c)
  {
    if ys == [] {
      assert xs + ys == xs;
    } else {
      assert (xs + ys)[..|xs + ys| - 1] == xs + ys[..|ys| - 1];
      RunConcat(b, xs, ys[..|ys| - 1], c);
    }
  }

  /**
   In every run that has opened the circuit, a call made before the cool-down is
   over is admitted exactly under that condition, so never without a late success.
   */
  lemma {:induction false} CoolDownHolds(before: seq<Event>, after: seq<Event>, c: Config, i: nat)
    requires Run(FRESH, before, c).state == Open && i < |after| && after[i].Acquire?
    requires WithinSpell(after[..i], Run(FRESH, before, c).openedAt, after[i].now, c)
    ensures Admits(Run(FRESH, before + after[..i], c), after[i].now, c) <==> ClosedAgain(after[..i], c)
    ensures Admits(Run(FRESH, before + after[..i], c), after[i].now, c) ==>
      exists k :: 0 <= k < i && after[k] == Report(Success, after[k].now)
  {
    RunConcat(FRESH, before, after[..i], c);
    OpenSpell(Run(FRESH, before, c), after[..i], c, after[i].now);
    if ClosedAgain(after[..i], c) {
      var k := SuccessReported(after[..i]);
      assert after[k] == after[..i][k];
    }
  }

  lemma {:induction false} SuccessReported(events: seq<Event>) returns (k: nat)
    requires SinceSuccess(events).Some?
    ensures k < |events| && events[k] == Report(Success, events[k].now)
  {
    var last := |events| - 1;
    if events[last] == Report(Success, events[last].now) {
      k := last;
    } else {
      k := SuccessReported(events[..last]);
    }
  }

  // ---------------------------------------------------- calls one after another

  datatype Call = Call(start: nat, end: nat, outcome: Outcome)

  /** A call reports only if it was admitted. */
  function AfterCall(b: Breaker, call: Call, c: Config): Breaker {
    if Admits(b, call.start, c) then AfterReport(AfterAcquire(b, call.start, c), call.outcome, call.end, c)
    else AfterAcquire(b, call.start, c)
  }

  /** The simple view: how many failures count against the engine, and when the last one ended. */
  datatype Streak = Streak(failures: nat, lastAt: nat)

  predicate Blocks(s: Streak, now: nat, c: Config) {
    s.failures == c.failureThreshold && now - s.lastAt < c.openDurationMs
  }

  function CountCall(s: Streak, call: Call, c: Config): Streak {
    if Blocks(s, call.start, c) then s
    else
      match call.outcome
      case Success => Streak(0, s.lastAt)
      case Failure => Streak(if s.failures < c.failureThreshold then s.failures + 1 else s.failures, call.end)
      case Neutral => if s.failures == c.failureThreshold then Streak(0, s.lastAt) else s
  }

  ghost predicate Matches(b: Breaker, s: Streak, c: Config) {
    if s.failures == c.failureThreshold then b.state == Open && b.openedAt == s.lastAt && b.consecutiveFailures == 0
    else s.failures < c.failureThreshold && b.state == Closed && b.consecutiveFailures == s.failures
  }

  function RunCalls(b: Breaker, calls: seq<Call>, c: Config): Breaker {
    if calls == [] then b else AfterCall(RunCalls(b, calls[..|calls| - 1], c), calls[|calls| - 1], c)
  }

  function CountCalls(calls: seq<Call>, c: Config): Streak {
    if calls == [] then Streak(0, 0) else CountCall(CountCalls(calls[..|calls| - 1], c), calls[|calls| - 1], c)
  }

  /** Without overlap the four fields are the streak: the breaker refuses exactly when the streak blocks. */
  lemma {:induction false} BreakerIsStreak(calls: seq<Call>, c: Config, now: nat)
    requires c.failureThreshold > 0
    ensures Matches(RunCalls(FRESH, calls, c), CountCalls(calls, c), c)
    ensures Admits(RunCalls(FRESH, calls, c), now, c) <==> !Blocks(CountCalls(calls, c), now, c)
  {
    if calls != [] {
      var last := calls[|calls| - 1];
      BreakerIsStreak(calls[..|calls| - 1], c, last.start);
    }
  }

  /** `n` failed calls in a row, each admitted and then over by `end`. */
  ghost predicate FailedInARow(calls: seq<Call>, n: nat, c: Config) {
    n <= |calls| && forall i :: |calls| - n <= i < |calls| ==>
      calls[i].outcome == Failure && Admits(RunCalls(FRESH, calls[..i], c), calls[i].start, c)
  }

  lemma {:induction false} FailuresAddUp(calls: seq<Call>, n: nat, c: Config)
    requires c.failureThreshold > 0 && FailedInARow(calls, n, c)
    ensures n > 0 ==> CountCalls(calls, c).lastAt == calls[|calls| - 1].end
    ensures n <= CountCalls(calls, c).failures || CountCalls(calls, c).failures == c.failureThreshold
    decreases n
  {
    if n > 0 {
      var init := calls[..|calls| - 1];
      assert forall i :: 0 <= i < |init| ==> calls[..i] == init[..i];
      FailuresAddUp(init, n - 1, c);
      BreakerIsStreak(init, c, calls[|calls| - 1].start);
    }
  }

  /**
   With calls one after another, nothing is admitted for openDurationMs after
   the threshold-th consecutive eligible failure.
   */
  lemma {:induction false} OpenAfterThreshold(calls: seq<Call>, c: Config, now: nat)
    requires c.failureThreshold > 0 && FailedInARow(calls, c.failureThreshold, c)
    ensures now < calls[|calls| - 1].end + c.openDurationMs ==> !Admits(RunCalls(FRESH, calls, c), now, c)
    ensures now >= calls[|calls| - 1].end + c.openDurationMs ==> Admits(RunCalls(FRESH, calls, c), now, c)
  {
    FailuresAddUp(calls, c.failureThreshold, c);
    BreakerIsStreak(calls, c, now);
  }

  /** A late report can close the circuit early when calls overlap: the least run of that kind. */
  lemma LateReportCloses()
    ensures var c := Config(1, 1000);
      var b := Run(FRESH, [Acquire(0), Acquire(0), Report(Failure, 1), Report(Success, 2)], c);
      b.state == Closed && Admits(b, 3, c)
  {
    var c := Config(1, 1000);
    var none: seq<Event> := [];
    var one := none + [Acquire(0)];
    var two := one + [Acquire(0)];
    var three := two + [Report(Failure, 1)];
    RunAppend(none, Acquire(0), c);
    RunAppend(one, Acquire(0), c);
    RunAppend(two, Report(Failure, 1), c);
    RunAppend(three, Report(Success, 2), c);
    assert three + [Report(Success, 2)] == [Acquire(0), Acquire(0), Report(Failure, 1), Report(Success, 2)];
  }

  lemma {:induction false} RunAppend(events: seq<Event>, e: Event, c: Config)
    ensures Run(FRESH, events + [e], c) == Step(Run(FRESH, events, c), e, c)
  {
    assert (events + [e])[..|events|] == events;
  }

  /** The breaker object, which also remembers what it was told. */
  class Switch {
    const config: Config
    var state: State
    var consecutiveFailures: nat
    var openedAt: nat
    var probeInFlight: bool
    ghost var log: seq<Event>

    function Contents(): Breaker
      reads this
    {
      Breaker(state, consecutiveFailures, openedAt, probeInFlight)
    }

    constructor (c: Config)
      ensures Contents() == FRESH && config == c && log == []
    {
      config, state, consecutiveFailures, openedAt, probeInFlight := c, Closed, 0, 0, false;
      log := [];
    }

    method TryAcquire(now: nat) returns (admitted: bool)
      modifies this
      ensures Contents() == AfterAcquire(old(Contents()), now, config)
      ensures admitted == Admits(old(Contents()), now, config) && log == old(log) + [Acquire(now)]
    {
      log := log + [Acquire(now)];
      if state == Open {
        if now - openedAt < config.openDurationMs { return false; }
        state, probeInFlight := HalfOpen, false;
      }
      if state == HalfOpen {
        if probeInFlight { return false; }
        probeInFlight := true;
      }
      return true;
    }

    method RecordSuccess(now: nat)
      modifies this
      ensures Contents() == AfterReport(old(Contents()), Success, now, config) && log == old(log) + [Report(Success, now)]
    {
      log := log + [Report(Success, now)];
      state, consecutiveFailures, probeInFlight := Closed, 0, false;
    }

    method RecordFailure(now: nat)
      modifies this
      ensures Contents() == AfterReport(old(Contents()), Failure, now, config) && log == old(log) + [Report(Failure, now)]
    {
      log := log + [Report(Failure, now)];
      if state == HalfOpen {
        state, openedAt, consecutiveFailures, probeInFlight := Open, now, 0, false;
        return;
      }
      consecutiveFailures := consecutiveFailures + 1;
      if consecutiveFailures >= config.failureThreshold {
        state, openedAt, consecutiveFailures, probeInFlight := Open, now, 0, false;
      }
    }

    method RecordNeutral(now: nat)
      modifies this
      ensures Contents() == AfterReport(old(Contents()), Neutral, now, config) && log == old(log) + [Report(Neutral, now)]
    {
      log := log + [Report(Neutral, now)];
      if state == HalfOpen { state, consecutiveFailures, probeInFlight := Closed, 0, false; }
    }
  }

  // ------------------------------------------------------------ the engine call

  datatype Body = Contract | NotJson | WrongShape

  datatype Transport = TimedOut | NetworkError | Response(status: nat, body: Body)

  datatype Attempt = Ok | ClientError(status: nat) | Timeout | Network | ServerError(status: nat) | ContractError

  datatype Verified = Answered | Refused(status: nat) | CircuitOpen | Unavailable(last: Attempt)

  const MAX_ATTEMPTS: nat := 3

  /** attemptOnce */
  function Classify(t: Transport): Attempt {
    match t
    case TimedOut => Timeout
    case NetworkError => Network
    case Response(status, body) =>
      if status >= 500 then ServerError(status)
      else if status >= 400 then ClientError(status)
      else if body == Contract then Ok
      else ContractError
  }

  predicate Retryable(a: Attempt) {
    a.Network? || a.ServerError?
  }

  /** Worth another attempt: the connection failed, or the engine answered with a server error. */
  ghost predicate Transient(t: Transport) {
    t == NetworkError || (t.Response? && t.status >= 500)
  }

  /** What the caller and the breaker learn from the attempt that decides. */
  ghost predicate Concludes(t: Transport, r: Verified, o: Outcome) {
    match t
    case TimedOut => r == Unavailable(Timeout) && o == Failure
    case NetworkError => r == Unavailable(Network) && o == Failure
    case Response(status, body) =>
      if status >= 500 then r == Unavailable(ServerError(status)) && o == Failure
      else if status >= 400 then r == Refused(status) && o == Neutral
      else if body == Contract then r == Answered && o == Success
      else r == Unavailable(ContractError) && o == Failure
  }

  /**
   At most three transport calls, only transient failures retried, the last
   attempt decides; an admitted call reports once, a refused one does no I/O.
   */
  method Verify(breaker: Switch, transport: nat -> Transport, start: nat, end: nat) returns (r: Verified, attempts: nat)
    modifies breaker
    ensures var admitted := Admits(old(breaker.Contents()), start, breaker.config);
      if !admitted then
        r == CircuitOpen && attempts == 0 && breaker.log == old(breaker.log) + [Acquire(start)]
      else
        && 1 <= attempts <= 3
        && (forall k :: 0 <= k < attempts - 1 ==> Transient(transport(k)))
        && (attempts < 3 ==> !Transient(transport(attempts - 1)))
        && exists o :: Concludes(transport(attempts - 1), r, o)
             && breaker.log == old(breaker.log) + [Acquire(start), Report(o, end)]
             && breaker.Contents() == AfterCall(old(breaker.Contents()), Call(start, end, o), breaker.config)
  {
    attempts := 0;
    var admitted := breaker.TryAcquire(start);
    if !admitted { return CircuitOpen, 0; }
    var last := Timeout;
    while attempts < MAX_ATTEMPTS
      invariant attempts < MAX_ATTEMPTS && breaker.log == old(breaker.log) + [Acquire(start)]
      invariant breaker.Contents() == AfterAcquire(old(breaker.Contents()), start, breaker.config)
      invariant forall k :: 0 <= k < attempts ==> Retryable(Classify(transport(k)))
    {
      attempts := attempts + 1;
      last := Classify(transport(attempts - 1));
      if last.Ok? {
        assert Concludes(transport(attempts - 1), Answered, Success);
        breaker.RecordSuccess(end);
        return Answered, attempts;
      }
      if last.ClientError? {
        assert Concludes(transport(attempts - 1), Refused(last.status), Neutral);
        breaker.RecordNeutral(end);
        return Refused(last.status), attempts;
      }
      if !Retryable(last) || attempts >= MAX_ATTEMPTS { break; }
    }
    assert Concludes(transport(attempts - 1), Unavailable(last), Failure);
    breaker.RecordFailure(end);
    return Unavailable(last), attempts;
  }
}

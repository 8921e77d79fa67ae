/** Check, compare the key, then record: many login and API requests share the
    limiter, and a request may be anywhere between its check and its record. */
module LoginProtocol {
  import opened RateLimit

  datatype Step =
    | Begin(ip: Ip, at: Instant)      // check
    | Fail(ip: Ip, at: Instant)       // wrong key: record_failure
    | Succeed(ip: Ip, at: Instant)    // right key on the login form: record_success
    | Leave(ip: Ip, at: Instant)      // right key on the API, no key at all, or dropped: nothing recorded

  /** `flight` counts the requests past their check that have recorded nothing yet. */
  datatype State = State(log: seq<Event>, flight: map<Ip, nat>, clock: Instant)

  const START: State := State([], map[], 0)

  function Flight(s: State, ip: Ip): nat {
    if ip in s.flight then s.flight[ip] else 0
  }

  /** What the limiter holds for an address. */
  function Deque(s: State, ip: Ip): seq<Instant> {
    Queue(Replay(s.log), ip)
  }

  predicate Enabled(s: State, st: Step) {
    s.clock <= st.at && (st.Begin? || Flight(s, st.ip) > 0)
  }

  /** The limiter's verdict on a check at this moment. */
  predicate Admits(s: State, ip: Ip, now: Instant) {
    |Drained(Deque(s, ip), now)| < MAX_FAILURES
  }

  function Next(s: State, st: Step): State
    requires Enabled(s, st)
  {
    match st
    case Begin(ip, now) =>
      State(s.log + [Check(ip, now)], if Admits(s, ip, now) then s.flight[ip := Flight(s, ip) + 1] else s.flight, now)
    case Fail(ip, now) => State(s.log + [Failure(ip, now)], s.flight[ip := Flight(s, ip) - 1], now)
    case Succeed(ip, now) => State(s.log + [Success(ip, now)], s.flight[ip := Flight(s, ip) - 1], now)
    case Leave(ip, now) => State(s.log, s.flight[ip := Flight(s, ip) - 1], now)
  }

  /** A run in which at most `k` requests from the address are in flight at once. */
  ghost predicate Run(steps: seq<Step>, ip: Ip, k: nat)
    decreases |steps|, 0
  {
    steps == [] ||
    var front := steps[..|steps| - 1];
    Run(front, ip, k) && Enabled(After(front, ip, k), steps[|steps| - 1])
    && Flight(Next(After(front, ip, k), steps[|steps| - 1]), ip) <= k
  }

  ghost function After(steps: seq<Step>, ip: Ip, k: nat): State
    requires Run(steps, ip, k)
    decreases |steps|, 1
  {
    if steps == [] then START else Next(After(steps[..|steps| - 1], ip, k), steps[|steps| - 1])
  }

  lemma {:induction false} LogIsMonotone(steps: seq<Step>, ip: Ip, k: nat)
    requires Run(steps, ip, k)
    ensures Monotone(After(steps, ip, k).log)
    ensures forall i :: 0 <= i < |After(steps, ip, k).log| ==>
              After(steps, ip, k).log[i].at <= After(steps, ip, k).clock
    decreases |steps|
  {
    if steps != [] {
      LogIsMonotone(steps[..|steps| - 1], ip, k);
    }
  }

  /** In every run, a check is let through exactly when fewer than five failures since the address's
      last success are less than five minutes old. */
  lemma {:induction false} AdmitsExactly(steps: seq<Step>, ip: Ip, k: nat, now: Instant)
    requires Run(steps, ip, k) && After(steps, ip, k).clock <= now
    ensures Admits(After(steps, ip, k), ip, now)
            <==> |Live(SinceSuccess(After(steps, ip, k).log, ip), now)| < 5
  {
    LogIsMonotone(steps, ip, k);
    LimiterRefinesHistory(After(steps, ip, k).log, ip, now);
  }

  lemma {:induction false} ReplaySnoc(log: seq<Event>, e: Event)
    ensures Replay(log + [e]) == Apply(Replay(log), e)
  {
    assert (log + [e])[..|log|] == log;
  }

  lemma {:induction false} DrainedShrinks(q: seq<Instant>, now: Instant)
    ensures |Drained(q, now)| <= |q|
    decreases |q|
  {
    if q != [] {
      DrainedShrinks(q[1..], now);
    }
  }

  lemma {:induction false} StepBound(s: State, st: Step, ip: Ip, k: nat)
    requires Enabled(s, st) && Flight(Next(s, st), ip) <= k
    requires |Deque(s, ip)| + Flight(s, ip) <= MAX_FAILURES - 1 + k
    ensures |Deque(Next(s, st), ip)| + Flight(Next(s, st), ip) <= MAX_FAILURES - 1 + k
  {
    DrainedShrinks(Deque(s, ip), st.at);
    match st
    case Begin(i, now) => ReplaySnoc(s.log, Check(i, now));
    case Fail(i, now) => ReplaySnoc(s.log, Failure(i, now));
    case Succeed(i, now) => ReplaySnoc(s.log, Success(i, now));
    case Leave(_, _) =>
  }

  /** At every moment the recorded failures and the requests in flight together
      never exceed four more than `k`. */
  lemma {:induction false} DequeBound(steps: seq<Step>, ip: Ip, k: nat)
    requires Run(steps, ip, k)
    ensures |Deque(After(steps, ip, k), ip)| + Flight(After(steps, ip, k), ip) <= 4 + k
    decreases |steps|
  {
    if steps != [] {
      DequeBound(steps[..|steps| - 1], ip, k);
      StepBound(After(steps[..|steps| - 1], ip, k), steps[|steps| - 1], ip, k);
    }
  }

  // ----- Any span shorter than the window -----

  /** The times of the address's failures in a stretch of the log. */
  function FailureTimes(log: seq<Event>, ip: Ip): seq<Instant> {
    if log == [] then []
    else
      var earlier := FailureTimes(log[..|log| - 1], ip);
      var e := log[|log| - 1];
      if e.Failure? && e.ip == ip then earlier + [e.at] else earlier
  }

  predicate NoSuccess(log: seq<Event>, ip: Ip) {
    forall i :: 0 <= i < |log| ==> !(log[i].Success? && log[i].ip == ip)
  }

  lemma {:induction false} SinceSuccessSplits(a: seq<Event>, b: seq<Event>, ip: Ip)
    requires NoSuccess(b, ip)
    ensures SinceSuccess(a + b, ip) == SinceSuccess(a, ip) + FailureTimes(b, ip)
    decreases |b|
  {
    if b == [] {
      assert a + b == a;
    } else {
      assert (a + b)[..|a + b| - 1] == a + b[..|b| - 1];
      SinceSuccessSplits(a, b[..|b| - 1], ip);
    }
  }

  lemma {:induction false} FailureTimesWithin(log: seq<Event>, ip: Ip, now: Instant)
    requires forall i :: 0 <= i < |log| ==> log[i].at <= now && now - log[i].at < WINDOW
    ensures forall i :: 0 <= i < |FailureTimes(log, ip)| ==> Age(now, FailureTimes(log, ip)[i]) < WINDOW
    decreases |log|
  {
    if log != [] {
      FailureTimesWithin(log[..|log| - 1], ip, now);
    }
  }

  /** The log of a run grows along it, so each prefix of the log is the log of a prefix. */
  lemma {:induction false} PrefixRun(steps: seq<Step>, ip: Ip, k: nat, n: nat) returns (m: nat)
    requires Run(steps, ip, k) && n <= |After(steps, ip, k).log|
    ensures m <= |steps| && Run(steps[..m], ip, k) && After(steps[..m], ip, k).log == After(steps, ip, k).log[..n]
    decreases |steps|
  {
    if n == |After(steps, ip, k).log| {
      m := |steps|;
      assert steps[..m] == steps;
    } else {
      var front := steps[..|steps| - 1];
      m := PrefixRun(front, ip, k, n);
      assert front[..m] == steps[..m];
    }
  }

  /** Recent failures with no success after them are all still in the deque. */
  lemma {:induction false} RecentAreKept(a: seq<Event>, b: seq<Event>, ip: Ip, now: Instant)
    requires Monotone(a + b) && Clock(a + b) <= now && NoSuccess(b, ip)
    requires forall i :: 0 <= i < |b| ==> b[i].at <= now && now - b[i].at < WINDOW
    ensures |FailureTimes(b, ip)| <= |Queue(Replay(a + b), ip)|
  {
    ReplayIsFaithful(a + b, ip);
    FaithfulIsLive(Queue(Replay(a + b), ip), SinceSuccess(a + b, ip), Clock(a + b), now);
    SinceSuccessSplits(a, b, ip);
    FailureTimesWithin(b, ip, now);
    LiveAppend(SinceSuccess(a, ip), FailureTimes(b, ip), now);
    LiveAll(FailureTimes(b, ip), now);
    LiveShrinks(Queue(Replay(a + b), ip), now);
  }

  lemma {:induction false} StretchIsKept(log: seq<Event>, i: nat, j: nat, ip: Ip)
    requires Monotone(log) && i < j <= |log| && NoSuccess(log[i..j], ip)
    requires log[j - 1].at < log[i].at + WINDOW
    ensures |FailureTimes(log[i..j], ip)| <= |Queue(Replay(log[..j]), ip)|
  {
    StretchEnds(log, i, j);
    forall x | 0 <= x < j - i ensures log[i].at <= log[i..j][x].at <= log[j - 1].at {
      StretchIsRecent(log, i, j, x);
    }
    RecentAreKept(log[..i], log[i..j], ip, log[j - 1].at);
  }

  lemma {:induction false} StretchEnds(log: seq<Event>, i: nat, j: nat)
    requires Monotone(log) && i < j <= |log|
    ensures log[..j] == log[..i] + log[i..j] && Monotone(log[..j]) && Clock(log[..j]) == log[j - 1].at
  {
  }

  lemma {:induction false} StretchIsRecent(log: seq<Event>, i: nat, j: nat, x: nat)
    requires Monotone(log) && i + x < j <= |log|
    ensures log[i].at <= log[i..j][x].at <= log[j - 1].at
  {
    assert log[i..j][x] == log[i + x];
  }

  /** Between two login successes, no span shorter than the window holds more than
      four plus `k` recorded failures of an address: five when attempts are
      sequential.  This holds of every stretch of the log of every run. */
  lemma {:induction false} SpanBound(steps: seq<Step>, ip: Ip, k: nat, i: nat, j: nat)
    requires Run(steps, ip, k)
    requires i < j <= |After(steps, ip, k).log|
    requires NoSuccess(After(steps, ip, k).log[i..j], ip)
    requires After(steps, ip, k).log[j - 1].at < After(steps, ip, k).log[i].at + 300_000_000_000
    ensures |FailureTimes(After(steps, ip, k).log[i..j], ip)| <= 4 + k
  {
    var log := After(steps, ip, k).log;
    LogIsMonotone(steps, ip, k);
    var m := PrefixRun(steps, ip, k, j);
    DequeBound(steps[..m], ip, k);
    StretchIsKept(log, i, j, ip);
  }

  lemma {:induction false} LiveShrinks(times: seq<Instant>, now: Instant)
    ensures |Live(times, now)| <= |times|
    decreases |times|
  {
    if times != [] {
      LiveShrinks(times[1..], now);
    }
  }

  // ----- The bound is reached -----

  /** One attempt after the other, each with a wrong key. */
  function Attempts(ip: Ip, n: nat): seq<Step> {
    if n == 0 then [] else Attempts(ip, n - 1) + [Begin(ip, 0)] + [Fail(ip, 0)]
  }

  /** Four of them, and then `n` at once pass their check. */
  function Burst(ip: Ip, n: nat): seq<Step> {
    if n == 0 then Attempts(ip, MAX_FAILURES - 1) else Burst(ip, n - 1) + [Begin(ip, 0)]
  }

  /** Of these `k`, `n` have had their wrong key recorded. */
  function BurstFails(ip: Ip, k: nat, n: nat): seq<Step> {
    if n == 0 then Burst(ip, k) else BurstFails(ip, k, n - 1) + [Fail(ip, 0)]
  }

  /** So many failures recorded, all at the same instant and no success, and so many in flight. */
  ghost predicate At(s: State, ip: Ip, failures: nat, flight: nat) {
    && s.clock == 0 && Flight(s, ip) == flight
    && |Deque(s, ip)| == failures && (forall i :: 0 <= i < failures ==> Deque(s, ip)[i] == 0)
    && |FailureTimes(s.log, ip)| == failures && NoSuccess(s.log, ip)
    && (forall i :: 0 <= i < |s.log| ==> s.log[i].at == 0)
  }

  lemma {:induction false} Then(steps: seq<Step>, st: Step, ip: Ip, k: nat)
    requires Run(steps, ip, k) && Enabled(After(steps, ip, k), st)
    requires Flight(Next(After(steps, ip, k), st), ip) <= k
    ensures Run(steps + [st], ip, k) && After(steps + [st], ip, k) == Next(After(steps, ip, k), st)
  {
    assert (steps + [st])[..|steps|] == steps;
  }

  lemma {:induction false} BeginsAt(s: State, ip: Ip, failures: nat, flight: nat)
    requires At(s, ip, failures, flight) && failures < MAX_FAILURES
    ensures Enabled(s, Begin(ip, 0)) && At(Next(s, Begin(ip, 0)), ip, failures, flight + 1)
  {
    var e := Check(ip, 0);
    ReplaySnoc(s.log, e);
    assert (s.log + [e])[..|s.log|] == s.log;
  }

  lemma {:induction false} FailsAt(s: State, ip: Ip, failures: nat, flight: nat)
    requires At(s, ip, failures, flight) && flight > 0
    ensures Enabled(s, Fail(ip, 0)) && At(Next(s, Fail(ip, 0)), ip, failures + 1, flight - 1)
  {
    var e := Failure(ip, 0);
    ReplaySnoc(s.log, e);
    assert (s.log + [e])[..|s.log|] == s.log;
  }

  /** One more attempt. */
  lemma {:induction false} AttemptNext(steps: seq<Step>, ip: Ip, k: nat, n: nat)
    requires Run(steps, ip, k) && At(After(steps, ip, k), ip, n, 0) && n < MAX_FAILURES && k >= 1
    ensures Run(steps + [Begin(ip, 0)] + [Fail(ip, 0)], ip, k)
    ensures At(After(steps + [Begin(ip, 0)] + [Fail(ip, 0)], ip, k), ip, n + 1, 0)
  {
    BeginsAt(After(steps, ip, k), ip, n, 0);
    Then(steps, Begin(ip, 0), ip, k);
    FailsAt(After(steps + [Begin(ip, 0)], ip, k), ip, n, 1);
    Then(steps + [Begin(ip, 0)], Fail(ip, 0), ip, k);
  }

  lemma {:induction false} AttemptsRun(ip: Ip, k: nat, n: nat)
    requires n < MAX_FAILURES && k >= 1
    ensures Run(Attempts(ip, n), ip, k) && At(After(Attempts(ip, n), ip, k), ip, n, 0)
  {
    if n > 0 {
      AttemptsRun(ip, k, n - 1);
      AttemptNext(Attempts(ip, n - 1), ip, k, n - 1);
    }
  }

  lemma {:induction false} BurstRun(ip: Ip, k: nat, n: nat)
    requires n <= k && k >= 1
    ensures Run(Burst(ip, n), ip, k) && At(After(Burst(ip, n), ip, k), ip, MAX_FAILURES - 1, n)
  {
    if n == 0 {
      AttemptsRun(ip, k, MAX_FAILURES - 1);
    } else {
      BurstRun(ip, k, n - 1);
      BeginsAt(After(Burst(ip, n - 1), ip, k), ip, MAX_FAILURES - 1, n - 1);
      Then(Burst(ip, n - 1), Begin(ip, 0), ip, k);
    }
  }

  lemma {:induction false} BurstFailsRun(ip: Ip, k: nat, n: nat)
    requires n <= k && k >= 1
    ensures Run(BurstFails(ip, k, n), ip, k)
    ensures At(After(BurstFails(ip, k, n), ip, k), ip, MAX_FAILURES - 1 + n, k - n)
  {
    if n == 0 {
      BurstRun(ip, k, k);
    } else {
      BurstFailsRun(ip, k, n - 1);
      FailsAt(After(BurstFails(ip, k, n - 1), ip, k), ip, MAX_FAILURES - 2 + n, k - n + 1);
      Then(BurstFails(ip, k, n - 1), Fail(ip, 0), ip, k);
    }
  }

  /** For every k the bound is reached: four sequential attempts and then k at once give a span
      shorter than the window with exactly 4 + k recorded failures. */
  lemma {:induction false} SpanBoundIsReached(ip: Ip, k: nat)
    requires k >= 1
    ensures Run(BurstFails(ip, k, k), ip, k)
    ensures var log := After(BurstFails(ip, k, k), ip, k).log;
            && 0 < |log| && NoSuccess(log[0..|log|], ip) && log[|log| - 1].at < log[0].at + 300_000_000_000
            && |FailureTimes(log[0..|log|], ip)| == 4 + k
  {
    BurstFailsRun(ip, k, k);
    var log := After(BurstFails(ip, k, k), ip, k).log;
    assert log[0..|log|] == log;
  }
}

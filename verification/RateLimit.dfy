/** The sliding-window login limiter against the plain definition over its history. */
module RateLimit {
  type Ip = nat

  /** Nanoseconds of a monotone clock. */
  type Instant = nat

  const SECOND: nat := 1_000_000_000
  const WINDOW: nat := 300 * SECOND
  const MAX_FAILURES: nat := 5

  datatype Event = Check(ip: Ip, at: Instant) | Failure(ip: Ip, at: Instant) | Success(ip: Ip, at: Instant)

  datatype Verdict = Allowed | LockedOut(remaining: nat)

  // ----- The plain definition -----

  /** The failures of an address since its last success, oldest first. */
  function SinceSuccess(log: seq<Event>, ip: Ip): seq<Instant> {
    if log == [] then []
    else
      var earlier := SinceSuccess(log[..|log| - 1], ip);
      match log[|log| - 1]
      case Failure(i, t) => if i == ip then earlier + [t] else earlier
      case Success(i, _) => if i == ip then [] else earlier
      case Check(_, _) => earlier
  }

  /** `duration_since`, which is zero for a later instant. */
  function Age(now: Instant, t: Instant): nat {
    if t <= now then now - t else 0
  }

  /** Those still inside the window. */
  function Live(times: seq<Instant>, now: Instant): seq<Instant> {
    if times == [] then []
    else if Age(now, times[0]) < WINDOW then [times[0]] + Live(times[1..], now)
    else Live(times[1..], now)
  }

  // ----- The deques -----

  type Queues = map<Ip, seq<Instant>>

  function Queue(qs: Queues, ip: Ip): seq<Instant> {
    if ip in qs then qs[ip] else []
  }

  function Drained(q: seq<Instant>, now: Instant): seq<Instant> {
    if q != [] && Age(now, q[0]) >= WINDOW then Drained(q[1..], now) else q
  }

  function Apply(qs: Queues, e: Event): Queues {
    match e
    case Check(ip, now) => qs[ip := Drained(Queue(qs, ip), now)]
    case Failure(ip, now) => qs[ip := Drained(Queue(qs, ip), now) + [now]]
    case Success(ip, _) => qs - {ip}
  }

  function Replay(log: seq<Event>): Queues {
    if log == [] then map[] else Apply(Replay(log[..|log| - 1]), log[|log| - 1])
  }

  /** The clock never goes back. */
  predicate Monotone(log: seq<Event>) {
    forall i, j :: 0 <= i < j < |log| ==> log[i].at <= log[j].at
  }

  function Clock(log: seq<Event>): Instant {
    if log == [] then 0 else log[|log| - 1].at
  }

  // ----- The lazily drained deque agrees with the history -----

  predicate Sorted(q: seq<Instant>) {
    forall i, j :: 0 <= i < j < |q| ==> q[i] <= q[j]
  }

  /** The deque is what is left of the history after dropping expired failures from the front. */
  predicate Faithful(q: seq<Instant>, times: seq<Instant>, clock: Instant) {
    && Sorted(times)
    && (forall i :: 0 <= i < |times| ==> times[i] <= clock)
    && |q| <= |times| && q == times[|times| - |q|..]
    && (forall i :: 0 <= i < |times| - |q| ==> Age(clock, times[i]) >= WINDOW)
  }

  lemma {:induction false} LiveAppend(a: seq<Instant>, b: seq<Instant>, now: Instant)
    ensures Live(a + b, now) == Live(a, now) + Live(b, now)
    decreases |a|
  {
    if a == [] {
      assert a + b == b;
    } else {
      assert (a + b)[1..] == a[1..] + b;
      LiveAppend(a[1..], b, now);
    }
  }

  lemma {:induction false} LiveNone(a: seq<Instant>, now: Instant)
    requires forall i :: 0 <= i < |a| ==> Age(now, a[i]) >= WINDOW
    ensures Live(a, now) == []
    decreases |a|
  {
    if a != [] {
      LiveNone(a[1..], now);
    }
  }

  lemma {:induction false} LiveAll(a: seq<Instant>, now: Instant)
    requires forall i :: 0 <= i < |a| ==> Age(now, a[i]) < WINDOW
    ensures Live(a, now) == a
    decreases |a|
  {
    if a != [] {
      LiveAll(a[1..], now);
    }
  }

  lemma {:induction false} DrainedIsLive(q: seq<Instant>, now: Instant)
    requires Sorted(q) && forall i :: 0 <= i < |q| ==> q[i] <= now
    ensures Drained(q, now) == Live(q, now)
    ensures |Drained(q, now)| <= |q| && Drained(q, now) == q[|q| - |Drained(q, now)|..]
    ensures forall i :: 0 <= i < |q| - |Drained(q, now)| ==> Age(now, q[i]) >= WINDOW
    decreases |q|
  {
    if q != [] {
      if Age(now, q[0]) >= WINDOW {
        DrainedIsLive(q[1..], now);
      } else {
        LiveAll(q, now);
      }
    }
  }

  lemma {:induction false} FaithfulIsLive(q: seq<Instant>, times: seq<Instant>, clock: Instant, now: Instant)
    requires Faithful(q, times, clock) && clock <= now
    ensures Live(times, now) == Live(q, now)
  {
    var d := |times| - |q|;
    assert times == times[..d] + q;
    LiveAppend(times[..d], q, now);
    LiveNone(times[..d], now);
  }

  lemma {:induction false} FaithfulSuffix(q: seq<Instant>, times: seq<Instant>, clock: Instant, now: Instant, k: nat)
    requires Faithful(q, times, clock) && clock <= now && k <= |q|
    requires forall i :: 0 <= i < k ==> Age(now, q[i]) >= WINDOW
    ensures Faithful(q[k..], times, now)
  {
    var d := |times| - |q|;
    forall i | 0 <= i < d + k ensures Age(now, times[i]) >= WINDOW {
      if i >= d {
        assert times[i] == q[i - d];
      }
    }
  }

  /** Draining at any later time leaves exactly the live part of the history. */
  lemma {:induction false} FaithfulDrains(q: seq<Instant>, times: seq<Instant>, clock: Instant, now: Instant)
    requires Faithful(q, times, clock) && clock <= now
    ensures Drained(q, now) == Live(times, now) && Sorted(Drained(q, now))
    ensures Faithful(Drained(q, now), times, now)
  {
    assert Sorted(q) && forall i :: 0 <= i < |q| ==> q[i] <= now;
    DrainedIsLive(q, now);
    FaithfulIsLive(q, times, clock, now);
    FaithfulSuffix(q, times, clock, now, |q| - |Drained(q, now)|);
  }

  lemma {:induction false} FaithfulLater(q: seq<Instant>, times: seq<Instant>, clock: Instant, now: Instant)
    requires Faithful(q, times, clock) && clock <= now
    ensures Faithful(q, times, now)
  {
  }

  lemma {:induction false} FaithfulPush(q: seq<Instant>, times: seq<Instant>, now: Instant)
    requires Faithful(q, times, now)
    ensures Faithful(q + [now], times + [now], now)
  {
  }

  lemma {:induction false} ReplayIsFaithful(log: seq<Event>, ip: Ip)
    requires Monotone(log)
    ensures Faithful(Queue(Replay(log), ip), SinceSuccess(log, ip), Clock(log))
    decreases |log|
  {
    if log != [] {
      var front, e := log[..|log| - 1], log[|log| - 1];
      var q, times := Queue(Replay(front), ip), SinceSuccess(front, ip);
      ReplayIsFaithful(front, ip);
      assert Clock(front) <= e.at;
      if e.ip != ip {
        FaithfulLater(q, times, Clock(front), e.at);
      } else {
        FaithfulDrains(q, times, Clock(front), e.at);
        FaithfulPush(Drained(q, e.at), times, e.at);
      }
    }
  }

  /** After any run of calls over any addresses, the drained deque of each address is
      sorted and equals the failures since its last success that are inside the window. */
  lemma {:induction false} LimiterRefinesHistory(log: seq<Event>, ip: Ip, now: Instant)
    requires Monotone(log) && Clock(log) <= now
    ensures Drained(Queue(Replay(log), ip), now) == Live(SinceSuccess(log, ip), now)
    ensures Sorted(Live(SinceSuccess(log, ip), now))
  {
    ReplayIsFaithful(log, ip);
    FaithfulDrains(Queue(Replay(log), ip), SinceSuccess(log, ip), Clock(log), now);
  }

  lemma {:induction false} LiveInPast(log: seq<Event>, ip: Ip, now: Instant)
    requires Monotone(log) && Clock(log) <= now
    ensures forall i :: 0 <= i < |Live(SinceSuccess(log, ip), now)| ==> Live(SinceSuccess(log, ip), now)[i] <= now
  {
    ReplayIsFaithful(log, ip);
    LiveIsSuffix(SinceSuccess(log, ip), now);
  }

  // ----- The limiter -----

  method DrainOld(queue: seq<Instant>, now: Instant) returns (r: seq<Instant>)
    ensures r == Drained(queue, now)
  {
    r := queue;
    while r != [] && Age(now, r[0]) >= WINDOW
      invariant Drained(r, now) == Drained(queue, now)
    {
      r := r[1..];
    }
  }

  class LoginRateLimiter {
    var failures: Queues
    ghost var log: seq<Event>

    /** The deques are the replay of everything that was called. */
    ghost predicate Valid()
      reads this
    {
      Monotone(log) && failures == Replay(log)
    }

    constructor ()
      ensures Valid() && log == []
    {
      failures := map[];
      log := [];
    }

    /** Locked out exactly when five failures of the address are in the window. */
    method CheckIp(ip: Ip, now: Instant) returns (v: Verdict)
      requires Valid() && Clock(log) <= now
      modifies this
      ensures Valid() && log == old(log) + [Check(ip, now)]
      ensures var live := Live(SinceSuccess(old(log), ip), now);
              && failures == old(failures)[ip := live]
              && (v.LockedOut? <==> |live| >= 5)
              && (v.LockedOut? ==>
                    && live[0] <= now < live[0] + 300_000_000_000
                    && v.remaining == Remaining(live[0], now)
                    && v.remaining == (if now + 1_000_000_000 < live[0] + 300_000_000_000
                                       then live[0] + 300_000_000_000 - now else 1_000_000_000))
    {
      LimiterRefinesHistory(log, ip, now);
      LiveInPast(log, ip, now);
      LiveMember(SinceSuccess(log, ip), now);
      var queue := DrainOld(Queue(failures, ip), now);
      failures := failures[ip := queue];
      log := log + [Check(ip, now)];
      assert log[..|log| - 1] == old(log);
      if |queue| >= MAX_FAILURES {
        var oldest := queue[0];
        var age := Age(now, oldest);
        var remaining := if age <= WINDOW then WINDOW - age else 0;
        v := LockedOut(if remaining < SECOND then SECOND else remaining);
      } else {
        v := Allowed;
      }
    }

    method RecordFailure(ip: Ip, now: Instant)
      requires Valid() && Clock(log) <= now
      modifies this
      ensures Valid() && log == old(log) + [Failure(ip, now)]
      ensures failures == old(failures)[ip := Live(SinceSuccess(old(log), ip), now) + [now]]
    {
      LimiterRefinesHistory(log, ip, now);
      var queue := DrainOld(Queue(failures, ip), now);
      failures := failures[ip := queue + [now]];
      log := log + [Failure(ip, now)];
      assert log[..|log| - 1] == old(log);
    }

    method RecordSuccess(ip: Ip, now: Instant)
      requires Valid() && Clock(log) <= now
      modifies this
      ensures Valid() && log == old(log) + [Success(ip, now)]
      ensures failures == old(failures) - {ip} && SinceSuccess(log, ip) == []
    {
      failures := failures - {ip};
      log := log + [Success(ip, now)];
      assert log[..|log| - 1] == old(log);
    }
  }

  // ----- The lockout time -----

  /** The wait that is reported: to the end of the oldest failure's window, at least a second. */
  function Remaining(oldest: Instant, now: Instant): nat {
    var age := Age(now, oldest);
    var left := if age <= WINDOW then WINDOW - age else 0;
    if left < SECOND then SECOND else left
  }

  lemma {:induction false} LiveIsSuffix(times: seq<Instant>, now: Instant)
    requires Sorted(times) && forall i :: 0 <= i < |times| ==> times[i] <= now
    ensures var n := |Live(times, now)|;
            && n <= |times| && Live(times, now) == times[|times| - n..]
            && (forall i :: 0 <= i < |times| ==> (Age(now, times[i]) < WINDOW <==> i >= |times| - n))
  {
    DrainedIsLive(times, now);
    var n := |Live(times, now)|;
    LiveMember(times, now);
    forall i | |times| - n <= i < |times| ensures Age(now, times[i]) < WINDOW {
      assert Live(times, now)[i - (|times| - n)] == times[i];
    }
  }

  lemma {:induction false} LiveMember(times: seq<Instant>, now: Instant)
    ensures forall i :: 0 <= i < |Live(times, now)| ==> Age(now, Live(times, now)[i]) < WINDOW
    decreases |times|
  {
    if times != [] {
      LiveMember(times[1..], now);
    }
  }

  /** At any time, an address is locked out exactly while its fifth newest failure
      is inside the window. */
  lemma {:induction false} LockedOutExactly(times: seq<Instant>, now: Instant)
    requires Sorted(times) && forall i :: 0 <= i < |times| ==> times[i] <= now
    ensures |Live(times, now)| >= 5 <==> |times| >= 5 && now < times[|times| - 5] + 300_000_000_000
  {
    LiveIsSuffix(times, now);
  }

  /** The reported wait is at least a second, reaches the end of the oldest failure's window, and is
      the least that does both.  Until the oldest live
      failure expires the address stays locked out, whatever failures are added, and
      the wait never ends earlier.  Once the wait is over, with no failure added, the
      address is allowed exactly when the fifth newest failure has expired by then,
      which is always so when exactly five were live. */
  lemma {:induction false} LockoutTimeIsRight(times: seq<Instant>, now: Instant, added: seq<Instant>, later: Instant)
    requires Sorted(times) && forall i :: 0 <= i < |times| ==> times[i] <= now
    requires |Live(times, now)| >= MAX_FAILURES
    requires now <= later && Sorted(times + added) && forall i :: 0 <= i < |added| ==> added[i] <= later
    ensures var oldest := Live(times, now)[0];
            var wait := Remaining(oldest, now);
            && 1_000_000_000 <= wait <= 300_000_000_000
            && oldest + 300_000_000_000 <= now + wait
            && (wait == 1_000_000_000 || now + wait == oldest + 300_000_000_000)
            && (later < oldest + 300_000_000_000 ==> |Live(times + added, later)| >= 5)
            && (now + wait <= later ==>
                  (|Live(times, later)| < 5 <==>
                     |times| >= 5 && times[|times| - 5] + 300_000_000_000 <= later))
            && (now + wait <= later && |Live(times, now)| == 5 ==> |Live(times, later)| < 5)
  {
    LiveIsSuffix(times, now);
    LiveIsSuffix(times, later);
    var n := |Live(times, now)|;
    var oldest := times[|times| - n];
    assert Live(times, now)[0] == oldest;
    if later < oldest + WINDOW {
      LiveAppend(times, added, later);
      assert Age(later, oldest) < WINDOW;
    }
  }
}

/** The two callers of the limiter: the login form and the API's key check. */
module Login {
  import opened Wrappers
  import opened RateLimit

  datatype Answer = Wait(remaining: nat) | Wrong | Malformed | Welcome

  /** The login form: a wrong key is recorded, a right one clears the address. */
  method PostLogin(limiter: LoginRateLimiter, ip: Ip, key: string, accessKey: string, t1: Instant, t2: Instant)
    returns (answer: Answer)
    requires limiter.Valid() && Clock(limiter.log) <= t1 <= t2
    modifies limiter
    ensures limiter.Valid()
    ensures var log := old(limiter.log);
            && (answer.Wait? <==> |Live(SinceSuccess(log, ip), t1)| >= 5)
            && (answer.Wait? ==>
                  var oldest := Live(SinceSuccess(log, ip), t1)[0];
                  oldest <= t1 < oldest + 300_000_000_000
                  && answer.remaining == (if t1 + 1_000_000_000 < oldest + 300_000_000_000
                                          then oldest + 300_000_000_000 - t1 else 1_000_000_000))
            && (answer.Wait? ==> limiter.log == log + [Check(ip, t1)])
            && (!answer.Wait? ==> (answer.Welcome? <==> key == accessKey) && !answer.Malformed?)
            && (answer.Wrong? ==> limiter.log == log + [Check(ip, t1), Failure(ip, t2)])
            && (answer.Welcome? ==> limiter.log == log + [Check(ip, t1), Success(ip, t2)])
  {
    var v := limiter.CheckIp(ip, t1);
    if v.LockedOut? {
      return Wait(v.remaining);
    }
    if key != accessKey {
      limiter.RecordFailure(ip, t2);
      return Wrong;
    }
    limiter.RecordSuccess(ip, t2);
    return Welcome;
  }

  const BEARER: string := "Bearer "

  /** The API: the same check, a wrong key is recorded, but success clears nothing and a
      header that is missing or has no bearer token is not recorded. */
  method ApiAuth(limiter: LoginRateLimiter, ip: Ip, header: Option<string>, accessKey: string, t1: Instant, t2: Instant)
    returns (answer: Answer)
    requires limiter.Valid() && Clock(limiter.log) <= t1 <= t2
    modifies limiter
    ensures limiter.Valid()
    ensures var log := old(limiter.log);
            && (answer.Wait? <==> |Live(SinceSuccess(log, ip), t1)| >= 5)
            && (answer.Wait? ==>
                  var oldest := Live(SinceSuccess(log, ip), t1)[0];
                  oldest <= t1 < oldest + 300_000_000_000
                  && answer.remaining == (if t1 + 1_000_000_000 < oldest + 300_000_000_000
                                          then oldest + 300_000_000_000 - t1 else 1_000_000_000))
            && (answer.Welcome? <==> !answer.Wait? && header == Some("Bearer " + accessKey))
            && (answer.Malformed? <==> !answer.Wait? && (header.None? || !("Bearer " <= header.value)))
            && (answer.Wrong? ==> limiter.log == log + [Check(ip, t1), Failure(ip, t2)])
            && (!answer.Wrong? ==> limiter.log == log + [Check(ip, t1)])
  {
    var v := limiter.CheckIp(ip, t1);
    if v.LockedOut? {
      return Wait(v.remaining);
    }
    if header.None? || !(BEARER <= header.value) {
      return Malformed;
    }
    assert header.value == BEARER + header.value[|BEARER|..];
    if header.value[|BEARER|..] != accessKey {
      limiter.RecordFailure(ip, t2);
      return Wrong;
    }
    return Welcome;
  }
}

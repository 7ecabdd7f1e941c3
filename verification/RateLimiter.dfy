/**
 The login rate limiter: per address and per user name, a bucket of recent failures and a
 lockout. `LoginRateLimiter` is the code, with its buckets pruned in place; `Step` is what one
 login attempt does to its tables.
 */
module RateLimiter {
  // Attempts are allowed up to maxAttempts per window; times are seconds.
  datatype Limits = Limits(maxAttempts: int, window: nat, lockout: int)

  datatype Tables = Tables(
    attemptsByIp: map<string, seq<int>>,
    attemptsByUsername: map<string, seq<int>>,
    ipLockouts: map<string, int>,
    usernameLockouts: map<string, int>)

  const EMPTY := Tables(map[], map[], map[], map[])

  /** One login: whether the credentials are good, when the lockouts are checked, and when the
      outcome is recorded. */
  datatype Attempt = Attempt(ip: string, username: string, genuine: bool, checked: int, recorded: int)

  datatype Outcome = TooManyAttempts | InvalidCredentials | LoggedIn

  function LockedUntil(lockouts: map<string, int>, name: string): int {
    if name in lockouts then lockouts[name] else 0
  }

  function Bucket(attempts: map<string, seq<int>>, name: string): seq<int> {
    if name in attempts then attempts[name] else []
  }

  predicate Allowed(t: Tables, ip: string, username: string, now: int) {
    LockedUntil(t.ipLockouts, ip) <= now && LockedUntil(t.usernameLockouts, username) <= now
  }

  /** Drops failures from the front of the bucket while they are older than the window. */
  function Pruned(bucket: seq<int>, now: int, window: nat): seq<int> {
    if bucket != [] && now - bucket[0] > window then Pruned(bucket[1..], now, window) else bucket
  }

  predicate Trips(l: Limits, bucket: seq<int>, now: int) {
    |Pruned(bucket, now, l.window)| + 1 >= l.maxAttempts
  }

  function BucketAfter(l: Limits, bucket: seq<int>, now: int): seq<int> {
    if Trips(l, bucket, now) then [] else Pruned(bucket, now, l.window) + [now]
  }

  function LockoutsAfter(l: Limits, lockouts: map<string, int>, name: string, bucket: seq<int>, now: int)
    : map<string, int>
  {
    if Trips(l, bucket, now) then lockouts[name := now + l.lockout] else lockouts
  }

  function Failed(l: Limits, t: Tables, ip: string, username: string, now: int): Tables {
    var a, b := Bucket(t.attemptsByIp, ip), Bucket(t.attemptsByUsername, username);
    Tables(
      t.attemptsByIp[ip := BucketAfter(l, a, now)],
      t.attemptsByUsername[username := BucketAfter(l, b, now)],
      LockoutsAfter(l, t.ipLockouts, ip, a, now),
      LockoutsAfter(l, t.usernameLockouts, username, b, now))
  }

  function Succeeded(t: Tables, ip: string, username: string): Tables {
    Tables(t.attemptsByIp - {ip}, t.attemptsByUsername - {username},
           t.ipLockouts - {ip}, t.usernameLockouts - {username})
  }

  function Step(l: Limits, t: Tables, a: Attempt): Tables {
    if !Allowed(t, a.ip, a.username, a.checked) then t
    else if a.genuine then Succeeded(t, a.ip, a.username)
    else Failed(l, t, a.ip, a.username, a.recorded)
  }

  function Run(l: Limits, t: Tables, attempts: seq<Attempt>): Tables {
    if attempts == [] then t else Step(l, Run(l, t, attempts[..|attempts| - 1]), attempts[|attempts| - 1])
  }

  // ----- The code -----

  class LoginRateLimiter {
    const limits: Limits
    var attemptsByIp: map<string, seq<int>>
    var attemptsByUsername: map<string, seq<int>>
    var ipLockouts: map<string, int>
    var usernameLockouts: map<string, int>

    function Contents(): Tables
      reads this
    {
      Tables(attemptsByIp, attemptsByUsername, ipLockouts, usernameLockouts)
    }

    constructor (limits: Limits)
      ensures this.limits == limits && Contents() == EMPTY
    {
      this.limits := limits;
      attemptsByIp, attemptsByUsername, ipLockouts, usernameLockouts := map[], map[], map[], map[];
    }

    method Prune(bucket: seq<int>, now: int) returns (kept: seq<int>)
      ensures kept == Pruned(bucket, now, limits.window)
    {
      kept := bucket;
      while kept != [] && now - kept[0] > limits.window
        invariant Pruned(kept, now, limits.window) == Pruned(bucket, now, limits.window)
        decreases |kept|
      {
        kept := kept[1..];
      }
    }

    method EnsureAllowed(ip: string, username: string, now: int) returns (ok: bool)
      ensures ok == Allowed(Contents(), ip, username, now)
    {
      ok := LockedUntil(ipLockouts, ip) <= now && LockedUntil(usernameLockouts, username) <= now;
    }

    method AddFailure(attempts: map<string, seq<int>>, lockouts: map<string, int>, name: string, now: int)
      returns (attempts': map<string, seq<int>>, lockouts': map<string, int>)
      ensures attempts' == attempts[name := BucketAfter(limits, Bucket(attempts, name), now)]
      ensures lockouts' == LockoutsAfter(limits, lockouts, name, Bucket(attempts, name), now)
    {
      var bucket := Prune(Bucket(attempts, name), now);
      bucket := bucket + [now];
      lockouts' := lockouts;
      if |bucket| >= limits.maxAttempts {
        lockouts' := lockouts[name := now + limits.lockout];
        bucket := [];
      }
      attempts' := attempts[name := bucket];
    }

    method RegisterFailure(ip: string, username: string, now: int)
      modifies this
      ensures Contents() == Failed(limits, old(Contents()), ip, username, now)
    {
      attemptsByIp, ipLockouts := AddFailure(attemptsByIp, ipLockouts, ip, now);
      attemptsByUsername, usernameLockouts := AddFailure(attemptsByUsername, usernameLockouts, username, now);
    }

    method RegisterSuccess(ip: string, username: string)
      modifies this
      ensures Contents() == Succeeded(old(Contents()), ip, username)
    {
      attemptsByIp := attemptsByIp - {ip};
      attemptsByUsername := attemptsByUsername - {username};
      ipLockouts := ipLockouts - {ip};
      usernameLockouts := usernameLockouts - {username};
    }

    /** A login: the lockouts first, then the credentials, then the bookkeeping. */
    method Authenticate(a: Attempt) returns (outcome: Outcome)
      modifies this
      ensures Contents() == Step(limits, old(Contents()), a)
      ensures outcome.TooManyAttempts? <==>
                || a.checked < (if a.ip in old(ipLockouts) then old(ipLockouts)[a.ip] else 0)
                || a.checked < (if a.username in old(usernameLockouts) then old(usernameLockouts)[a.username] else 0)
      ensures outcome.LoggedIn? ==> a.genuine
      ensures outcome.InvalidCredentials? ==> !a.genuine
      ensures outcome.TooManyAttempts? ==> Contents() == old(Contents())
      ensures outcome.LoggedIn? ==>
        && a.ip !in attemptsByIp && a.ip !in ipLockouts
        && a.username !in attemptsByUsername && a.username !in usernameLockouts
      ensures outcome.InvalidCredentials? ==> a.ip in attemptsByIp && a.username in attemptsByUsername
    {
      var ok := EnsureAllowed(a.ip, a.username, a.checked);
      if !ok {
        return TooManyAttempts;
      }
      if !a.genuine {
        RegisterFailure(a.ip, a.username, a.recorded);
        return InvalidCredentials;
      }
      RegisterSuccess(a.ip, a.username);
      return LoggedIn;
    }
  }
}

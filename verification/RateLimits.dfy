/**
 What the rate limiter enforces over whole runs of logins: a sliding window on the failures of
 every address and every user name, exactly under a condition on its settings.
 */
module RateLimits {
  import opened Arithmetic
  import opened RateLimiter

  // ----- The simple specification: a list of failures and a filter -----

  /** Those of s that are at most `window` old at time now. */
  function Within(s: seq<int>, now: int, window: nat): (r: seq<int>)
    ensures |r| <= |s|
  {
    if s == [] then []
    else
      var before, x := Within(s[..|s| - 1], now, window), s[|s| - 1];
      if now - x <= window then before + [x] else before
  }

  /** The failures of one key since its last success; the first `cleared` of them are no longer
      in its bucket because a lockout cleared it. */
  datatype History = History(failures: seq<int>, cleared: nat)

  function Open(h: History): seq<int>
    requires h.cleared <= |h.failures|
  {
    h.failures[h.cleared..]
  }

  /** Records a failure; enough of them within the window lead to a lockout. */
  function Record(l: Limits, h: History, now: int): (r: History)
    requires h.cleared <= |h.failures|
    ensures r.cleared <= |r.failures|
  {
    if |Within(Open(h) + [now], now, l.window)| >= l.maxAttempts
    then History(h.failures + [now], |h.failures| + 1)
    else History(h.failures + [now], h.cleared)
  }

  /** The bucket was last pruned when the last failure was recorded. */
  function BucketFor(l: Limits, h: History): seq<int>
    requires h.cleared <= |h.failures|
  {
    if h.failures == [] then [] else Within(Open(h), h.failures[|h.failures| - 1], l.window)
  }

  function LockFor(l: Limits, h: History): int
    requires h.cleared <= |h.failures|
  {
    if h.cleared == 0 then 0 else h.failures[h.cleared - 1] + l.lockout
  }

  /** The tables' bucket and lockout for a key with this history. */
  predicate Shows(l: Limits, h: History, bucket: seq<int>, lockedUntil: int) {
    && h.cleared <= |h.failures| && Sorted(h.failures)
    && bucket == BucketFor(l, h)
    && lockedUntil == LockFor(l, h)
  }

  // ----- Pruning in place is filtering -----

  lemma {:induction false} WithinAll(s: seq<int>, now: int, window: nat)
    requires forall i :: 0 <= i < |s| ==> now - s[i] <= window
    ensures Within(s, now, window) == s
  {
    if s != [] {
      WithinAll(s[..|s| - 1], now, window);
      assert s == s[..|s| - 1] + [s[|s| - 1]];
    }
  }

  lemma {:induction false} WithinDropsOld(s: seq<int>, now: int, window: nat)
    requires s != [] && now - s[0] > window
    ensures Within(s, now, window) == Within(s[1..], now, window)
  {
    if |s| == 1 {
      assert s[..0] == [] && s[1..] == [];
    } else {
      WithinDropsOld(s[..|s| - 1], now, window);
      assert s[1..][..|s| - 2] == s[..|s| - 1][1..];
    }
  }

  /** On a sorted bucket, popping old failures from the front is filtering it. */
  lemma {:induction false} PruneIsFilter(bucket: seq<int>, now: int, window: nat)
    requires Sorted(bucket)
    ensures Pruned(bucket, now, window) == Within(bucket, now, window)
  {
    if bucket != [] && now - bucket[0] > window {
      PruneIsFilter(bucket[1..], now, window);
      WithinDropsOld(bucket, now, window);
    } else {
      WithinAll(bucket, now, window);
    }
  }

  lemma {:induction false} WithinTwice(s: seq<int>, t: int, now: int, window: nat)
    requires t <= now
    ensures Within(Within(s, t, window), now, window) == Within(s, now, window)
  {
    if s != [] {
      WithinTwice(s[..|s| - 1], t, now, window);
      var before, x := Within(s[..|s| - 1], t, window), s[|s| - 1];
      assert (before + [x])[..|before|] == before;
    }
  }

  lemma {:induction false} WithinIsSorted(s: seq<int>, now: int, window: nat)
    requires Sorted(s)
    ensures Sorted(Within(s, now, window))
    ensures forall x :: x in Within(s, now, window) ==> x in s
  {
    if s != [] {
      var before, x := s[..|s| - 1], s[|s| - 1];
      WithinIsSorted(before, now, window);
      var kept := Within(before, now, window);
      forall i | 0 <= i < |kept| ensures kept[i] <= x && kept[i] in s {
        assert kept[i] in kept && kept[i] in before;
        var j :| 0 <= j < |before| && before[j] == kept[i];
        assert s[j] == kept[i];
      }
    }
  }

  lemma WithinAppend(s: seq<int>, x: int, now: int, window: nat)
    ensures Within(s + [x], now, window) == Within(s, now, window) + (if now - x <= window then [x] else [])
  {
    assert (s + [x])[..|s|] == s;
  }

  /** The deque, pruned at time now, is the filter of all that is not cleared. */
  lemma PrunedIsWithin(l: Limits, h: History, bucket: seq<int>, lockedUntil: int, now: int)
    requires Shows(l, h, bucket, lockedUntil)
    requires h.failures != [] ==> h.failures[|h.failures| - 1] <= now
    ensures Pruned(bucket, now, l.window) == Within(Open(h), now, l.window)
  {
    if h.failures != [] {
      WithinIsSorted(Open(h), h.failures[|h.failures| - 1], l.window);
      WithinTwice(Open(h), h.failures[|h.failures| - 1], now, l.window);
    }
    PruneIsFilter(bucket, now, l.window);
  }

  lemma SortedAppend(s: seq<int>, x: int)
    requires Sorted(s) && (s != [] ==> s[|s| - 1] <= x)
    ensures Sorted(s + [x])
  {
  }

  lemma RecordTrips(l: Limits, h: History, now: int)
    requires h.cleared <= |h.failures|
    requires |Within(Open(h), now, l.window)| + 1 >= l.maxAttempts
    ensures Record(l, h, now) == History(h.failures + [now], |h.failures| + 1)
    ensures BucketFor(l, Record(l, h, now)) == [] && LockFor(l, Record(l, h, now)) == now + l.lockout
  {
    WithinAppend(Open(h), now, now, l.window);
    assert Open(Record(l, h, now)) == [];
  }

  lemma RecordStays(l: Limits, h: History, now: int)
    requires h.cleared <= |h.failures|
    requires |Within(Open(h), now, l.window)| + 1 < l.maxAttempts
    ensures Record(l, h, now) == History(h.failures + [now], h.cleared)
    ensures BucketFor(l, Record(l, h, now)) == Within(Open(h), now, l.window) + [now]
    ensures LockFor(l, Record(l, h, now)) == LockFor(l, h)
  {
    WithinAppend(Open(h), now, now, l.window);
    assert Open(Record(l, h, now)) == Open(h) + [now];
  }

  /** A failure moves bucket and lockout as the specification says, and leaves the bucket short. */
  lemma FailureShows(l: Limits, h: History, bucket: seq<int>, lockedUntil: int, now: int)
    requires Shows(l, h, bucket, lockedUntil)
    requires h.failures != [] ==> h.failures[|h.failures| - 1] <= now
    ensures Shows(l, Record(l, h, now), BucketAfter(l, bucket, now),
                  if Trips(l, bucket, now) then now + l.lockout else lockedUntil)
    ensures l.maxAttempts >= 1 ==> |BucketAfter(l, bucket, now)| < l.maxAttempts
  {
    PrunedIsWithin(l, h, bucket, lockedUntil, now);
    SortedAppend(h.failures, now);
    if Trips(l, bucket, now) {
      RecordTrips(l, h, now);
    } else {
      RecordStays(l, h, now);
    }
  }

  // ----- The window -----

  /** Any maxAttempts + 1 consecutive failures span more than the window. */
  ghost predicate Spaced(l: Limits, failures: seq<int>) {
    forall i, j :: 0 <= i < |failures| && 0 <= j < |failures| && j == i + l.maxAttempts ==>
      failures[j] - failures[i] > l.window
  }

  lemma {:induction false} WithinLast(s: seq<int>, now: int, window: nat, j: nat)
    requires Sorted(s) && j < |s| && now - s[j] <= window
    ensures |Within(s, now, window)| >= |s| - j
  {
    var n := |s| - 1;
    assert now - s[n] <= window;
    if j < n {
      assert s[..n][j] == s[j];
      WithinLast(s[..n], now, window, j);
    }
  }

  lemma SpacedAppend(l: Limits, s: seq<int>, now: int)
    requires l.maxAttempts >= 1 && Spaced(l, s)
    requires |s| >= l.maxAttempts ==> now - s[|s| - l.maxAttempts] > l.window
    ensures Spaced(l, s + [now])
  {
  }

  /** A failure that is still in view was dropped from the short bucket only because of its age. */
  lemma OpenIsOld(l: Limits, h: History, bucket: seq<int>, lockedUntil: int, q: nat)
    requires Shows(l, h, bucket, lockedUntil) && |bucket| < l.maxAttempts
    requires q == |h.failures| - l.maxAttempts && h.cleared <= q < |h.failures|
    ensures h.failures[|h.failures| - 1] - h.failures[q] > l.window
  {
    assert Open(h)[q - h.cleared] == h.failures[q];
    var last := h.failures[|h.failures| - 1];
    if last - h.failures[q] <= l.window {
      WithinLast(Open(h), last, l.window, q - h.cleared);
      assert false;
    }
  }

  /** A failure that is recorded when no lockout holds keeps the spacing. */
  lemma FailureKeepsSpacing(l: Limits, h: History, bucket: seq<int>, lockedUntil: int, now: int)
    requires l.maxAttempts >= 1 && l.lockout > l.window
    requires Shows(l, h, bucket, lockedUntil) && |bucket| < l.maxAttempts && Spaced(l, h.failures)
    requires h.failures != [] ==> h.failures[|h.failures| - 1] <= now
    requires lockedUntil <= now
    ensures Spaced(l, h.failures + [now])
  {
    var q := |h.failures| - l.maxAttempts;
    if 0 <= q < h.cleared {
      assert h.failures[q] <= h.failures[h.cleared - 1];
    } else if q >= 0 {
      OpenIsOld(l, h, bucket, lockedUntil, q);
    }
    SpacedAppend(l, h.failures, now);
  }

  function CountIn(s: seq<int>, from: int, to: int): nat {
    if s == [] then 0
    else CountIn(s[..|s| - 1], from, to) + (if from <= s[|s| - 1] <= to then 1 else 0)
  }

  lemma {:induction false} CountAtMostLength(s: seq<int>, from: int, to: int, past: nat)
    requires past <= |s| && forall i :: 0 <= i < past ==> s[i] < from
    ensures CountIn(s, from, to) <= |s| - past
  {
    if |s| > past {
      CountAtMostLength(s[..|s| - 1], from, to, past);
    } else if s != [] {
      CountAtMostLength(s[..|s| - 1], from, to, past - 1);
    }
  }

  /** Spaced failures never fill a closed window beyond the limit. */
  lemma {:induction false} SpacedMeansWindowed(l: Limits, s: seq<int>, from: int, to: int)
    requires l.maxAttempts >= 1 && Sorted(s) && Spaced(l, s) && to - from <= l.window
    ensures CountIn(s, from, to) <= l.maxAttempts
  {
    if s != [] {
      var n := |s| - 1;
      if from <= s[n] <= to {
        if n >= l.maxAttempts {
          assert s[n] - s[n - l.maxAttempts] > l.window;
          CountAtMostLength(s, from, to, n - l.maxAttempts + 1);
        } else {
          CountAtMostLength(s, from, to, 0);
        }
      } else {
        SpacedMeansWindowed(l, s[..n], from, to);
      }
    }
  }

  lemma {:induction false} CountSplits(s: seq<int>, from: int, mid: int, to: int)
    requires from <= mid <= to
    ensures CountIn(s, from, to) <= CountIn(s, from, mid) + CountIn(s, mid, to)
  {
    if s != [] { CountSplits(s[..|s| - 1], from, mid, to); }
  }

  /** Hence over any span D: at most the limit for each window begun. */
  lemma {:induction false} SpacedOverSpan(l: Limits, s: seq<int>, from: int, span: nat)
    requires l.maxAttempts >= 1 && l.window > 0 && Sorted(s) && Spaced(l, s)
    ensures CountIn(s, from, from + span) <= l.maxAttempts * (span / l.window + 1)
    decreases span
  {
    if span < l.window {
      SpacedMeansWindowed(l, s, from, from + span);
      FirstShare(l.maxAttempts, span, l.window);
    } else {
      CountSplits(s, from, from + l.window, from + span);
      SpacedMeansWindowed(l, s, from, from + l.window);
      SpacedOverSpan(l, s, from + l.window, span - l.window);
      OneMoreShare(l.maxAttempts, span, l.window);
    }
  }

  lemma FirstShare(m: nat, span: nat, w: nat)
    requires span < w
    ensures m * (span / w + 1) == m
  {
    assert span / w == 0;
  }

  lemma OneMoreShare(m: nat, span: nat, w: nat)
    requires 0 < w <= span
    ensures m + m * ((span - w) / w + 1) == m * (span / w + 1)
  {
    DivMinus(span, w);
    var p := (span - w) / w;
    assert m + m * (p + 1) == m * (p + 2);
  }

  // ----- Whole runs -----

  datatype Who = Address(name: string) | User(name: string)

  predicate Concerns(a: Attempt, who: Who) {
    match who
    case Address(ip) => a.ip == ip
    case User(username) => a.username == username
  }

  function BucketOf(t: Tables, who: Who): seq<int> {
    match who
    case Address(ip) => Bucket(t.attemptsByIp, ip)
    case User(username) => Bucket(t.attemptsByUsername, username)
  }

  function LockOf(t: Tables, who: Who): int {
    match who
    case Address(ip) => LockedUntil(t.ipLockouts, ip)
    case User(username) => LockedUntil(t.usernameLockouts, username)
  }

  /** The clock does not go back, within an attempt or from one to the next. */
  ghost predicate InOrder(attempts: seq<Attempt>) {
    && (forall i :: 0 <= i < |attempts| ==> 0 <= attempts[i].checked <= attempts[i].recorded)
    && (forall i, j :: 0 <= i < j < |attempts| ==> attempts[i].recorded <= attempts[j].checked)
  }

  /** The failures of `who` that were evaluated, since its last success. */
  function HistoryOf(l: Limits, attempts: seq<Attempt>, who: Who): (h: History)
    ensures h.cleared <= |h.failures|
  {
    if attempts == [] then History([], 0)
    else
      var before, a := attempts[..|attempts| - 1], attempts[|attempts| - 1];
      var h := HistoryOf(l, before, who);
      if !Concerns(a, who) || !Allowed(Run(l, EMPTY, before), a.ip, a.username, a.checked) then h
      else if a.genuine then History([], 0)
      else Record(l, h, a.recorded)
  }

  lemma StepOf(l: Limits, t: Tables, a: Attempt, who: Who)
    ensures var u := Step(l, t, a);
            if !Concerns(a, who) || !Allowed(t, a.ip, a.username, a.checked)
            then BucketOf(u, who) == BucketOf(t, who) && LockOf(u, who) == LockOf(t, who)
            else if a.genuine then BucketOf(u, who) == [] && LockOf(u, who) == 0
            else BucketOf(u, who) == BucketAfter(l, BucketOf(t, who), a.recorded)
                 && LockOf(u, who) ==
                    (if Trips(l, BucketOf(t, who), a.recorded) then a.recorded + l.lockout else LockOf(t, who))
  {
  }

  lemma FailureIsRecorded(l: Limits, before: seq<Attempt>, a: Attempt, who: Who)
    requires Concerns(a, who) && Allowed(Run(l, EMPTY, before), a.ip, a.username, a.checked) && !a.genuine
    ensures HistoryOf(l, before + [a], who) == Record(l, HistoryOf(l, before, who), a.recorded)
  {
    assert (before + [a])[..|before|] == before;
  }

  lemma {:induction false} HistoryIsPast(l: Limits, attempts: seq<Attempt>, who: Who)
    requires InOrder(attempts)
    ensures forall x :: x in HistoryOf(l, attempts, who).failures ==>
              exists i :: 0 <= i < |attempts| && attempts[i].recorded == x
  {
    if attempts != [] {
      var before := attempts[..|attempts| - 1];
      HistoryIsPast(l, before, who);
      forall x | x in HistoryOf(l, attempts, who).failures
        ensures exists i :: 0 <= i < |attempts| && attempts[i].recorded == x
      {
        if x in HistoryOf(l, before, who).failures {
          var i :| 0 <= i < |before| && before[i].recorded == x;
          assert attempts[i].recorded == x;
        } else {
          assert attempts[|attempts| - 1].recorded == x;
        }
      }
    }
  }

  /** Over all runs the tables hold, for every address and user name, what the specification
      says: the bucket is the filter of the failures since the last success or lockout, the
      lockout is the one of the last clearing, and the bucket stays below the limit. */
  lemma {:induction false} TablesShowHistory(l: Limits, attempts: seq<Attempt>, who: Who)
    requires InOrder(attempts)
    ensures var t := Run(l, EMPTY, attempts);
            Shows(l, HistoryOf(l, attempts, who), BucketOf(t, who), LockOf(t, who))
    ensures l.maxAttempts >= 1 ==> |BucketOf(Run(l, EMPTY, attempts), who)| < l.maxAttempts
  {
    if attempts != [] {
      var before, a := attempts[..|attempts| - 1], attempts[|attempts| - 1];
      TablesShowHistory(l, before, who);
      StepOf(l, Run(l, EMPTY, before), a, who);
      LastIsPast(l, before, a, who);
      var h, t := HistoryOf(l, before, who), Run(l, EMPTY, before);
      FailureShows(l, h, BucketOf(t, who), LockOf(t, who), a.recorded);
    }
  }

  lemma LastIsPast(l: Limits, before: seq<Attempt>, a: Attempt, who: Who)
    requires InOrder(before + [a])
    ensures var h := HistoryOf(l, before, who);
            h.failures != [] ==> h.failures[|h.failures| - 1] <= a.recorded
  {
    assert forall i :: 0 <= i < |before| ==> (before + [a])[i] == before[i];
    assert (before + [a])[|before|] == a;
    HistoryIsPast(l, before, who);
    var h := HistoryOf(l, before, who);
    if h.failures != [] {
      assert h.failures[|h.failures| - 1] in h.failures;
    }
  }

  lemma {:induction false} RunsAreSpaced(l: Limits, attempts: seq<Attempt>, who: Who)
    requires InOrder(attempts) && l.maxAttempts >= 1 && l.lockout > l.window
    ensures Spaced(l, HistoryOf(l, attempts, who).failures)
  {
    if attempts != [] {
      var before, a := attempts[..|attempts| - 1], attempts[|attempts| - 1];
      assert attempts == before + [a];
      InOrderBefore(before, a);
      RunsAreSpaced(l, before, who);
      AttemptKeepsSpacing(l, before, a, who);
    }
  }

  lemma InOrderBefore(before: seq<Attempt>, a: Attempt)
    requires InOrder(before + [a])
    ensures InOrder(before)
  {
    assert forall i :: 0 <= i < |before| ==> (before + [a])[i] == before[i];
  }

  lemma HistoryNext(l: Limits, before: seq<Attempt>, a: Attempt, who: Who)
    ensures var h := HistoryOf(l, before, who);
            HistoryOf(l, before + [a], who).failures ==
            if !Concerns(a, who) || !Allowed(Run(l, EMPTY, before), a.ip, a.username, a.checked) then h.failures
            else if a.genuine then [] else h.failures + [a.recorded]
  {
    assert (before + [a])[..|before|] == before && (before + [a])[|before|] == a;
  }

  lemma AttemptKeepsSpacing(l: Limits, before: seq<Attempt>, a: Attempt, who: Who)
    requires InOrder(before + [a]) && InOrder(before) && l.maxAttempts >= 1 && l.lockout > l.window
    requires Spaced(l, HistoryOf(l, before, who).failures)
    ensures Spaced(l, HistoryOf(l, before + [a], who).failures)
  {
    assert (before + [a])[|before|] == a;
    HistoryNext(l, before, a, who);
    var h, t := HistoryOf(l, before, who), Run(l, EMPTY, before);
    if Concerns(a, who) && Allowed(t, a.ip, a.username, a.checked) && !a.genuine {
      TablesShowHistory(l, before, who);
      LastIsPast(l, before, a, who);
      FailureKeepsSpacing(l, h, BucketOf(t, who), LockOf(t, who), a.recorded);
    }
  }

  /** No closed window holds more than the limit of evaluated failures, for anybody, ever. */
  ghost predicate Enforces(l: Limits, attempts: seq<Attempt>) {
    forall who: Who, from: int, to: int :: to - from <= l.window ==>
      CountIn(HistoryOf(l, attempts, who).failures, from, to) <= l.maxAttempts
  }

  lemma WindowEnforced(l: Limits, attempts: seq<Attempt>)
    requires InOrder(attempts) && l.maxAttempts >= 1 && l.lockout > l.window
    ensures Enforces(l, attempts)
  {
    forall who: Who, from: int, to: int | to - from <= l.window
      ensures CountIn(HistoryOf(l, attempts, who).failures, from, to) <= l.maxAttempts
    {
      RunsAreSpaced(l, attempts, who);
      TablesShowHistory(l, attempts, who);
      SpacedMeansWindowed(l, HistoryOf(l, attempts, who).failures, from, to);
    }
  }

  /** Over any span D, at most the limit times (D / window + 1) failures are evaluated. */
  lemma SpanEnforced(l: Limits, attempts: seq<Attempt>, who: Who, from: int, span: nat)
    requires InOrder(attempts) && l.maxAttempts >= 1 && l.lockout > l.window > 0
    ensures CountIn(HistoryOf(l, attempts, who).failures, from, from + span) <= l.maxAttempts * (span / l.window + 1)
  {
    RunsAreSpaced(l, attempts, who);
    TablesShowHistory(l, attempts, who);
    SpacedOverSpan(l, HistoryOf(l, attempts, who).failures, from, span);
  }

  // ----- Exactly when the window is enforced -----

  /** The same wrong login, k times at one moment. */
  function Burst(a: Attempt, k: nat): seq<Attempt> {
    if k == 0 then [] else Burst(a, k - 1) + [a]
  }

  function Repeat(x: int, k: nat): (r: seq<int>)
    ensures |r| == k
  {
    if k == 0 then [] else Repeat(x, k - 1) + [x]
  }

  predicate WrongLogin(a: Attempt) {
    !a.genuine && 0 <= a.checked == a.recorded
  }

  lemma {:induction false} BurstInOrder(a: Attempt, k: nat)
    requires WrongLogin(a)
    ensures |Burst(a, k)| == k && forall i :: 0 <= i < k ==> Burst(a, k)[i] == a
    ensures InOrder(Burst(a, k))
  {
    if k > 0 { BurstInOrder(a, k - 1); }
  }

  lemma {:induction false} RepeatIs(x: int, k: nat, window: nat, to: int)
    requires x <= to
    ensures Within(Repeat(x, k), x, window) == Repeat(x, k)
    ensures CountIn(Repeat(x, k), x, to) == k
    ensures k > 0 ==> Repeat(x, k)[k - 1] == x
  {
    if k > 0 {
      RepeatIs(x, k - 1, window, to);
      assert Repeat(x, k)[..k - 1] == Repeat(x, k - 1);
    }
  }

  function AfterBurst(l: Limits, x: int, k: nat): (h: History)
    ensures h.cleared <= |h.failures|
  {
    History(Repeat(x, k), if k == l.maxAttempts then k else 0)
  }

  /** One more failure of a burst: only the last one clears. */
  lemma RecordAgain(l: Limits, x: int, k: nat)
    requires k < l.maxAttempts
    ensures Record(l, AfterBurst(l, x, k), x) == AfterBurst(l, x, k + 1)
  {
    RepeatIs(x, k, l.window, x);
    var h := AfterBurst(l, x, k);
    assert Open(h) == h.failures;
    if k + 1 >= l.maxAttempts { RecordTrips(l, h, x); } else { RecordStays(l, h, x); }
  }

  predicate Has(l: Limits, attempts: seq<Attempt>, who: Who, h: History) {
    HistoryOf(l, attempts, who) == h && h.cleared <= |h.failures|
  }

  /** Both keys of a have the history h. */
  predicate Both(l: Limits, attempts: seq<Attempt>, a: Attempt, h: History) {
    Has(l, attempts, Address(a.ip), h) && Has(l, attempts, User(a.username), h)
  }

  lemma LockShown(l: Limits, attempts: seq<Attempt>, who: Who, h: History)
    requires InOrder(attempts) && Has(l, attempts, who, h)
    ensures LockOf(Run(l, EMPTY, attempts), who) == LockFor(l, h)
  {
    TablesShowHistory(l, attempts, who);
  }

  /** A wrong login whose keys' lockouts are over is recorded under both. */
  lemma BothRecorded(l: Limits, before: seq<Attempt>, a: Attempt, h: History)
    requires InOrder(before) && Both(l, before, a, h) && !a.genuine
    requires LockFor(l, h) <= a.checked
    ensures Both(l, before + [a], a, Record(l, h, a.recorded))
  {
    LockShown(l, before, Address(a.ip), h);
    LockShown(l, before, User(a.username), h);
    FailureIsRecorded(l, before, a, Address(a.ip));
    FailureIsRecorded(l, before, a, User(a.username));
  }

  predicate BurstKnown(l: Limits, a: Attempt, k: nat)
    requires l.maxAttempts >= 1
  {
    Both(l, Burst(a, k), a, AfterBurst(l, a.recorded, k))
  }

  lemma BurstGrows(l: Limits, a: Attempt, k: nat, next: nat)
    requires WrongLogin(a) && k < l.maxAttempts && next == k + 1 && BurstKnown(l, a, k)
    ensures BurstKnown(l, a, next)
  {
    BurstInOrder(a, k);
    BothRecorded(l, Burst(a, k), a, AfterBurst(l, a.recorded, k));
    RecordAgain(l, a.recorded, k);
    assert Burst(a, k + 1) == Burst(a, k) + [a];
  }

  lemma BurstStarts(l: Limits, a: Attempt)
    requires l.maxAttempts >= 1
    ensures BurstKnown(l, a, 0)
  {
  }

  lemma {:induction false} BurstHistory(l: Limits, a: Attempt, k: nat)
    requires WrongLogin(a) && k <= l.maxAttempts && l.maxAttempts >= 1
    ensures BurstKnown(l, a, k)
  {
    if k == 0 {
      BurstStarts(l, a);
    } else {
      BurstHistory(l, a, k - 1);
      BurstGrows(l, a, k - 1, k);
    }
  }

  lemma CountAppend(s: seq<int>, x: int, from: int, to: int)
    ensures CountIn(s + [x], from, to) == CountIn(s, from, to) + (if from <= x <= to then 1 else 0)
  {
    assert (s + [x])[..|s|] == s;
  }

  lemma RecordAdds(l: Limits, h: History, now: int, from: int, to: int)
    requires h.cleared <= |h.failures| && from <= now <= to
    ensures CountIn(Record(l, h, now).failures, from, to) == CountIn(h.failures, from, to) + 1
  {
    CountAppend(h.failures, now, from, to);
  }

  lemma InOrderAppend(attempts: seq<Attempt>, b: Attempt)
    requires InOrder(attempts) && 0 <= b.checked <= b.recorded
    requires forall i :: 0 <= i < |attempts| ==> attempts[i].recorded <= b.checked
    ensures InOrder(attempts + [b])
  {
  }

  predicate Followup(l: Limits, a: Attempt, b: Attempt) {
    && WrongLogin(a) && WrongLogin(b) && a.ip == b.ip && a.username == b.username
    && l.maxAttempts >= 1 && a.recorded <= b.checked <= a.recorded + l.window
    && a.recorded + l.lockout <= b.checked
  }

  lemma FollowupInOrder(l: Limits, a: Attempt, b: Attempt)
    requires Followup(l, a, b)
    ensures InOrder(Burst(a, l.maxAttempts) + [b])
  {
    BurstInOrder(a, l.maxAttempts);
    InOrderAppend(Burst(a, l.maxAttempts), b);
  }

  lemma FollowupRecorded(l: Limits, a: Attempt, b: Attempt)
    requires Followup(l, a, b)
    ensures Both(l, Burst(a, l.maxAttempts) + [b], b, Record(l, AfterBurst(l, a.recorded, l.maxAttempts), b.recorded))
  {
    BurstInOrder(a, l.maxAttempts);
    BurstHistory(l, a, l.maxAttempts);
    RepeatIs(a.recorded, l.maxAttempts, l.window, a.recorded);
    BothRecorded(l, Burst(a, l.maxAttempts), b, AfterBurst(l, a.recorded, l.maxAttempts));
  }

  lemma BurstOverflows(l: Limits, a: Attempt, b: Attempt)
    requires Followup(l, a, b)
    ensures !Enforces(l, Burst(a, l.maxAttempts) + [b])
  {
    var h := AfterBurst(l, a.recorded, l.maxAttempts);
    RepeatIs(a.recorded, l.maxAttempts, l.window, a.recorded + l.window);
    FollowupRecorded(l, a, b);
    Overflows(l, Burst(a, l.maxAttempts) + [b], Address(b.ip), h, b.recorded, a.recorded);
  }

  lemma Overflows(l: Limits, attempts: seq<Attempt>, who: Who, h: History, now: int, from: int)
    requires h.cleared <= |h.failures| && from <= now <= from + l.window
    requires Has(l, attempts, who, Record(l, h, now)) && CountIn(h.failures, from, from + l.window) == l.maxAttempts
    ensures !Enforces(l, attempts)
  {
    RecordAdds(l, h, now, from, from + l.window);
    assert CountIn(HistoryOf(l, attempts, who).failures, from, from + l.window) > l.maxAttempts;
  }

  /** A lockout that is over within the window lets one more attempt in: the limit at one moment,
      and one as soon as the lockout is over. */
  lemma ShortLockoutLeaks(l: Limits)
    requires l.maxAttempts >= 1 && l.lockout <= l.window
    ensures exists attempts :: InOrder(attempts) && !Enforces(l, attempts)
  {
    var a := Attempt("192.0.2.1", "admin", false, 0, 0);
    var later := if l.lockout > 0 then l.lockout else 0;
    var b := Attempt("192.0.2.1", "admin", false, later, later);
    FollowupInOrder(l, a, b);
    BurstOverflows(l, a, b);
  }

  lemma NoAllowanceLeaks(l: Limits)
    requires l.maxAttempts < 1
    ensures exists attempts :: InOrder(attempts) && !Enforces(l, attempts)
  {
    var a := Attempt("192.0.2.1", "admin", false, 0, 0);
    var who := Address(a.ip);
    FailureIsRecorded(l, [], a, who);
    CountAppend([], a.recorded, 0, 0);
    assert CountIn(HistoryOf(l, [] + [a], who).failures, 0, 0) == 1;
    assert InOrder([] + [a]);
  }

  /** The settings enforce the window in every run exactly when they allow an attempt at all and
      lock out for longer than the window. */
  lemma EnforcedIff(l: Limits)
    ensures (forall attempts: seq<Attempt> :: InOrder(attempts) ==> Enforces(l, attempts))
       <==> l.maxAttempts >= 1 && l.lockout > l.window
  {
    if l.maxAttempts < 1 {
      NoAllowanceLeaks(l);
    } else if l.lockout <= l.window {
      ShortLockoutLeaks(l);
    } else {
      forall attempts: seq<Attempt> | InOrder(attempts) ensures Enforces(l, attempts) {
        WindowEnforced(l, attempts);
      }
    }
  }
}

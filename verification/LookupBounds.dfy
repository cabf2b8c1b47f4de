/** Whole-run theorems about the lookup limiter. A run is any sequence of calls; keys, rejections
    and evictions are arbitrary, and each theorem asks only the clock it depends on to be
    non-decreasing. */
module LookupBounds {
  import opened Common
  import opened Windows
  import opened TokenBucket
  import opened LookupLimiter

  datatype Call = Call(key: Key, wall: int, mono: int)

  predicate WallOrdered(calls: seq<Call>, wall: int)
    decreases |calls|
  {
    calls == [] || (wall <= calls[0].wall && WallOrdered(calls[1..], calls[0].wall))
  }

  predicate MonoOrdered(calls: seq<Call>, mono: int)
    decreases |calls|
  {
    calls == [] || (mono <= calls[0].mono && MonoOrdered(calls[1..], calls[0].mono))
  }

  ghost function After(cfg: Config, s: State, calls: seq<Call>): State
    decreases |calls|
  {
    if calls == [] then s
    else After(cfg, Step(cfg, s, calls[0].key, calls[0].wall, calls[0].mono).0, calls[1..])
  }

  datatype Who = Anyone | Only(key: Key)

  predicate Counts(who: Who, key: Key) { who.Only? ==> who.key == key }

  /** How many of the calls by `who` are admitted. */
  ghost function Admits(cfg: Config, s: State, calls: seq<Call>, who: Who): nat
    decreases |calls|
  {
    if calls == [] then 0
    else
      var c := calls[0];
      var (s', d) := Step(cfg, s, c.key, c.wall, c.mono);
      (if d.Allowed? && Counts(who, c.key) then 1 else 0) + Admits(cfg, s', calls[1..], who)
  }

  lemma {:induction false} RunKeepsBucket(cfg: Config, s: State, calls: seq<Call>, rest: seq<Call>, mono: int)
    requires BucketInv(cfg, s, mono) && MonoOrdered(calls + rest, mono)
    ensures exists m :: BucketInv(cfg, After(cfg, s, calls), m) && MonoOrdered(rest, m)
    decreases |calls|
  {
    if calls == [] {
      assert calls + rest == rest;
      assert BucketInv(cfg, After(cfg, s, calls), mono) && MonoOrdered(rest, mono);
    } else {
      var c := calls[0];
      assert (calls + rest)[0] == c && (calls + rest)[1..] == calls[1..] + rest;
      StepKeepsBucket(cfg, s, c.key, c.wall, c.mono);
      RunKeepsBucket(cfg, Step(cfg, s, c.key, c.wall, c.mono).0, calls[1..], rest, c.mono);
    }
  }

  lemma {:induction false} RunKeepsWindows(cfg: Config, s: State, calls: seq<Call>, rest: seq<Call>, wall: int)
    requires WindowsInv(cfg, s, wall) && WallOrdered(calls + rest, wall)
    ensures exists w :: WindowsInv(cfg, After(cfg, s, calls), w) && WallOrdered(rest, w)
    decreases |calls|
  {
    if calls == [] {
      assert calls + rest == rest;
      assert WindowsInv(cfg, After(cfg, s, calls), wall) && WallOrdered(rest, wall);
    } else {
      var c := calls[0];
      assert (calls + rest)[0] == c && (calls + rest)[1..] == calls[1..] + rest;
      StepKeepsWindows(cfg, s, c.key, c.wall, c.mono);
      RunKeepsWindows(cfg, Step(cfg, s, c.key, c.wall, c.mono).0, calls[1..], rest, c.wall);
    }
  }

  lemma {:induction false} RunKeepsCap(cfg: Config, s: State, calls: seq<Call>)
    requires CapInv(cfg, s)
    ensures CapInv(cfg, After(cfg, s, calls))
    decreases |calls|
  {
    if calls != [] {
      var c := calls[0];
      StepKeepsCap(cfg, s, c.key, c.wall, c.mono);
      RunKeepsCap(cfg, Step(cfg, s, c.key, c.wall, c.mono).0, calls[1..]);
    }
  }

  /** A state met by a call of a run keeps the invariant at that call's times. */
  lemma ReachedInv(cfg: Config, start: int, wall: int, calls: seq<Call>, c: Call)
    requires WallOrdered(calls + [c], wall) && MonoOrdered(calls + [c], start)
    ensures Inv(cfg, After(cfg, Initial(cfg, start), calls), c.wall, c.mono)
  {
    RunKeepsBucket(cfg, Initial(cfg, start), calls, [c], start);
    RunKeepsWindows(cfg, Initial(cfg, start), calls, [c], wall);
    RunKeepsCap(cfg, Initial(cfg, start), calls);
  }

  // ---------------------------------------------------------------- the global rate

  /** Credit the bucket would hold if it were refilled at `t`. */
  function CreditAt(cfg: Config, s: State, t: int): nat { Credit(Refill(s.bucket, t, cfg.rate, cfg.burst)) }

  lemma StepSpendsCredit(cfg: Config, s: State, c: Call)
    requires TokenBucket.Valid(s.bucket, cfg.burst) && s.bucket.last <= c.mono
    ensures var (s', d) := Step(cfg, s, c.key, c.wall, c.mono);
      && TokenBucket.Valid(s'.bucket, cfg.burst) && s'.bucket.last <= c.mono
      && CreditAt(cfg, s', c.mono) + (if d.Allowed? then SECOND else 0) == CreditAt(cfg, s, c.mono)
  {
    var (s', _) := Step(cfg, s, c.key, c.wall, c.mono);
    RefillAddsCredit(s.bucket, c.mono, cfg.rate, cfg.burst);
    if s'.bucket != s.bucket { RefillNow(s'.bucket, cfg.rate, cfg.burst); }
  }

  lemma CreditGrows(cfg: Config, s: State, t: int, t': int)
    requires TokenBucket.Valid(s.bucket, cfg.burst) && s.bucket.last <= t <= t'
    ensures CreditAt(cfg, s, t') <= CreditAt(cfg, s, t) + (t' - t) * cfg.rate
  {
    RefillAddsCredit(s.bucket, t, cfg.rate, cfg.burst);
    RefillAddsCredit(s.bucket, t', cfg.rate, cfg.burst);
    Accrual(s.bucket.last, t, t', cfg.rate);
  }

  lemma CallCostsCredit(cfg: Config, s: State, c: Call, t: int)
    requires TokenBucket.Valid(s.bucket, cfg.burst) && s.bucket.last <= t <= c.mono
    ensures var (s', d) := Step(cfg, s, c.key, c.wall, c.mono);
      && TokenBucket.Valid(s'.bucket, cfg.burst) && s'.bucket.last <= c.mono
      && CreditAt(cfg, s', c.mono) + (if d.Allowed? then SECOND else 0) <= CreditAt(cfg, s, t) + (c.mono - t) * cfg.rate
  {
    StepSpendsCredit(cfg, s, c);
    CreditGrows(cfg, s, t, c.mono);
  }

  /** The potential argument: tokens spent never exceed the credit at the start plus the credit
      earned since. */
  lemma {:induction false} AdmissionsCostCredit(cfg: Config, s: State, calls: seq<Call>, t: int, end: int)
    requires TokenBucket.Valid(s.bucket, cfg.burst) && s.bucket.last <= t <= end
    requires MonoOrdered(calls, t)
    requires forall i :: 0 <= i < |calls| ==> calls[i].mono <= end
    ensures Admits(cfg, s, calls, Anyone) * SECOND <= CreditAt(cfg, s, t) + (end - t) * cfg.rate
    decreases |calls|
  {
    if calls == [] {
      Accrual(t, t, end, cfg.rate);
    } else {
      var c := calls[0];
      CallCostsCredit(cfg, s, c, t);
      var (s', d) := Step(cfg, s, c.key, c.wall, c.mono);
      AdmissionsCostCredit(cfg, s', calls[1..], c.mono, end);
      Accrual(t, c.mono, end, cfg.rate);
      CostsAdd(if d.Allowed? then 1 else 0, Admits(cfg, s', calls[1..], Anyone), CreditAt(cfg, s, t),
               CreditAt(cfg, s', c.mono), (c.mono - t) * cfg.rate, (end - c.mono) * cfg.rate);
    }
  }

  lemma CostsAdd(first: nat, rest: nat, before: nat, after: nat, earned: nat, later: nat)
    requires after + first * SECOND <= before + earned && rest * SECOND <= after + later
    ensures (first + rest) * SECOND <= before + (earned + later)
  {}

  lemma WholeTokens(admitted: nat, burst: nat, earned: nat)
    requires admitted * SECOND <= burst * SECOND + earned
    ensures admitted <= burst + earned / SECOND
  {}

  /** Global rate bound. In any run of the limiter, however its wall clock jumps, any stretch of
      calls inside the monotonic span [from, to] admits at most burst + floor(rate * (to - from) / 1e9). */
  lemma GlobalRateBound(cfg: Config, start: int, before: seq<Call>, span: seq<Call>, from: int, to: int)
    requires MonoOrdered(before + span, start)
    requires from <= to && forall i :: 0 <= i < |span| ==> from <= span[i].mono <= to
    ensures Admits(cfg, After(cfg, Initial(cfg, start), before), span, Anyone)
         <= cfg.burst + (to - from) * cfg.rate / SECOND
  {
    assert (to - from) * cfg.rate >= 0;
    if span != [] {
      RunKeepsBucket(cfg, Initial(cfg, start), before, span, start);
      var s := After(cfg, Initial(cfg, start), before);
      var m :| BucketInv(cfg, s, m) && MonoOrdered(span, m);
      var t := span[0].mono;
      AdmissionsCostCredit(cfg, s, span, t, to);
      RefillAddsCredit(s.bucket, t, cfg.rate, cfg.burst);
      Accrual(from, t, to, cfg.rate);
      WholeTokens(Admits(cfg, s, span, Anyone), cfg.burst, (to - from) * cfg.rate);
    }
  }

  // ---------------------------------------------------------------- the per-key quota

  /** Admissions of `key` still possible in the wall-clock span that starts at `from` and lasts
      one window: a window opened inside the span outlives it, one opened before may run out and
      be replaced once. */
  function Headroom(cfg: Config, s: State, key: Key, from: int): int {
    if key !in s.windows then Quota(cfg)
    else (Quota(cfg) - s.windows[key].count) + (if s.windows[key].startedAt >= from then 0 else Quota(cfg))
  }

  lemma StepSpendsHeadroom(cfg: Config, s: State, c: Call, key: Key, from: int)
    requires WindowsInv(cfg, s, c.wall)
    requires from <= c.wall < from + cfg.windowSeconds * SECOND
    ensures var (s', d) := Step(cfg, s, c.key, c.wall, c.mono);
      Headroom(cfg, s', key, from) + (if d.Allowed? && c.key == key then 1 else 0) <= Headroom(cfg, s, key, from)
  {
    if key in s.windows {
      ExpiryIsExact(s.windows[key].startedAt, c.wall, cfg.windowSeconds);
    }
  }

  lemma {:induction false} AdmissionsCostHeadroom(cfg: Config, s: State, calls: seq<Call>, key: Key, wall: int,
                                                  from: int)
    requires WindowsInv(cfg, s, wall) && WallOrdered(calls, wall)
    requires forall i :: 0 <= i < |calls| ==> from <= calls[i].wall < from + cfg.windowSeconds * SECOND
    ensures Admits(cfg, s, calls, Only(key)) <= Headroom(cfg, s, key, from)
    decreases |calls|
  {
    if calls != [] {
      var c := calls[0];
      StepKeepsWindows(cfg, s, c.key, c.wall, c.mono);
      StepSpendsHeadroom(cfg, s, c, key, from);
      AdmissionsCostHeadroom(cfg, Step(cfg, s, c.key, c.wall, c.mono).0, calls[1..], key, c.wall, from);
    }
  }

  /** Per-key sliding bound. Any half-open wall-clock span one window long admits at most
      2 * quota - 1 calls of each key, although expired windows are evicted and re-created on the
      way: a window left over from before the span spent its opening admission there. */
  lemma PerKeySlidingBound(cfg: Config, start: int, wall: int, before: seq<Call>, span: seq<Call>, key: Key, from: int)
    requires WallOrdered(before + span, wall)
    requires forall i :: 0 <= i < |span| ==> from <= span[i].wall < from + cfg.windowSeconds * SECOND
    ensures Admits(cfg, After(cfg, Initial(cfg, start), before), span, Only(key)) <= 2 * Quota(cfg) - 1
  {
    RunKeepsWindows(cfg, Initial(cfg, start), before, span, wall);
    var s := After(cfg, Initial(cfg, start), before);
    var w :| WindowsInv(cfg, s, w) && WallOrdered(span, w);
    AdmissionsCostHeadroom(cfg, s, span, key, w, from);
  }

  /** A limit of zero is not a ban: the call that opens a window is admitted, and the next one of
      that key is refused until the window is over. */
  lemma ZeroLimitAdmitsOpeningCalls(cfg: Config, start: int, c: Call, c': Call)
    requires cfg.maxRequests == 0 && cfg.maxEntries >= 1 && cfg.burst >= 1
    requires c'.key == c.key && start <= c.mono && c.wall <= c'.wall < c.wall + cfg.windowSeconds * SECOND
    ensures Step(cfg, Initial(cfg, start), c.key, c.wall, c.mono).1 == Allowed
    ensures Step(cfg, After(cfg, Initial(cfg, start), [c]), c'.key, c'.wall, c'.mono).1.Rejected?
  {
    assert [c][1..] == [];
    ExpiryIsExact(c.wall, c'.wall, cfg.windowSeconds);
  }

  /** The map never holds more than `maxEntries` windows, after any calls at any times. */
  lemma EntryCapHolds(cfg: Config, start: int, calls: seq<Call>)
    ensures |After(cfg, Initial(cfg, start), calls).windows| <= cfg.maxEntries
  {
    RunKeepsCap(cfg, Initial(cfg, start), calls);
  }

  // ---------------------------------------------------------------- Retry-After

  /** An expired window stays expired. */
  lemma WaitExpires(startedAt: int, now: int, later: int, windowSeconds: nat)
    requires startedAt <= now
    requires later >= now + RetryAfterSeconds(startedAt, now, windowSeconds) * SECOND
    ensures Expired(startedAt, later, windowSeconds)
  {
    RetryAfterIsLeast(startedAt, now, windowSeconds, RetryAfterSeconds(startedAt, now, windowSeconds));
    ExpiryIsExact(startedAt, now + RetryAfterSeconds(startedAt, now, windowSeconds) * SECOND, windowSeconds);
    ExpiryIsExact(startedAt, later, windowSeconds);
  }

  /** Retry-After is a promise. Whichever of the three checks rejected the call (entry cap, full
      window, empty bucket), the same key retried after the advertised seconds on both clocks,
      with no call in between, is admitted. */
  lemma RetryAfterIsAPromise(cfg: Config, s: State, key: Key, wall: int, mono: int, wall': int, mono': int)
    requires cfg.maxEntries >= 1 && cfg.rate >= 1 && cfg.burst >= 1
    requires Inv(cfg, s, wall, mono)
    requires Step(cfg, s, key, wall, mono).1.Rejected?
    requires var r := Step(cfg, s, key, wall, mono).1.retryAfterSeconds;
             wall' >= wall + r * SECOND && mono' >= mono + r * SECOND
    ensures Step(cfg, s, key, wall, mono).1.retryAfterSeconds >= 1
    ensures Step(cfg, Step(cfg, s, key, wall, mono).0, key, wall', mono').1 == Allowed
  {
    var (s', d) := Step(cfg, s, key, wall, mono);
    var ws := Evicted(cfg, s, key, wall);
    StepKeepsInv(cfg, s, key, wall, mono);
    if AtCapacity(cfg, ws, key) {
      assert ws != map[];
      var k :| k in ws && d.retryAfterSeconds == RetryAfterSeconds(ws[k].startedAt, wall, cfg.windowSeconds);
      WaitExpires(ws[k].startedAt, wall, wall', cfg.windowSeconds);
      RetainShrinks(ws, wall', cfg.windowSeconds);
      assert !AtCapacity(cfg, Evicted(cfg, s', key, wall'), key);
    } else if WindowFull(cfg, ws, key, wall) {
      WaitExpires(ws[key].startedAt, wall, wall', cfg.windowSeconds);
    } else {
      if key in ws {
        ExpiryIsExact(ws[key].startedAt, wall, cfg.windowSeconds);
        ExpiryIsExact(ws[key].startedAt, wall', cfg.windowSeconds);
      }
    }
    assert !AtCapacity(cfg, Evicted(cfg, s', key, wall'), key);
    assert !WindowFull(cfg, Evicted(cfg, s', key, wall'), key, wall');
    OneSecondBuysAToken(s'.bucket, mono', cfg.rate, cfg.burst);
  }

  /** The wait is also the least one: before it is over, a call the window or the entry cap
      rejected is rejected again, whatever the bucket holds. */
  lemma RetryTooEarlyIsRejected(cfg: Config, s: State, key: Key, wall: int, mono: int, wait: nat, mono': int)
    requires cfg.maxEntries >= 1 && Inv(cfg, s, wall, mono)
    requires var ws := Evicted(cfg, s, key, wall); AtCapacity(cfg, ws, key) || WindowFull(cfg, ws, key, wall)
    requires wait < Step(cfg, s, key, wall, mono).1.retryAfterSeconds
    ensures Step(cfg, Step(cfg, s, key, wall, mono).0, key, wall + wait * SECOND, mono').1.Rejected?
  {
    var ws := Evicted(cfg, s, key, wall);
    if AtCapacity(cfg, ws, key) {
      forall k | k in ws ensures !Expired(ws[k].startedAt, wall + wait * SECOND, cfg.windowSeconds) {
        RetryAfterIsLeast(ws[k].startedAt, wall, cfg.windowSeconds, wait);
      }
      assert Retain(ws, wall + wait * SECOND, cfg.windowSeconds) == ws;
    } else {
      RetryAfterIsLeast(ws[key].startedAt, wall, cfg.windowSeconds, wait);
    }
  }
}

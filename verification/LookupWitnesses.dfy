/** Runs of the lookup limiter that reach the bounds of `LookupBounds`, and the exact condition
    under which it keeps its `Retry-After` promises. */
module LookupWitnesses {
  import opened Common
  import opened Windows
  import opened TokenBucket
  import opened LookupLimiter
  import opened LookupBounds

  // ---------------------------------------------------------------- the per-key bound is attained

  /** `n` equal calls. */
  function Repeat(c: Call, n: nat): (r: seq<Call>)
    ensures |r| == n && forall i :: 0 <= i < n ==> r[i] == c
  {
    seq(n, _ => c)
  }

  lemma AdmittedStep(cfg: Config, s: State, c: Call)
    requires c.key in s.windows && (Expired(s.windows[c.key].startedAt, c.wall, cfg.windowSeconds)
                                    || s.windows[c.key].count < cfg.maxRequests)
    requires s.bucket.last == c.mono && s.bucket.remainder == 0 && 0 < s.bucket.tokens < cfg.burst
    ensures Step(cfg, s, c.key, c.wall, c.mono)
         == (State(s.windows[c.key := Charged(cfg, s.windows, c.key, c.wall)],
                   s.bucket.(tokens := s.bucket.tokens - 1)),
             Allowed)
  {
    var e := Elapsed(s.bucket.last, c.mono);
    assert e * cfg.rate == 0 by { assert e == 0; }
    assert Refill(s.bucket, c.mono, cfg.rate, cfg.burst) == s.bucket;
  }

  function Spent(s: State, key: Key, n: nat): State
    requires key in s.windows && n <= s.bucket.tokens
  {
    var w := s.windows[key];
    State(s.windows[key := Window(w.startedAt, w.count + n)], s.bucket.(tokens := s.bucket.tokens - n))
  }

  lemma SpentAdds(s: State, key: Key, n: nat)
    requires key in s.windows && n + 1 <= s.bucket.tokens
    ensures Spent(Spent(s, key, 1), key, n) == Spent(s, key, n + 1)
  {
    assert Spent(Spent(s, key, 1), key, n).windows == Spent(s, key, n + 1).windows;
  }

  lemma AdmitsFirst(cfg: Config, s: State, c: Call, rest: seq<Call>)
    requires c.key in s.windows && !Expired(s.windows[c.key].startedAt, c.wall, cfg.windowSeconds)
    requires s.windows[c.key].count < cfg.maxRequests
    requires s.bucket.last == c.mono && s.bucket.remainder == 0 && 0 < s.bucket.tokens < cfg.burst
    ensures Admits(cfg, s, [c] + rest, Only(c.key)) == 1 + Admits(cfg, Spent(s, c.key, 1), rest, Only(c.key))
  {
    AdmittedStep(cfg, s, c);
    assert ([c] + rest)[1..] == rest;
  }

  /** Equal calls inside a window with room left for all of them, at a bucket holding a token for
      each, are all admitted. */
  lemma {:induction false} RepeatIsAdmitted(cfg: Config, s: State, c: Call, n: nat, rest: seq<Call>)
    requires c.key in s.windows && !Expired(s.windows[c.key].startedAt, c.wall, cfg.windowSeconds)
    requires s.windows[c.key].count + n <= cfg.maxRequests
    requires s.bucket.last == c.mono && s.bucket.remainder == 0 && n <= s.bucket.tokens < cfg.burst
    ensures Admits(cfg, s, Repeat(c, n) + rest, Only(c.key)) == n + Admits(cfg, Spent(s, c.key, n), rest, Only(c.key))
    decreases n
  {
    if n == 0 {
      assert Repeat(c, n) + rest == rest;
      assert Spent(s, c.key, 0).windows == s.windows;
    } else {
      assert Repeat(c, n) + rest == [c] + (Repeat(c, n - 1) + rest);
      AdmitsFirst(cfg, s, c, Repeat(c, n - 1) + rest);
      RepeatIsAdmitted(cfg, Spent(s, c.key, 1), c, n - 1, rest);
      SpentAdds(s, c.key, n - 1);
    }
  }

  /** One call at time 0 opens the window. */
  function Opened(cfg: Config, key: Key): State
    requires cfg.burst >= 1
  {
    State(map[key := Window(0, 1)], Bucket(cfg.burst - 1, 0, 0))
  }

  lemma OpeningCall(cfg: Config, key: Key)
    requires cfg.maxRequests >= 1 && cfg.maxEntries >= 1 && cfg.burst >= 1
    ensures After(cfg, Initial(cfg, 0), [Call(key, 0, 0)]) == Opened(cfg, key)
  {
    assert [Call(key, 0, 0)][1..] == [];
    assert Step(cfg, Initial(cfg, 0), key, 0, 0).0 == Opened(cfg, key);
  }

  /** A window that has run out is replaced by one that takes a full quota. */
  lemma ReplacedWindowFills(cfg: Config, s: State, late: Call)
    requires cfg.maxRequests >= 1 && cfg.windowSeconds >= 1 && late.key in s.windows
    requires Expired(s.windows[late.key].startedAt, late.wall, cfg.windowSeconds)
    requires s.bucket.last == late.mono && s.bucket.remainder == 0 && cfg.maxRequests <= s.bucket.tokens < cfg.burst
    ensures Admits(cfg, s, Repeat(late, cfg.maxRequests), Only(late.key)) == cfg.maxRequests
  {
    var m := cfg.maxRequests;
    AdmittedStep(cfg, s, late);
    assert Repeat(late, m)[1..] == Repeat(late, m - 1) + [];
    ExpiryIsExact(late.wall, late.wall, cfg.windowSeconds);
    RepeatIsAdmitted(cfg, Step(cfg, s, late.key, late.wall, late.mono).0, late, m - 1, []);
  }

  lemma SpanInWindow(cfg: Config, key: Key)
    requires cfg.maxRequests >= 1 && cfg.windowSeconds >= 1
    ensures var span := Repeat(Call(key, 1, 0), cfg.maxRequests - 1)
                      + Repeat(Call(key, cfg.windowSeconds * SECOND, 0), cfg.maxRequests);
      forall i :: 0 <= i < |span| ==> 1 <= span[i].wall < 1 + cfg.windowSeconds * SECOND
  {}

  /** The per-key bound is attained: one call at time 0 opens a window, and the span that starts one
      nanosecond later admits 2 * maxRequests - 1 calls of the same key. */
  lemma PerKeySlidingBoundIsTight(cfg: Config, key: Key)
    requires cfg.maxRequests >= 1 && cfg.maxEntries >= 1 && cfg.windowSeconds >= 1 && cfg.burst >= 2 * cfg.maxRequests
    ensures var span := Repeat(Call(key, 1, 0), cfg.maxRequests - 1)
                      + Repeat(Call(key, cfg.windowSeconds * SECOND, 0), cfg.maxRequests);
      && (forall i :: 0 <= i < |span| ==> 1 <= span[i].wall < 1 + cfg.windowSeconds * SECOND)
      && Admits(cfg, After(cfg, Initial(cfg, 0), [Call(key, 0, 0)]), span, Only(key)) == 2 * Quota(cfg) - 1
  {
    var m, late := cfg.maxRequests, Call(key, cfg.windowSeconds * SECOND, 0);
    SpanInWindow(cfg, key);
    OpeningCall(cfg, key);
    ExpiryIsExact(0, 1, cfg.windowSeconds);
    RepeatIsAdmitted(cfg, Opened(cfg, key), Call(key, 1, 0), m - 1, Repeat(late, m));
    ExpiryIsExact(0, late.wall, cfg.windowSeconds);
    ReplacedWindowFills(cfg, Spent(Opened(cfg, key), key, m - 1), late);
  }

  // ---------------------------------------------------------------- draining the bucket

  /** `n` calls of one key at the monotonic time `mono`, each a window after the last. */
  function Spaced(cfg: Config, key: Key, n: nat, t: int, mono: int): seq<Call> {
    if n == 0 then []
    else [Call(key, t, mono)] + Spaced(cfg, key, n - 1, t + cfg.windowSeconds * SECOND, mono)
  }

  function SpacedEnd(cfg: Config, n: nat, t: int): int {
    if n == 0 then t else SpacedEnd(cfg, n - 1, t + cfg.windowSeconds * SECOND)
  }

  lemma {:induction false} SpacedThen(cfg: Config, key: Key, n: nat, t: int, mono: int, rest: seq<Call>, from: int)
    requires from <= mono && MonoOrdered(rest, mono)
    ensures MonoOrdered(Spaced(cfg, key, n, t, mono) + rest, from)
    decreases n
  {
    var run := Spaced(cfg, key, n, t, mono) + rest;
    if n == 0 {
      assert run == rest;
    } else {
      SpacedThen(cfg, key, n - 1, t + cfg.windowSeconds * SECOND, mono, rest, mono);
      assert run[1..] == Spaced(cfg, key, n - 1, t + cfg.windowSeconds * SECOND, mono) + rest;
    }
  }

  lemma {:induction false} SpacedInstant(cfg: Config, key: Key, n: nat, t: int, mono: int)
    ensures forall c :: c in Spaced(cfg, key, n, t, mono) ==> c.mono == mono
    decreases n
  {
    if n > 0 { SpacedInstant(cfg, key, n - 1, t + cfg.windowSeconds * SECOND, mono); }
  }

  /** The bucket holds `n` tokens and the only window, if any, is that of `key`, over by `t`. */
  predicate Draining(cfg: Config, s: State, key: Key, n: nat, t: int) {
    && TokenBucket.Valid(s.bucket, cfg.burst) && s.bucket.tokens == n
    && (forall k :: k in s.windows ==> k == key && Expired(s.windows[k].startedAt, t, cfg.windowSeconds))
  }

  lemma DrainStep(cfg: Config, s: State, key: Key, n: nat, t: int)
    requires cfg.maxEntries >= 1 && n >= 1 && Draining(cfg, s, key, n, t)
    ensures var (s', d) := Step(cfg, s, key, t, s.bucket.last);
      && d == Allowed && s'.bucket == s.bucket.(tokens := n - 1)
      && Draining(cfg, s', key, n - 1, t + cfg.windowSeconds * SECOND)
  {
    RefillNow(s.bucket, cfg.rate, cfg.burst);
    if key !in s.windows { assert s.windows == map[]; }
    ExpiryIsExact(t, t + cfg.windowSeconds * SECOND, cfg.windowSeconds);
  }

  /** Spaced calls at one instant spend every token ... */
  lemma {:induction false} SpacedDrains(cfg: Config, s: State, key: Key, n: nat, t: int)
    requires cfg.maxEntries >= 1 && Draining(cfg, s, key, n, t)
    ensures var s' := After(cfg, s, Spaced(cfg, key, n, t, s.bucket.last));
      Draining(cfg, s', key, 0, SpacedEnd(cfg, n, t)) && s'.bucket == s.bucket.(tokens := 0)
    decreases n
  {
    if n > 0 {
      DrainStep(cfg, s, key, n, t);
      SpacedDrains(cfg, Step(cfg, s, key, t, s.bucket.last).0, key, n - 1, t + cfg.windowSeconds * SECOND);
      assert Spaced(cfg, key, n, t, s.bucket.last)[1..]
          == Spaced(cfg, key, n - 1, t + cfg.windowSeconds * SECOND, s.bucket.last);
    }
  }

  /** ... and are all admitted. */
  lemma {:induction false} SpacedAdmitted(cfg: Config, s: State, key: Key, n: nat, t: int)
    requires cfg.maxEntries >= 1 && Draining(cfg, s, key, n, t)
    ensures Admits(cfg, s, Spaced(cfg, key, n, t, s.bucket.last), Anyone) == n
    decreases n
  {
    if n > 0 {
      DrainStep(cfg, s, key, n, t);
      SpacedAdmitted(cfg, Step(cfg, s, key, t, s.bucket.last).0, key, n - 1, t + cfg.windowSeconds * SECOND);
      assert Spaced(cfg, key, n, t, s.bucket.last)[1..]
          == Spaced(cfg, key, n - 1, t + cfg.windowSeconds * SECOND, s.bucket.last);
    }
  }

  // ---------------------------------------------------------------- the global rate is attained

  lemma {:induction false} RunsJoin(cfg: Config, s: State, xs: seq<Call>, ys: seq<Call>)
    ensures After(cfg, s, xs + ys) == After(cfg, After(cfg, s, xs), ys)
    ensures Admits(cfg, s, xs + ys, Anyone) == Admits(cfg, s, xs, Anyone) + Admits(cfg, After(cfg, s, xs), ys, Anyone)
    decreases |xs|
  {
    if xs == [] {
      assert xs + ys == ys;
    } else {
      var c := xs[0];
      assert (xs + ys)[0] == c && (xs + ys)[1..] == xs[1..] + ys;
      RunsJoin(cfg, Step(cfg, s, c.key, c.wall, c.mono).0, xs[1..], ys);
    }
  }

  /** A call that reaches the bucket finds it refilled. */
  lemma RefilledStep(cfg: Config, s: State, key: Key, n: nat, t: int, mono: int)
    requires cfg.maxEntries >= 1 && Draining(cfg, s, key, n, t)
    ensures var b := Refill(s.bucket, mono, cfg.rate, cfg.burst);
      && Draining(cfg, s.(bucket := b), key, b.tokens, t)
      && Step(cfg, s, key, t, mono) == Step(cfg, s.(bucket := b), key, t, mono)
      && (b.tokens == 0 ==> Step(cfg, s, key, t, mono) == (s.(bucket := b), Rejected(1)))
  {
    RefillAddsCredit(s.bucket, mono, cfg.rate, cfg.burst);
    RefillNow(Refill(s.bucket, mono, cfg.rate, cfg.burst), cfg.rate, cfg.burst);
    if key !in s.windows { assert s.windows == map[]; }
  }

  lemma StaysExpired(cfg: Config, s: State, key: Key, n: nat, t: int)
    requires Draining(cfg, s, key, n, t)
    ensures Draining(cfg, s, key, n, t + cfg.windowSeconds * SECOND)
  {
    if key in s.windows {
      ExpiryIsExact(s.windows[key].startedAt, t, cfg.windowSeconds);
      ExpiryIsExact(s.windows[key].startedAt, t + cfg.windowSeconds * SECOND, cfg.windowSeconds);
    }
  }

  /** How many calls to make at an instant: one per token, and one in vain if there is none. */
  function Tries(tokens: nat): nat { if tokens == 0 then 1 else tokens }

  /** An emptied bucket yields at `mono` what it has earned by then, and is empty again. */
  lemma InstantYields(cfg: Config, s: State, key: Key, t: int, mono: int)
    requires cfg.maxEntries >= 1 && Draining(cfg, s, key, 0, t)
    ensures var b := Refill(s.bucket, mono, cfg.rate, cfg.burst);
      var calls := Spaced(cfg, key, Tries(b.tokens), t, mono);
      && Admits(cfg, s, calls, Anyone) == b.tokens
      && After(cfg, s, calls).bucket == b.(tokens := 0)
      && Draining(cfg, After(cfg, s, calls), key, 0, SpacedEnd(cfg, Tries(b.tokens), t))
  {
    var b := Refill(s.bucket, mono, cfg.rate, cfg.burst);
    var calls := Spaced(cfg, key, Tries(b.tokens), t, mono);
    RefilledStep(cfg, s, key, 0, t, mono);
    if b.tokens == 0 {
      assert calls == [Call(key, t, mono)] && calls[1..] == [];
      StaysExpired(cfg, s.(bucket := b), key, 0, t);
    } else {
      SpacedDrains(cfg, s.(bucket := b), key, b.tokens, t);
      SpacedAdmitted(cfg, s.(bucket := b), key, b.tokens, t);
    }
  }

  /** Empty the bucket at `from`, then take at `to` everything earned in between. */
  function Greedy(cfg: Config, key: Key, from: int, to: int, earned: nat): seq<Call> {
    Spaced(cfg, key, cfg.burst, 0, from) + Spaced(cfg, key, Tries(earned), SpacedEnd(cfg, cfg.burst, 0), to)
  }

  lemma GreedyYields(cfg: Config, key: Key, from: int, to: int, earned: nat)
    requires cfg.maxEntries >= 1
    requires earned == Refill(Bucket(0, 0, from), to, cfg.rate, cfg.burst).tokens
    ensures Admits(cfg, Initial(cfg, from), Greedy(cfg, key, from, to, earned), Anyone) == cfg.burst + earned
  {
    var wall, drain := SpacedEnd(cfg, cfg.burst, 0), Spaced(cfg, key, cfg.burst, 0, from);
    SpacedAdmitted(cfg, Initial(cfg, from), key, cfg.burst, 0);
    SpacedDrains(cfg, Initial(cfg, from), key, cfg.burst, 0);
    InstantYields(cfg, After(cfg, Initial(cfg, from), drain), key, wall, to);
    RunsJoin(cfg, Initial(cfg, from), drain, Spaced(cfg, key, Tries(earned), wall, to));
  }

  lemma GreedyOrdered(cfg: Config, key: Key, from: int, to: int, earned: nat)
    requires from <= to
    ensures MonoOrdered(Greedy(cfg, key, from, to, earned), from)
    ensures forall c :: c in Greedy(cfg, key, from, to, earned) ==> from <= c.mono <= to
  {
    var wall := SpacedEnd(cfg, cfg.burst, 0);
    var last := Spaced(cfg, key, Tries(earned), wall, to);
    SpacedInstant(cfg, key, cfg.burst, 0, from);
    SpacedInstant(cfg, key, Tries(earned), wall, to);
    assert last + [] == last;
    SpacedThen(cfg, key, Tries(earned), wall, to, [], from);
    SpacedThen(cfg, key, cfg.burst, 0, from, last, from);
  }

  lemma EarnedSinceEmpty(cfg: Config, from: int, to: int)
    requires from <= to && (to - from) * cfg.rate < cfg.burst * SECOND
    ensures Refill(Bucket(0, 0, from), to, cfg.rate, cfg.burst).tokens == (to - from) * cfg.rate / SECOND
  {}

  /** The global bound is attained over every span too short to fill the bucket again. */
  lemma GlobalRateBoundIsTight(cfg: Config, key: Key, from: int, to: int)
    requires cfg.maxEntries >= 1 && from <= to && 0 <= (to - from) * cfg.rate < cfg.burst * SECOND
    ensures var span := Greedy(cfg, key, from, to, (to - from) * cfg.rate / SECOND);
      && MonoOrdered(span, from) && (forall c :: c in span ==> from <= c.mono <= to)
      && Admits(cfg, Initial(cfg, from), span, Anyone) == cfg.burst + (to - from) * cfg.rate / SECOND
  {
    var earned := (to - from) * cfg.rate / SECOND;
    EarnedSinceEmpty(cfg, from, to);
    GreedyOrdered(cfg, key, from, to, earned);
    GreedyYields(cfg, key, from, to, earned);
  }

  // ---------------------------------------------------------------- when Retry-After is kept

  /** In a run, call `c` is rejected and the same key comes back at `c'` after the advertised wait:
      the second call is admitted. */
  ghost predicate PromiseKept(cfg: Config, start: int, wall: int, calls: seq<Call>, c: Call, c': Call) {
    var (s, d) := Step(cfg, After(cfg, Initial(cfg, start), calls), c.key, c.wall, c.mono);
    && WallOrdered(calls + [c], wall) && MonoOrdered(calls + [c], start) && d.Rejected? && c'.key == c.key
    && c'.wall >= c.wall + d.retryAfterSeconds * SECOND && c'.mono >= c.mono + d.retryAfterSeconds * SECOND
    ==> Step(cfg, s, c'.key, c'.wall, c'.mono).1 == Allowed
  }

  ghost predicate KeepsPromises(cfg: Config) {
    forall start: int, wall: int, calls: seq<Call>, c: Call, c': Call :: PromiseKept(cfg, start, wall, calls, c, c')
  }

  /** Over all runs the promise is kept if and only if there is room for an entry and the bucket
      can hold and earn a token. */
  lemma PromisesAreKeptIff(cfg: Config)
    ensures KeepsPromises(cfg) <==> cfg.maxEntries >= 1 && cfg.rate >= 1 && cfg.burst >= 1
  {
    if cfg.maxEntries >= 1 && cfg.rate >= 1 && cfg.burst >= 1 {
      forall start: int, wall: int, calls: seq<Call>, c: Call, c': Call
        ensures PromiseKept(cfg, start, wall, calls, c, c')
      {
        RunsKeepPromises(cfg, start, wall, calls, c, c');
      }
    } else if cfg.maxEntries == 0 || cfg.burst == 0 {
      NoRoomBreaksPromise(cfg);
    } else {
      NoIncomeBreaksPromise(cfg);
    }
  }

  lemma RunsKeepPromises(cfg: Config, start: int, wall: int, calls: seq<Call>, c: Call, c': Call)
    requires cfg.maxEntries >= 1 && cfg.rate >= 1 && cfg.burst >= 1
    ensures PromiseKept(cfg, start, wall, calls, c, c')
  {
    var s := After(cfg, Initial(cfg, start), calls);
    var (s', d) := Step(cfg, s, c.key, c.wall, c.mono);
    if && WallOrdered(calls + [c], wall) && MonoOrdered(calls + [c], start) && d.Rejected? && c'.key == c.key
       && c'.wall >= c.wall + d.retryAfterSeconds * SECOND && c'.mono >= c.mono + d.retryAfterSeconds * SECOND
    {
      ReachedInv(cfg, start, wall, calls, c);
      RetryAfterIsAPromise(cfg, s, c.key, c.wall, c.mono, c'.wall, c'.mono);
    }
  }

  /** With no room for an entry or no token to hold, the first call is rejected for ever. */
  lemma NoRoomBreaksPromise(cfg: Config)
    requires cfg.maxEntries == 0 || cfg.burst == 0
    ensures !KeepsPromises(cfg)
  {
    var c := Call(Key("", "", ""), 0, 0);
    var (s, d) := Step(cfg, Initial(cfg, 0), c.key, 0, 0);
    assert d.Rejected?;
    var c' := Call(c.key, d.retryAfterSeconds * SECOND, d.retryAfterSeconds * SECOND);
    assert [c][1..] == [];
    assert Retain(map[], 0, cfg.windowSeconds) == map[] && Retain(map[], c'.wall, cfg.windowSeconds) == map[];
    assert s.windows == map[] && s.bucket.tokens <= cfg.burst;
    assert Step(cfg, s, c'.key, c'.wall, c'.mono).1.Rejected?;
    var none: seq<Call> := [];
    assert none + [c] == [c] && WallOrdered([c], 0) && MonoOrdered([c], 0);
    assert !PromiseKept(cfg, 0, 0, none, c, c');
  }

  lemma NoIncome(cfg: Config, b: Bucket, mono: int)
    requires cfg.rate == 0 && TokenBucket.Valid(b, cfg.burst)
    ensures Refill(b, mono, cfg.rate, cfg.burst) == b.(last := mono)
  {
    assert Elapsed(b.last, mono) * cfg.rate == 0;
  }

  lemma {:induction false} SpacedOrdered(cfg: Config, key: Key, n: nat, t: int)
    ensures WallOrdered(Spaced(cfg, key, n, t, 0) + [Call(key, SpacedEnd(cfg, n, t), 0)], t)
    decreases n
  {
    var last := Call(key, SpacedEnd(cfg, n, t), 0);
    var run := Spaced(cfg, key, n, t, 0) + [last];
    if n == 0 {
      assert run == [last] && run[1..] == [];
    } else {
      SpacedOrdered(cfg, key, n - 1, t + cfg.windowSeconds * SECOND);
      assert run[1..] == Spaced(cfg, key, n - 1, t + cfg.windowSeconds * SECOND, 0) + [last];
    }
  }

  lemma EmptyRefuses(cfg: Config, s: State, key: Key, wall: int, mono: int)
    requires cfg.rate == 0 && cfg.maxEntries >= 1 && TokenBucket.Valid(s.bucket, cfg.burst) && s.bucket.tokens == 0
    requires forall k :: k in s.windows ==> k == key
    ensures Step(cfg, s, key, wall, mono).1.Rejected?
    ensures (key in s.windows ==> Expired(s.windows[key].startedAt, wall, cfg.windowSeconds)) ==>
      Step(cfg, s, key, wall, mono) == (s.(bucket := s.bucket.(last := mono)), Rejected(1))
  {
    NoIncome(cfg, s.bucket, mono);
    if key !in s.windows { assert s.windows == map[]; }
  }

  /** A bucket that earns nothing is emptied for good by `burst` spaced calls. */
  lemma NoIncomeBreaksPromise(cfg: Config)
    requires cfg.rate == 0 && cfg.maxEntries >= 1
    ensures !KeepsPromises(cfg)
  {
    var key := Key("", "", "");
    var calls, c := Spaced(cfg, key, cfg.burst, 0, 0), Call(key, SpacedEnd(cfg, cfg.burst, 0), 0);
    var c' := Call(key, c.wall + SECOND, SECOND);
    SpacedThen(cfg, key, cfg.burst, 0, 0, [c], 0);
    SpacedOrdered(cfg, key, cfg.burst, 0);
    SpacedDrains(cfg, Initial(cfg, 0), key, cfg.burst, 0);
    var s := After(cfg, Initial(cfg, 0), calls);
    EmptyRefuses(cfg, s, key, c.wall, 0);
    EmptyRefuses(cfg, s.(bucket := s.bucket.(last := 0)), key, c'.wall, c'.mono);
    assert !PromiseKept(cfg, 0, 0, calls, c, c');
  }
}

/** `InMemoryPaykitConnectionStateLookupRateLimiter`: per-key fixed windows in a capped,
    evicting map in front of one global token bucket. */
module LookupLimiter {
  import opened Common
  import opened Windows
  import opened TokenBucket

  const U128_MAX: nat := 0xFFFF_FFFF_FFFF_FFFF_FFFF_FFFF_FFFF_FFFF

  datatype Key = Key(clientAddress: string, creator: string, bundleId: string)

  datatype Config = Config(maxRequests: nat, windowSeconds: nat, maxEntries: nat, rate: nat, burst: nat)

  datatype State = State(windows: map<Key, Window>, bucket: Bucket)

  // ---------------------------------------------------------------- one call

  function Retain(ws: map<Key, Window>, now: int, windowSeconds: nat): (r: map<Key, Window>) {
    map k | k in ws && !Expired(ws[k].startedAt, now, windowSeconds) :: ws[k]
  }

  /** The soonest expiry among the stored windows. */
  ghost function SoonestRetry(ws: map<Key, Window>, now: int, windowSeconds: nat): (r: nat)
    requires ws != map[]
    ensures exists k :: k in ws && r == RetryAfterSeconds(ws[k].startedAt, now, windowSeconds)
    ensures forall k :: k in ws ==> r <= RetryAfterSeconds(ws[k].startedAt, now, windowSeconds)
  {
    var k :| k in ws;
    var mine := RetryAfterSeconds(ws[k].startedAt, now, windowSeconds);
    var rest := ws - {k};
    if rest == map[] then
      assert forall j :: j in ws ==> j == k || j in rest;
      mine
    else
      var other := SoonestRetry(rest, now, windowSeconds);
      assert forall j :: j in ws ==> j == k || j in rest;
      if mine <= other then mine else other
  }

  predicate AtCapacity(cfg: Config, ws: map<Key, Window>, key: Key) {
    key !in ws && |ws| >= cfg.maxEntries
  }

  /** The map a call works on: expired windows go only when a new key meets the entry cap. */
  function Evicted(cfg: Config, s: State, key: Key, wall: int): map<Key, Window> {
    if AtCapacity(cfg, s.windows, key) then Retain(s.windows, wall, cfg.windowSeconds) else s.windows
  }

  predicate WindowFull(cfg: Config, ws: map<Key, Window>, key: Key, wall: int) {
    key in ws && !Expired(ws[key].startedAt, wall, cfg.windowSeconds) && ws[key].count >= cfg.maxRequests
  }

  /** The window an admission leaves: a new or expired one restarts at the current time. */
  function Charged(cfg: Config, ws: map<Key, Window>, key: Key, wall: int): Window {
    if key in ws && !Expired(ws[key].startedAt, wall, cfg.windowSeconds)
    then Window(ws[key].startedAt, ws[key].count + 1)
    else Window(wall, 1)
  }

  ghost function Step(cfg: Config, s: State, key: Key, wall: int, mono: int): (State, Decision) {
    var ws := Evicted(cfg, s, key, wall);
    if AtCapacity(cfg, ws, key) then
      (State(ws, s.bucket),
       Rejected(if ws == map[] then cfg.windowSeconds else SoonestRetry(ws, wall, cfg.windowSeconds)))
    else if WindowFull(cfg, ws, key, wall) then
      (State(ws, s.bucket), Rejected(RetryAfterSeconds(ws[key].startedAt, wall, cfg.windowSeconds)))
    else
      var b := Refill(s.bucket, mono, cfg.rate, cfg.burst);
      if b.tokens == 0 then (State(ws, b), Rejected(1))
      else (State(ws[key := Charged(cfg, ws, key, wall)], b.(tokens := b.tokens - 1)), Allowed)
  }

  // ---------------------------------------------------------------- the limiter itself

  predicate ConfigFits(cfg: Config) { cfg.rate <= U64_MAX && cfg.burst <= U64_MAX }

  class Limiter {
    const cfg: Config
    var windows: map<Key, Window>
    var tokens: nat
    var remainder: nat
    var last: int

    ghost predicate Valid() reads this {
      ConfigFits(cfg) && TokenBucket.Valid(Global(), cfg.burst)
    }

    ghost function Global(): Bucket reads this { Bucket(tokens, remainder, last) }

    ghost function View(): State reads this { State(windows, Global()) }

    constructor (config: Config, now: int)
      requires ConfigFits(config)
      ensures Valid() && cfg == config && View() == Initial(config, now)
    {
      cfg := config;
      windows := map[];
      tokens, remainder, last := config.burst, 0, now;
    }

    /** u128 saturating multiply and add, a u64 conversion that falls back to the maximum and a
        u64 saturating add: for every u64 rate and burst and every elapsed time a u128 holds,
        they leave what unbounded integers would. */
    method RefillTokenBucket(now: int)
      requires Valid() && Elapsed(last, now) <= U128_MAX
      modifies this`tokens, this`remainder, this`last
      ensures Valid()
      ensures Global() == Refill(old(Global()), now, cfg.rate, cfg.burst)
    {
      RefillAddsCredit(Global(), now, cfg.rate, cfg.burst);
      var elapsed := Elapsed(last, now);
      last := now;
      if tokens == cfg.burst {
        remainder := 0;
        return;
      }
      var product := Min(elapsed * cfg.rate, U128_MAX);
      var accrued := Min(product + remainder, U128_MAX);
      var added := accrued / SECOND;
      remainder := accrued % SECOND;
      var added64 := if added <= U64_MAX then added else U64_MAX;
      tokens := Min(Min(tokens + added64, U64_MAX), cfg.burst);
      if tokens == cfg.burst {
        remainder := 0;
      }
    }

    /** `windows.values().map(retry_after_seconds).min()`. */
    method MinRetry(wall: int) returns (r: nat)
      requires windows != map[]
      ensures r == SoonestRetry(windows, wall, cfg.windowSeconds)
    {
      var pending := windows.Keys;
      var first :| first in pending;
      r := RetryAfterSeconds(windows[first].startedAt, wall, cfg.windowSeconds);
      while pending != {}
        invariant pending <= windows.Keys
        invariant exists k :: k in windows && r == RetryAfterSeconds(windows[k].startedAt, wall, cfg.windowSeconds)
        invariant forall k :: k in windows && k !in pending ==>
                    r <= RetryAfterSeconds(windows[k].startedAt, wall, cfg.windowSeconds)
        decreases pending
      {
        var k :| k in pending;
        pending := pending - {k};
        var wait := RetryAfterSeconds(windows[k].startedAt, wall, cfg.windowSeconds);
        if wait < r { r := wait; }
      }
    }

    method Check(key: Key, wall: int, mono: int) returns (d: Decision)
      requires Valid() && Elapsed(last, mono) <= U128_MAX
      modifies this
      ensures Valid()
      ensures (View(), d) == Step(cfg, old(View()), key, wall, mono)
    {
      if key !in windows && |windows| >= cfg.maxEntries {
        windows := Retain(windows, wall, cfg.windowSeconds);
        if |windows| >= cfg.maxEntries {
          if windows == map[] { return Rejected(cfg.windowSeconds); }
          var wait := MinRetry(wall);
          return Rejected(wait);
        }
      }
      if key in windows {
        var window := windows[key];
        if !Expired(window.startedAt, wall, cfg.windowSeconds) && window.count >= cfg.maxRequests {
          return Rejected(RetryAfterSeconds(window.startedAt, wall, cfg.windowSeconds));
        }
      }
      RefillTokenBucket(mono);
      if tokens == 0 {
        return Rejected(1);
      }
      tokens := tokens - 1;
      var window := if key in windows then windows[key] else Window(wall, 0);
      if Expired(window.startedAt, wall, cfg.windowSeconds) {
        window := Window(wall, 0);
      }
      windows := windows[key := Window(window.startedAt, window.count + 1)];
      d := Allowed;
    }
  }

  function Initial(cfg: Config, now: int): State { State(map[], Bucket(cfg.burst, 0, now)) }

  // ---------------------------------------------------------------- what every call keeps

  /** Admissions a window can hold: a limit of zero still admits the call that opens it. */
  function Quota(cfg: Config): nat { if cfg.maxRequests == 0 then 1 else cfg.maxRequests }

  /** What the bucket keeps while the monotonic clock is non-decreasing: `mono` bounds its time. */
  predicate BucketInv(cfg: Config, s: State, mono: int) {
    TokenBucket.Valid(s.bucket, cfg.burst) && s.bucket.last <= mono
  }

  /** What the windows keep while the wall clock is non-decreasing: `wall` bounds their starts. */
  predicate WindowsInv(cfg: Config, s: State, wall: int) {
    forall k :: k in s.windows ==> s.windows[k].startedAt <= wall && 1 <= s.windows[k].count <= Quota(cfg)
  }

  predicate CapInv(cfg: Config, s: State) { |s.windows| <= cfg.maxEntries }

  predicate Inv(cfg: Config, s: State, wall: int, mono: int) {
    BucketInv(cfg, s, mono) && WindowsInv(cfg, s, wall) && CapInv(cfg, s)
  }

  lemma RetainShrinks(ws: map<Key, Window>, now: int, windowSeconds: nat)
    ensures |Retain(ws, now, windowSeconds)| <= |ws|
    ensures (exists k :: k in ws && Expired(ws[k].startedAt, now, windowSeconds))
            ==> |Retain(ws, now, windowSeconds)| < |ws|
  {
    var r := Retain(ws, now, windowSeconds);
    assert r.Keys <= ws.Keys;
    SubsetSize(r.Keys, ws.Keys);
    if k :| k in ws && Expired(ws[k].startedAt, now, windowSeconds) {
      SubsetSize(r.Keys, ws.Keys - {k});
    }
  }

  lemma SubsetSize<T>(a: set<T>, b: set<T>)
    requires a <= b
    ensures |a| <= |b|
  {
    assert |b| == |a| + |b - a| by { assert b == a + (b - a); }
  }

  /** No call grows the map past its entry cap, whatever the clocks say. */
  lemma StepKeepsCap(cfg: Config, s: State, key: Key, wall: int, mono: int)
    requires CapInv(cfg, s)
    ensures CapInv(cfg, Step(cfg, s, key, wall, mono).0)
  {
    RetainShrinks(s.windows, wall, cfg.windowSeconds);
    var ws := Evicted(cfg, s, key, wall);
    if !AtCapacity(cfg, ws, key) && key !in ws {
      assert |ws[key := Charged(cfg, ws, key, wall)].Keys| == |ws.Keys + {key}|;
    }
  }

  lemma StepKeepsBucket(cfg: Config, s: State, key: Key, wall: int, mono: int)
    requires BucketInv(cfg, s, mono)
    ensures BucketInv(cfg, Step(cfg, s, key, wall, mono).0, mono)
  {
    RefillAddsCredit(s.bucket, mono, cfg.rate, cfg.burst);
  }

  lemma StepKeepsWindows(cfg: Config, s: State, key: Key, wall: int, mono: int)
    requires WindowsInv(cfg, s, wall)
    ensures WindowsInv(cfg, Step(cfg, s, key, wall, mono).0, wall)
  {}

  /** Every call keeps all three: the bucket bounds, the window quotas and the entry cap. */
  lemma StepKeepsInv(cfg: Config, s: State, key: Key, wall: int, mono: int)
    requires Inv(cfg, s, wall, mono)
    ensures Inv(cfg, Step(cfg, s, key, wall, mono).0, wall, mono)
  {
    StepKeepsCap(cfg, s, key, wall, mono);
    StepKeepsBucket(cfg, s, key, wall, mono);
    StepKeepsWindows(cfg, s, key, wall, mono);
  }
}

/** `InMemoryVerificationSubmissionRateLimiter`: one fixed window per client address and creator, in
    a map that is never pruned. */
module SubmissionLimiter {
  import opened Common
  import opened Windows

  datatype Key = Key(clientAddress: string, creator: string)

  datatype Config = Config(enabled: bool, maxRequests: nat, windowSeconds: nat)

  /** The window a call of `key` finds: its own, or a new empty one. */
  function Found(cfg: Config, ws: map<Key, Window>, key: Key, now: int): Window {
    if key in ws && !Expired(ws[key].startedAt, now, cfg.windowSeconds) then ws[key] else Window(now, 0)
  }

  function Step(cfg: Config, ws: map<Key, Window>, key: Key, now: int): (map<Key, Window>, Decision) {
    if !cfg.enabled then (ws, Allowed)
    else
      var w := Found(cfg, ws, key, now);
      if w.count < cfg.maxRequests then (ws[key := Window(w.startedAt, w.count + 1)], Allowed)
      else (ws[key := w], Rejected(RetryAfterSeconds(w.startedAt, now, cfg.windowSeconds)))
  }

  class Limiter {
    const cfg: Config
    var windows: map<Key, Window>

    constructor (config: Config)
      ensures cfg == config && windows == map[]
    {
      cfg, windows := config, map[];
    }

    method Check(key: Key, now: int) returns (d: Decision)
      modifies this
      ensures (windows, d) == Step(cfg, old(windows), key, now)
    {
      if !cfg.enabled { return Allowed; }
      if key !in windows { windows := windows[key := Window(now, 0)]; }
      if Expired(windows[key].startedAt, now, cfg.windowSeconds) { windows := windows[key := Window(now, 0)]; }
      var w := windows[key];
      assert windows == old(windows)[key := w];
      if w.count < cfg.maxRequests {
        windows := windows[key := Window(w.startedAt, w.count + 1)];
        assert windows == old(windows)[key := Window(w.startedAt, w.count + 1)];
        return Allowed;
      }
      return Rejected(RetryAfterSeconds(w.startedAt, now, cfg.windowSeconds));
    }
  }

  // ---------------------------------------------------------------- whole runs

  datatype Call = Call(key: Key, now: int)

  predicate Ordered(calls: seq<Call>, now: int)
    decreases |calls|
  {
    calls == [] || (now <= calls[0].now && Ordered(calls[1..], calls[0].now))
  }

  function After(cfg: Config, ws: map<Key, Window>, calls: seq<Call>): map<Key, Window>
    decreases |calls|
  {
    if calls == [] then ws else After(cfg, Step(cfg, ws, calls[0].key, calls[0].now).0, calls[1..])
  }

  function Admits(cfg: Config, ws: map<Key, Window>, calls: seq<Call>, key: Key): nat
    decreases |calls|
  {
    if calls == [] then 0
    else
      var (ws', d) := Step(cfg, ws, calls[0].key, calls[0].now);
      (if d.Allowed? && calls[0].key == key then 1 else 0) + Admits(cfg, ws', calls[1..], key)
  }

  /** Windows start in the past, are not overfull, and are opened by an admission unless none is
      allowed at all. */
  predicate Inv(cfg: Config, ws: map<Key, Window>, now: int) {
    forall k :: k in ws ==>
      ws[k].startedAt <= now && ws[k].count <= cfg.maxRequests && (cfg.maxRequests > 0 ==> ws[k].count > 0)
  }

  lemma {:induction false} RunKeepsInv(cfg: Config, ws: map<Key, Window>, calls: seq<Call>, rest: seq<Call>, now: int)
    requires Inv(cfg, ws, now) && Ordered(calls + rest, now)
    ensures exists t :: Inv(cfg, After(cfg, ws, calls), t) && Ordered(rest, t)
    decreases |calls|
  {
    if calls == [] {
      assert calls + rest == rest;
      assert Inv(cfg, After(cfg, ws, calls), now) && Ordered(rest, now);
    } else {
      var c := calls[0];
      assert (calls + rest)[0] == c && (calls + rest)[1..] == calls[1..] + rest;
      RunKeepsInv(cfg, Step(cfg, ws, c.key, c.now).0, calls[1..], rest, c.now);
    }
  }

  /** Admissions of `key` still possible in the span of one window that starts at `from`. */
  function Headroom(cfg: Config, ws: map<Key, Window>, key: Key, from: int): int {
    if key !in ws then cfg.maxRequests
    else (cfg.maxRequests - ws[key].count) + (if ws[key].startedAt >= from then 0 else cfg.maxRequests)
  }

  lemma {:induction false} AdmissionsCostHeadroom(cfg: Config, ws: map<Key, Window>, calls: seq<Call>, key: Key,
                                                  now: int, from: int)
    requires cfg.enabled && Inv(cfg, ws, now) && Ordered(calls, now)
    requires forall i :: 0 <= i < |calls| ==> from <= calls[i].now < from + cfg.windowSeconds * SECOND
    ensures Admits(cfg, ws, calls, key) <= Headroom(cfg, ws, key, from)
    decreases |calls|
  {
    if calls != [] {
      var c := calls[0];
      if key in ws { ExpiryIsExact(ws[key].startedAt, c.now, cfg.windowSeconds); }
      AdmissionsCostHeadroom(cfg, Step(cfg, ws, c.key, c.now).0, calls[1..], key, c.now, from);
    }
  }

  /** An enabled limiter admits at most 2 * maxRequests - 1 submissions of a key in any half-open
      span one window long, over any run; none at all when the limit is zero. */
  lemma SubmissionSlidingBound(cfg: Config, start: int, before: seq<Call>, span: seq<Call>, key: Key, from: int)
    requires cfg.enabled && Ordered(before + span, start)
    requires forall i :: 0 <= i < |span| ==> from <= span[i].now < from + cfg.windowSeconds * SECOND
    ensures Admits(cfg, After(cfg, map[], before), span, key)
         <= if cfg.maxRequests == 0 then 0 else 2 * cfg.maxRequests - 1
  {
    RunKeepsInv(cfg, map[], before, span, start);
    var ws := After(cfg, map[], before);
    var t :| Inv(cfg, ws, t) && Ordered(span, t);
    AdmissionsCostHeadroom(cfg, ws, span, key, t, from);
  }

  /** Retry-After: a rejected submission repeated after the advertised seconds, with any calls of
      other keys in between, is admitted if and only if the limit admits anything. */
  lemma SubmissionRetryIff(cfg: Config, ws: map<Key, Window>, key: Key, now: int, between: seq<Call>, later: int)
    requires Inv(cfg, ws, now) && Step(cfg, ws, key, now).1.Rejected?
    requires forall i :: 0 <= i < |between| ==> between[i].key != key
    requires later >= now + Step(cfg, ws, key, now).1.retryAfterSeconds * SECOND
    ensures Step(cfg, After(cfg, Step(cfg, ws, key, now).0, between), key, later).1 == Allowed <==> cfg.maxRequests >= 1
  {
    var w := Found(cfg, ws, key, now);
    var ws' := Step(cfg, ws, key, now).0;
    OthersLeaveWindow(cfg, ws', between, key);
    RetryAfterIsLeast(w.startedAt, now, cfg.windowSeconds, RetryAfterSeconds(w.startedAt, now, cfg.windowSeconds));
    ExpiryIsExact(w.startedAt, now + RetryAfterSeconds(w.startedAt, now, cfg.windowSeconds) * SECOND,
        cfg.windowSeconds);
    ExpiryIsExact(w.startedAt, later, cfg.windowSeconds);
  }

  /** Keys do not interfere. */
  lemma {:induction false} OthersLeaveWindow(cfg: Config, ws: map<Key, Window>, calls: seq<Call>, key: Key)
    requires key in ws && forall i :: 0 <= i < |calls| ==> calls[i].key != key
    ensures key in After(cfg, ws, calls) && After(cfg, ws, calls)[key] == ws[key]
    decreases |calls|
  {
    if calls != [] {
      OthersLeaveWindow(cfg, Step(cfg, ws, calls[0].key, calls[0].now).0, calls[1..], key);
    }
  }

  // ---------------------------------------------------------------- exactly which submissions are admitted

  /** How many of the calls are of `key`. */
  function CallsOf(calls: seq<Call>, key: Key): nat {
    if calls == [] then 0 else CallsOf(calls[..|calls| - 1], key) + if calls[|calls| - 1].key == key then 1 else 0
  }

  predicate Within(cfg: Config, calls: seq<Call>, start: int) {
    forall i :: 0 <= i < |calls| ==> start <= calls[i].now < start + cfg.windowSeconds * SECOND
  }

  /** A window opened by `first` and the calls of any keys that follow within it. */
  predicate OneWindow(cfg: Config, ws: map<Key, Window>, calls: seq<Call>) {
    && cfg.enabled && calls != [] && Within(cfg, calls, calls[0].now)
    && (calls[0].key in ws ==> Expired(ws[calls[0].key].startedAt, calls[0].now, cfg.windowSeconds))
  }

  lemma {:induction false} AfterLast(cfg: Config, ws: map<Key, Window>, calls: seq<Call>, c: Call)
    ensures After(cfg, ws, calls + [c]) == Step(cfg, After(cfg, ws, calls), c.key, c.now).0
    decreases |calls|
  {
    if calls == [] {
      assert calls + [c] == [c] && [c][1..] == [];
    } else {
      assert (calls + [c])[1..] == calls[1..] + [c];
      AfterLast(cfg, Step(cfg, ws, calls[0].key, calls[0].now).0, calls[1..], c);
    }
  }

  /** The window counts the key's calls up to the limit, whatever other keys do. */
  lemma {:induction false} WindowCounts(cfg: Config, ws: map<Key, Window>, calls: seq<Call>)
    requires OneWindow(cfg, ws, calls)
    ensures var (key, ws') := (calls[0].key, After(cfg, ws, calls));
      key in ws' && ws'[key] == Window(calls[0].now, Min(CallsOf(calls, key), cfg.maxRequests))
    decreases |calls|
  {
    var most, last, key := calls[..|calls| - 1], calls[|calls| - 1], calls[0].key;
    assert calls == most + [last];
    AfterLast(cfg, ws, most, last);
    if most == [] {
      OpeningCounts(cfg, ws, last);
      assert After(cfg, ws, most) == ws && CallsOf(most, key) == 0;
    } else {
      WindowCounts(cfg, ws, most);
      CountStep(cfg, After(cfg, ws, most), key, calls[0].now, CallsOf(most, key), last);
    }
  }

  lemma OpeningCounts(cfg: Config, ws: map<Key, Window>, c: Call)
    requires cfg.enabled && (c.key in ws ==> Expired(ws[c.key].startedAt, c.now, cfg.windowSeconds))
    ensures var ws' := Step(cfg, ws, c.key, c.now).0;
      c.key in ws' && ws'[c.key] == Window(c.now, Min(1, cfg.maxRequests))
  {}

  lemma CountStep(cfg: Config, ws: map<Key, Window>, key: Key, start: int, n: nat, c: Call)
    requires cfg.enabled && key in ws && ws[key] == Window(start, Min(n, cfg.maxRequests))
    requires start <= c.now < start + cfg.windowSeconds * SECOND
    ensures var ws' := Step(cfg, ws, c.key, c.now).0;
      key in ws' && ws'[key] == Window(start, Min(n + if c.key == key then 1 else 0, cfg.maxRequests))
  {
    ExpiryIsExact(start, c.now, cfg.windowSeconds);
  }

  /** Of the calls of one key within one window exactly the first `max_requests` are admitted: the
      next call is, if and only if fewer than that many came before it. */
  lemma NextIsAdmittedIff(cfg: Config, ws: map<Key, Window>, calls: seq<Call>, next: Call)
    requires OneWindow(cfg, ws, calls) && next.key == calls[0].key
    requires calls[0].now <= next.now < calls[0].now + cfg.windowSeconds * SECOND
    ensures Step(cfg, After(cfg, ws, calls), next.key, next.now).1 == Allowed
       <==> CallsOf(calls, next.key) < cfg.maxRequests
  {
    WindowCounts(cfg, ws, calls);
    ExpiryIsExact(calls[0].now, next.now, cfg.windowSeconds);
  }

  /** And the call that opens a window is, if and only if the limit admits anything. */
  lemma OpeningIsAdmittedIff(cfg: Config, ws: map<Key, Window>, c: Call)
    requires cfg.enabled && (c.key in ws ==> Expired(ws[c.key].startedAt, c.now, cfg.windowSeconds))
    ensures Step(cfg, ws, c.key, c.now).1 == Allowed <==> cfg.maxRequests >= 1
  {}

  /** A disabled limiter admits every call and remembers none. */
  lemma {:induction false} DisabledAdmitsAll(cfg: Config, ws: map<Key, Window>, calls: seq<Call>, c: Call)
    requires !cfg.enabled
    ensures After(cfg, ws, calls) == ws && Step(cfg, After(cfg, ws, calls), c.key, c.now).1 == Allowed
    decreases |calls|
  {
    if calls != [] { DisabledAdmitsAll(cfg, Step(cfg, ws, calls[0].key, calls[0].now).0, calls[1..], c); }
  }
}

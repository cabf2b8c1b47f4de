/** Fixed wall-clock windows shared by the two admission limiters of `rate_limit.rs`.
    Wall-clock instants are nanoseconds since an epoch; durations of seconds are whole. */
module Windows {
  import opened Common

  datatype Window = Window(startedAt: int, count: nat)

  datatype Decision = Allowed | Rejected(retryAfterSeconds: nat)

  /** `Duration::whole_seconds`: the division truncates toward zero. */
  function WholeSeconds(nanos: int): int {
    if nanos >= 0 then nanos / SECOND else -((-nanos) / SECOND)
  }

  function RetryAfterSeconds(startedAt: int, now: int, windowSeconds: nat): nat {
    var elapsed := WholeSeconds(now - startedAt);
    if elapsed < 0 then windowSeconds
    else if elapsed >= windowSeconds then 0   // saturating_sub
    else windowSeconds - elapsed
  }

  predicate Expired(startedAt: int, now: int, windowSeconds: nat) {
    RetryAfterSeconds(startedAt, now, windowSeconds) == 0
  }

  /** A window lasts exactly `windowSeconds`, to the nanosecond: truncation to whole seconds
      neither shortens nor lengthens it. */
  lemma ExpiryIsExact(startedAt: int, now: int, windowSeconds: nat)
    ensures Expired(startedAt, now, windowSeconds)
       <==> windowSeconds == 0 || now >= startedAt + windowSeconds * SECOND
  {
    var e := now - startedAt;
    if e >= 0 {
      assert e / SECOND >= windowSeconds <==> e >= windowSeconds * SECOND;
    } else {
      assert WholeSeconds(e) <= 0;
      if WholeSeconds(e) == 0 && windowSeconds > 0 {
        assert RetryAfterSeconds(startedAt, now, windowSeconds) == windowSeconds;
      }
    }
  }

  /** The advertised wait is the least whole number of seconds after which the window is over. */
  lemma RetryAfterIsLeast(startedAt: int, now: int, windowSeconds: nat, wait: nat)
    requires startedAt <= now
    ensures Expired(startedAt, now + wait * SECOND, windowSeconds)
       <==> wait >= RetryAfterSeconds(startedAt, now, windowSeconds)
  {
    var e := now - startedAt;
    assert (e + wait * SECOND) / SECOND == e / SECOND + wait;
  }
}

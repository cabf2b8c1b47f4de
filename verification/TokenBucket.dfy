/** The global token bucket of the Paykit lookup limiter: `refill_token_bucket` in
    `rate_limit.rs`, over exact integers. `LookupLimiter` proves the machine arithmetic equal. */
module TokenBucket {
  import opened Common

  datatype Bucket = Bucket(tokens: nat, remainder: nat, last: int)

  /** What the limiter keeps of its bucket: never above the burst, a remainder below one
      token, and no remainder carried by a full bucket. */
  predicate Valid(b: Bucket, burst: nat) {
    b.tokens <= burst && b.remainder < SECOND && (b.tokens == burst ==> b.remainder == 0)
  }

  /** Credit in units of 1e-9 token. */
  function Credit(b: Bucket): nat { b.tokens * SECOND + b.remainder }

  function Elapsed(from: int, to: int): nat { if to >= from then to - from else 0 }

  /** Exact refill over unbounded integers: the shape of the source without saturation. */
  function Refill(b: Bucket, now: int, rate: nat, burst: nat): (r: Bucket) {
    if b.tokens == burst then Bucket(b.tokens, 0, now)
    else
      var accrued := Elapsed(b.last, now) * rate + b.remainder;
      var tokens := b.tokens + accrued / SECOND;
      if tokens >= burst then Bucket(burst, 0, now) else Bucket(tokens, accrued % SECOND, now)
  }

  /** Refilling adds `rate` units per nanosecond of credit, capped at the burst, and the pair
      (tokens, remainder) is exactly the quotient and remainder of the credit. */
  lemma RefillAddsCredit(b: Bucket, now: int, rate: nat, burst: nat)
    requires Valid(b, burst)
    ensures Valid(Refill(b, now, rate, burst), burst)
    ensures Credit(Refill(b, now, rate, burst))
         == Min(burst * SECOND, Credit(b) + Elapsed(b.last, now) * rate)
  {
    var gain := Elapsed(b.last, now) * rate;
    assert gain >= 0;
  }

  lemma CreditDetermines(a: Bucket, b: Bucket, burst: nat)
    requires Valid(a, burst) && Valid(b, burst)
    requires Credit(a) == Credit(b) && a.last == b.last
    ensures a == b
  {
    assert Credit(a) / SECOND == a.tokens;
    assert Credit(b) / SECOND == b.tokens;
  }

  /** What is earned over adjacent spans adds up. */
  lemma Accrual(a: int, b: int, c: int, rate: nat)
    requires a <= b <= c
    ensures (c - a) * rate == (b - a) * rate + (c - b) * rate
    ensures (b - a) * rate >= 0 && (c - b) * rate >= 0
  {}

  /** Polling the bucket is free: refilling at `t1` and again at `t2` leaves the state one
      refill at `t2` leaves. */
  lemma RefillSplits(b: Bucket, t1: int, t2: int, rate: nat, burst: nat)
    requires Valid(b, burst) && b.last <= t1 <= t2
    ensures Refill(Refill(b, t1, rate, burst), t2, rate, burst) == Refill(b, t2, rate, burst)
  {
    var m := Refill(b, t1, rate, burst);
    RefillAddsCredit(b, t1, rate, burst);
    RefillAddsCredit(m, t2, rate, burst);
    RefillAddsCredit(b, t2, rate, burst);
    Accrual(b.last, t1, t2, rate);
    CreditDetermines(Refill(m, t2, rate, burst), Refill(b, t2, rate, burst), burst);
  }

  /** A refill at the time of the last one changes nothing. */
  lemma RefillNow(b: Bucket, rate: nat, burst: nat)
    requires Valid(b, burst)
    ensures Refill(b, b.last, rate, burst) == b
  {
    assert Elapsed(b.last, b.last) * rate == 0;
  }

  /** One second at any positive rate buys a token. */
  lemma OneSecondBuysAToken(b: Bucket, now: int, rate: nat, burst: nat)
    requires Valid(b, burst) && rate >= 1 && burst >= 1 && now >= b.last + SECOND
    ensures Refill(b, now, rate, burst).tokens >= 1
  {
    RefillAddsCredit(b, now, rate, burst);
    assert Elapsed(b.last, now) * rate >= SECOND * 1;
  }
}

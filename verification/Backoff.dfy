/** The retry schedule of the outbox worker, in machine integers. */
module Backoff {
  import opened Common

  /** A Go time.Duration: signed 64-bit nanoseconds. Every operation below is checked not to leave this range. */
  newtype int64 = x: int | -0x8000_0000_0000_0000 <= x < 0x8000_0000_0000_0000

  function Pow2(n: nat): (r: nat)
    ensures r >= 1
  {
    if n == 0 then 1 else 2 * Pow2(n - 1)
  }

  /** The schedule as its design states it: doubling per attempt, capped. */
  function Scheduled(base: int, cap: int, attempt: int): int {
    if attempt <= 1 then base else Min(base * Pow2(attempt - 1), cap)
  }

  /** The delay before jitter. The loop doubles in 64 bits, and never past the cap. */
  method DelayBeforeJitter(base: int64, cap: int64, attempt: int64) returns (delay: int64)
    requires 0 < base <= cap
    ensures delay as int == Scheduled(base as int, cap as int, attempt as int)
    ensures base <= delay <= cap
  {
    delay := base;
    var current: int64 := 1;
    ghost var b, c, n := base as int, cap as int, attempt as int;
    while current < attempt && delay < cap
      invariant 1 <= current && (current <= attempt || current == 1)
      invariant base <= delay <= cap
      invariant delay as int == Min(b * Pow2(current as int - 1), c)
      decreases n - current as int
    {
      if delay > cap / 2 {
        HalfwayCaps(b, c, current as int, n);
        delay := cap;
        break;
      }
      DoubleStays(b, c, current as int, delay as int);
      delay := delay * 2;
      current := current + 1;
    }
    if current < attempt {
      if b * Pow2(current as int - 1) >= c { CapReached(b, c, current as int, n); }
    }
    if delay > cap {
      delay := cap;
    }
  }

  lemma DoubleStays(base: int, cap: int, current: int, delay: int)
    requires 0 < base && 1 <= current && delay == Min(base * Pow2(current - 1), cap) && delay <= cap / 2 && delay < cap
    ensures 2 * delay == Min(base * Pow2(current), cap)
  {
    assert Pow2(current) == 2 * Pow2(current - 1);
    assert base * Pow2(current) == 2 * (base * Pow2(current - 1));
  }

  lemma {:induction false} Pow2Grows(m: nat, n: nat)
    requires m <= n
    ensures Pow2(m) <= Pow2(n)
    decreases n - m
  {
    if m < n {
      Pow2Grows(m + 1, n);
    }
  }

  lemma ProductGrows(a: int, x: int, y: int)
    requires 0 <= a && x <= y
    ensures a * x <= a * y
  {
  }

  lemma CapReached(base: int, cap: int, current: int, attempt: int)
    requires 0 < base <= cap && 1 <= current < attempt && base * Pow2(current - 1) >= cap
    ensures base * Pow2(attempt - 1) >= cap
  {
    Pow2Grows(current - 1, attempt - 1);
    ProductGrows(base, Pow2(current - 1), Pow2(attempt - 1));
  }

  lemma HalfwayCaps(base: int, cap: int, current: int, attempt: int)
    requires 0 < base <= cap && 1 <= current < attempt && Min(base * Pow2(current - 1), cap) > cap / 2
    ensures base * Pow2(attempt - 1) >= cap
  {
    assert Pow2(current) == 2 * Pow2(current - 1);
    assert base * Pow2(current) == 2 * (base * Pow2(current - 1)) >= cap;
    if current + 1 < attempt {
      CapReached(base, cap, current + 1, attempt);
    }
  }

  /** Equal jitter: `draw` is the random number that the generator returns for the bound half + 1. */
  function EqualJitter(delay: int64, draw: int64): (r: int64)
    requires delay / 2 > 0 ==> 0 <= draw < delay / 2 + 1
    ensures delay > 0 ==> delay / 2 <= r <= delay
  {
    if delay / 2 <= 0 then delay else delay / 2 + draw
  }

  /** The jittered delay of markFailed: between half of the scheduled delay and all of it. */
  method RetryDelay(base: int64, cap: int64, attempt: int64, draw: int64) returns (delay: int64)
    requires 0 < base <= cap
    requires draw as int * 2 <= Scheduled(base as int, cap as int, attempt as int) && 0 <= draw
    ensures Scheduled(base as int, cap as int, attempt as int) / 2 <= delay as int <= Scheduled(base as int, cap as int, attempt as int)
    ensures 0 < delay <= cap
  {
    var before := DelayBeforeJitter(base, cap, attempt);
    delay := EqualJitter(before, draw);
  }

  /** The draws reach exactly the values from half the delay to twice that half, which for an odd delay is one short of it. */
  lemma JitterCoversUpperHalf(delay: int64, r: int64)
    requires delay > 1
    ensures delay / 2 <= r <= delay / 2 * 2 <==> exists draw: int64 :: 0 <= draw < delay / 2 + 1 && EqualJitter(delay, draw) == r
  {
    if delay / 2 <= r <= delay / 2 * 2 {
      assert EqualJitter(delay, r - delay / 2) == r;
    }
  }

  /** Later attempts never wait less. */
  lemma ScheduleIsMonotone(base: int, cap: int, m: int, n: int)
    requires 0 < base <= cap && m <= n
    ensures base <= Scheduled(base, cap, m) <= Scheduled(base, cap, n) <= cap
  {
    if m > 1 {
      Pow2Grows(m - 1, n - 1);
      ProductGrows(base, 1, Pow2(m - 1));
      ProductGrows(base, Pow2(m - 1), Pow2(n - 1));
    } else if n > 1 {
      ProductGrows(base, 1, Pow2(n - 1));
    }
  }
}

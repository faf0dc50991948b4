/** The tier scheduler of the on-car sender (`DownsamplingManager`, central.py):
    a cycle counter advanced once per main-loop tick, wrapped back to zero at the
    low-priority interval, and tested modulo each tier's interval. */
module Scheduler {

  /** Transmission rates in Hz for the three priority tiers. */
  const RateHighPriority := 50
  const RateMediumPriority := 10
  const RateLowPriority := 1

  /** The tier intervals in main-loop ticks, by integer division of the rates. */
  const HighInterval := 1
  const MediumInterval := RateHighPriority / RateMediumPriority
  const LowInterval := RateHighPriority / RateLowPriority

  /** A tier whose interval is `interval` is due at cycle `cycle`. */
  predicate Due(cycle: int, interval: int)
    requires interval > 0
  {
    cycle % interval == 0
  }

  /** The counter after one `increment_cycle`. */
  function NextCycle(cycle: int, low: int): int {
    if cycle + 1 >= low then 0 else cycle + 1
  }

  /** The counter after `n` ticks from zero. */
  function CycleAfter(n: nat, low: int): int {
    if n == 0 then 0 else NextCycle(CycleAfter(n - 1, low), low)
  }

  /** A positive multiple of `m` is at least `m`. */
  lemma {:induction false} MulAtLeast(d: int, m: int)
    requires d >= 1 && m > 0
    ensures d * m >= m
    decreases d
  {
    if d > 1 {
      MulAtLeast(d - 1, m);
      assert d * m == (d - 1) * m + m;
    }
  }

  /** Division with remainder has a unique result. */
  lemma ModUnique(a: int, m: int, q: int, r: int)
    requires m > 0 && 0 <= r < m && a == q * m + r
    ensures a % m == r && a / m == q
  {
    var q0, r0 := a / m, a % m;
    assert a == q0 * m + r0;
    if q > q0 {
      MulAtLeast(q - q0, m);
      assert false;
    } else if q < q0 {
      MulAtLeast(q0 - q, m);
      assert false;
    }
  }

  /** Advancing by one tick adds one to the remainder, or wraps it to zero. */
  lemma ModSucc(n: int, m: int)
    requires m > 0
    ensures (n + 1) % m == if n % m + 1 == m then 0 else n % m + 1
  {
    var q, r := n / m, n % m;
    assert n == q * m + r;
    if r + 1 == m {
      ModUnique(n + 1, m, q + 1, 0);
    } else {
      ModUnique(n + 1, m, q, r + 1);
    }
  }

  /** The wrapped counter is the tick count modulo the low interval. */
  lemma {:induction false} CycleAfterIsMod(n: nat, low: int)
    requires low > 0
    ensures CycleAfter(n, low) == n % low
  {
    if n > 0 {
      CycleAfterIsMod(n - 1, low);
      ModSucc(n - 1, low);
    }
  }

  /** When `k` divides `m`, reducing modulo `m` first does not change the
      remainder modulo `k`. */
  lemma ModOfMod(n: int, m: int, k: int)
    requires k > 0 && m > 0 && m % k == 0
    ensures (n % m) % k == n % k
  {
    var q := n / m;
    var j := m / k;
    assert m == j * k;
    assert n == q * m + n % m;
    assert n == (q * j) * k + n % m by {
      assert q * m == q * (j * k) == (q * j) * k;
    }
    var r := (n % m) % k;
    assert n % m == (n % m) / k * k + r;
    ModUnique(n, k, q * j + (n % m) / k, r);
  }

  /** With the configured rates the medium tier is due on ticks 0, 5, 10, ...
      and the low tier on ticks 0, 50, 100, ... */
  lemma FiringSchedule(n: nat)
    ensures MediumInterval == 5 && LowInterval == 50
    ensures Due(CycleAfter(n, LowInterval), MediumInterval) <==> n % 5 == 0
    ensures Due(CycleAfter(n, LowInterval), LowInterval) <==> n % 50 == 0
  {
    CycleAfterIsMod(n, 50);
    ModOfMod(n, 50, 5);
  }

  /** The wrapped counter stays within one low-priority period. */
  lemma {:induction false} CycleAfterInRange(n: nat, low: int)
    requires low > 0
    ensures 0 <= CycleAfter(n, low) < low
  {
    CycleAfterIsMod(n, low);
  }

  class DownsamplingManager {
    var cycleCount: int
    const highInterval: int
    const mediumInterval: int
    const lowInterval: int

    ghost predicate Valid()
      reads this
    {
      && highInterval == HighInterval
      && mediumInterval == MediumInterval
      && lowInterval == LowInterval
      && 0 <= cycleCount < lowInterval
    }

    constructor()
      ensures Valid() && cycleCount == 0
      ensures mediumInterval == 5 && lowInterval == 50
    {
      cycleCount := 0;
      highInterval := HighInterval;
      mediumInterval := MediumInterval;
      lowInterval := LowInterval;
    }

    /** `should_send_high`: every tick. */
    predicate ShouldSendHigh()
    {
      true
    }

    /** `should_send_medium`. */
    predicate ShouldSendMedium()
      reads this
      requires Valid()
    {
      Due(cycleCount, mediumInterval)
    }

    /** `should_send_low`. */
    predicate ShouldSendLow()
      reads this
      requires Valid()
    {
      Due(cycleCount, lowInterval)
    }

    /** `increment_cycle`: one step forward, back to zero on reaching the low
        interval, so the counter never leaves `[0, low_interval)`. */
    method IncrementCycle()
      requires Valid()
      modifies this
      ensures Valid()
      ensures cycleCount == NextCycle(old(cycleCount), lowInterval)
      ensures cycleCount == (old(cycleCount) + 1) % lowInterval
    {
      cycleCount := cycleCount + 1;
      if cycleCount >= lowInterval {
        cycleCount := 0;
      }
      ModUnique(old(cycleCount) + 1, lowInterval, if cycleCount == 0 then 1 else 0, cycleCount);
    }
  }
}

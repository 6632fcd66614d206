/** Retry delays after a failed edge push (server/internal/provision/backoff.go), in nanoseconds. */
module Backoff {
  import opened Prelude

  const SECOND: int := 1_000_000_000
  const BACKOFF_BASE: int := 2 * SECOND
  const BACKOFF_MAX: int := 300 * SECOND

  /** Doubling from two seconds, capped at five minutes. */
  function Step(attempt: int): int {
    if attempt < 1 then BACKOFF_BASE else Min(BACKOFF_BASE * Pow2(attempt - 1), BACKOFF_MAX)
  }

  /** The step with +/-20% jitter; `draw` is the uniform random number in [0, 1). */
  function Jittered(attempt: int, draw: real): (delay: int)
    requires 0.0 <= draw < 1.0
    ensures 1_600_000_000 <= delay <= 360_000_000_000
  {
    StepRange(attempt);
    Scale(Step(attempt) as real, 1.0 + (draw * 0.4 - 0.2));
    (Step(attempt) as real * (1.0 + (draw * 0.4 - 0.2))).Floor
  }

  lemma Scale(x: real, f: real)
    requires 2_000_000_000.0 <= x <= 300_000_000_000.0 && 0.8 <= f < 1.2
    ensures 1_600_000_000.0 <= x * f <= 360_000_000_000.0
  {
    assert x * 0.8 <= x * f <= x * 1.2;
  }

  lemma StepRange(attempt: int)
    ensures BACKOFF_BASE <= Step(attempt) <= BACKOFF_MAX
  {
  }

  lemma AFifthOfReals(x: real, r: real, f: real)
    requires x == 5.0 * r && r >= 0.0 && 0.8 <= f < 1.2
    ensures 4.0 * r <= x * f <= 6.0 * r
  {
    assert x * 0.8 <= x * f <= x * 1.2;
  }

  lemma FloorBetween(y: real, lo: int, hi: int)
    requires lo as real <= y <= hi as real
    ensures lo <= y.Floor <= hi
  {
  }

  lemma AFifthEitherWay(d: int, q: int, f: real)
    requires d == 5 * q && q >= 0 && 0.8 <= f < 1.2
    ensures 4 * q <= (d as real * f).Floor <= 6 * q
  {
    AFifthOfReals(d as real, q as real, f);
    FloorBetween(d as real * f, 4 * q, 6 * q);
  }

  /** The nth retry waits two seconds doubled n - 1 times, or five minutes if that is
      less, give or take a fifth. */
  lemma TheDelayDoublesUpToTheCap(n: int, draw: real)
    requires n >= 1 && 0.0 <= draw < 1.0
    ensures var d := Min(2_000_000_000 * Pow2(n - 1), 300_000_000_000);
            4 * d <= 5 * Jittered(n, draw) <= 6 * d
  {
    var q := Min(400_000_000 * Pow2(n - 1), 60_000_000_000);
    var d := Step(n);
    assert d == 5 * q == Min(2_000_000_000 * Pow2(n - 1), 300_000_000_000);
    var f := 1.0 + (draw * 0.4 - 0.2);
    AFifthEitherWay(d, q, f);
    assert Jittered(n, draw) == (d as real * f).Floor;
  }

  lemma {:induction false} CapIsAbsorbing(attempt: int, later: int)
    requires 1 <= attempt <= later && BACKOFF_BASE * Pow2(attempt - 1) >= BACKOFF_MAX
    ensures BACKOFF_BASE * Pow2(later - 1) >= BACKOFF_MAX
    decreases later
  {
    if attempt < later {
      CapIsAbsorbing(attempt, later - 1);
      assert Pow2(later - 1) == 2 * Pow2(later - 2);
    }
  }

  /** The loop stops doubling at the cap, so the value stays below twice the cap
      (far inside 64 bits) for any attempt number; each retry is deferred by at
      least 1.6 and at most 360 seconds. */
  method Delay(attempt: int, draw: real) returns (delay: int)
    requires 0.0 <= draw < 1.0
    ensures delay == Jittered(attempt, draw)
    ensures 1_600_000_000 <= delay <= 360_000_000_000
  {
    var a := attempt;
    if a < 1 {
      a := 1;
    }
    var d := BACKOFF_BASE;
    var i := 1;
    while i < a && d < BACKOFF_MAX
      invariant 1 <= i <= a
      invariant d == BACKOFF_BASE * Pow2(i - 1)
      invariant d < 2 * BACKOFF_MAX
    {
      d := d * 2;
      i := i + 1;
    }
    if d >= BACKOFF_MAX { CapIsAbsorbing(i, a); }
    if d > BACKOFF_MAX {
      d := BACKOFF_MAX;
    }
    delay := (d as real * (1.0 + (draw * 0.4 - 0.2))).Floor;
  }
}

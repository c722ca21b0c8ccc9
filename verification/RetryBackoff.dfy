/** Delays between retries.  The code saturates twice at 64 bits; neither
  saturation can be seen: the delay is the one that unbounded arithmetic gives.
  (Exponential backoff works in floating point and is not modelled.) */
module RetryBackoff {
  import opened Basics

  const U64_MAX: nat := 0xFFFF_FFFF_FFFF_FFFF
  const U32_MAX: nat := 0xFFFF_FFFF

  type U64 = x: nat | x <= U64_MAX
  type U32 = x: nat | x <= U32_MAX

  datatype BackoffConfig =
    | Constant(delayMs: U64)
    | Fibonacci(minDelayMs: U64, maxDelayMs: U64)

  // -------------------------------------------------------- as the code runs

  function SaturatingAdd(a: U64, b: U64): U64 {
    if a + b <= U64_MAX then a + b else U64_MAX
  }

  function SaturatingMul(a: U64, b: U64): U64 {
    if a * b <= U64_MAX then a * b else U64_MAX
  }

  function SaturatingPred(n: U32): U32 {
    if n == 0 then 0 else n - 1
  }

  method FibonacciNumber(n: U32) returns (a: U64)
    ensures a == Saturated(Fib(n))
  {
    var b: U64;
    a, b := 1, 1;
    for i := 0 to n
      invariant a == Saturated(Fib(i)) && b == Saturated(Fib(i + 1))
    {
      FibPositive(i);
      var next := SaturatingAdd(a, b);
      a := b;
      b := next;
    }
  }

  method Delay(config: BackoffConfig, retryCount: U32) returns (ms: U64)
    ensures config.Constant? ==> ms == config.delayMs
    ensures config.Fibonacci? && retryCount <= 2 ==> ms == Min(config.minDelayMs, config.maxDelayMs)
    ensures ms == IdealDelay(config, retryCount)
  {
    match config {
      case Constant(delayMs) => ms := delayMs;
      case Fibonacci(minDelayMs, maxDelayMs) =>
        var fib := FibonacciNumber(SaturatingPred(retryCount));
        SaturationIsInvisible(minDelayMs, maxDelayMs, Fib(SaturatingPred(retryCount)));
        ms := Min(SaturatingMul(minDelayMs, fib), maxDelayMs);
    }
  }

  // --------------------------------------------------- unbounded arithmetic

  /** 1, 1, 2, 3, 5, ... */
  function Fib(n: nat): nat {
    if n < 2 then 1 else Fib(n - 1) + Fib(n - 2)
  }

  function Saturated(x: nat): U64 {
    if x <= U64_MAX then x else U64_MAX
  }

  /** The documented delay of the attempt `retryCount`, counted from one. */
  function IdealDelay(config: BackoffConfig, retryCount: nat): (ms: U64) {
    match config
    case Constant(delayMs) => delayMs
    case Fibonacci(minDelayMs, maxDelayMs) =>
      CappedIsU64(minDelayMs, Fib(if retryCount == 0 then 0 else retryCount - 1), maxDelayMs);
      Min(minDelayMs * Fib(if retryCount == 0 then 0 else retryCount - 1), maxDelayMs)
  }

  lemma CappedIsU64(a: nat, b: nat, cap: U64)
    ensures 0 <= Min(a * b, cap) <= U64_MAX
  {
    assert a * b >= 0;
  }

  lemma SaturationIsInvisible(minDelay: U64, maxDelay: U64, fib: nat)
    ensures Min(SaturatingMul(minDelay, Saturated(fib)), maxDelay) == Min(minDelay * fib, maxDelay)
  {
    if fib > U64_MAX && minDelay >= 1 {
      ProductAtLeast(minDelay, fib, U64_MAX);
      ProductAtLeast(minDelay, U64_MAX, U64_MAX);
    }
  }

  lemma ProductAtLeast(a: nat, b: nat, bound: nat)
    requires a >= 1 && b >= bound
    ensures a * b >= bound
  {
    assert a * b == b + (a - 1) * b;
  }

  // ----------------------------------------------------------------- promises

  lemma {:induction false} FibPositive(n: nat)
    ensures Fib(n) >= 1
  {
    if n >= 2 {
      FibPositive(n - 1);
    }
  }

  lemma {:induction false} FibGrows(m: nat, n: nat)
    requires m <= n
    ensures Fib(m) <= Fib(n)
  {
    if m < n {
      FibGrows(m, n - 1);
    }
  }

  /** Later attempts wait at least as long, and never longer than the cap. */
  lemma DelaysGrowToTheCap(config: BackoffConfig, m: nat, n: nat)
    requires m <= n
    ensures IdealDelay(config, m) <= IdealDelay(config, n)
    ensures config.Fibonacci? ==> IdealDelay(config, n) <= config.maxDelayMs
  {
    if config.Fibonacci? {
      var i, j := if m == 0 then 0 else m - 1, if n == 0 then 0 else n - 1;
      FibGrows(i, j);
      ProductGrows(config.minDelayMs, Fib(i), Fib(j));
    }
  }

  lemma ProductGrows(a: nat, x: nat, y: nat)
    requires x <= y
    ensures a * x <= a * y
  {}

  /** The delays repeat the Fibonacci recurrence until they reach the cap. */
  lemma DelaysAddUp(minDelay: U64, maxDelay: U64, n: nat)
    requires n >= 3
    ensures var d := (k: nat) => IdealDelay(Fibonacci(minDelay, maxDelay), k);
            d(n) == Min(d(n - 1) + d(n - 2), maxDelay)
  {
    var a, b := Fib(n - 2), Fib(n - 3);
    assert minDelay * Fib(n - 1) == minDelay * a + minDelay * b;
  }

  /** Ten steps of the recurrence at once. */
  function TenOn(p: (nat, nat)): (nat, nat) {
    (34 * p.0 + 55 * p.1, 55 * p.0 + 89 * p.1)
  }

  function ByTens(k: nat): (nat, nat) {
    if k == 0 then (2, 3) else TenOn(ByTens(k - 1))
  }

  lemma TenStepsOn(n: nat)
    ensures (Fib(n + 10), Fib(n + 11)) == TenOn((Fib(n), Fib(n + 1)))
  {
    assert Fib(n + 4) == 2 * Fib(n) + 3 * Fib(n + 1) && Fib(n + 5) == 3 * Fib(n) + 5 * Fib(n + 1);
    assert Fib(n + 8) == 2 * Fib(n + 4) + 3 * Fib(n + 5) && Fib(n + 9) == 3 * Fib(n + 4) + 5 * Fib(n + 5);
  }

  lemma {:induction false} ByTensIs(k: nat)
    ensures ByTens(k) == (Fib(10 * k + 2), Fib(10 * k + 3))
  {
    if k > 0 {
      ByTensIs(k - 1);
      TenStepsOn(10 * (k - 1) + 2);
    }
  }

  lemma NineTens()
    ensures ByTens(9) == (12200160415121876738, 19740274219868223167)
  {
    assert ByTens(3) == (3524578, 5702887);
    assert ByTens(6) == (6557470319842, 10610209857723);
  }

  /** The last index whose Fibonacci number has 64 bits, compared with `n`. */
  lemma {:induction false} CapIndex(n: nat) returns (last: nat)
    ensures Fib(last) < U64_MAX < Fib(last + 1)
    ensures if n >= 94 then last + 1 <= n - 1 else n == 0 || n - 1 <= last
  {
    NineTens();
    var k := 9;
    ByTensIs(k);
    last := 10 * k + 2;
  }

  lemma CappedFrom94(n: nat, lo: U64, hi: U64)
    requires n >= 94 && lo >= 1
    ensures IdealDelay(Fibonacci(lo, hi), n) == hi
  {
    var last := CapIndex(n);
    FibGrows(last + 1, n - 1);
    ProductAtLeast(lo, Fib(n - 1), hi);
  }

  lemma NotCappedBefore94(n: nat)
    requires n < 94
    ensures IdealDelay(Fibonacci(1, U64_MAX), n) < U64_MAX
  {
    var last := CapIndex(n);
    FibGrows(if n == 0 then 0 else n - 1, last);
  }

  /** From attempt 94 on, and no earlier, every configuration with a positive
    minimum delay has reached its cap. */
  lemma AllCappedIff(n: nat)
    ensures (forall lo: U64, hi: U64 | lo >= 1 :: IdealDelay(Fibonacci(lo, hi), n) == hi) <==> n >= 94
  {
    if n >= 94 {
      forall lo: U64, hi: U64 | lo >= 1 ensures IdealDelay(Fibonacci(lo, hi), n) == hi {
        CappedFrom94(n, lo, hi);
      }
    } else {
      NotCappedBefore94(n);
    }
  }
}

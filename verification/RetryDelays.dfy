/**
 Exponential backoff. `std::pow` over doubles is taken over the reals, and the
 truncating cast to an integer is the floor, since delays are not negative.
 */
module RetryDelays {
  import opened Tasks

  function Pow(x: real, n: nat): real {
    if n == 0 then 1.0 else x * Pow(x, n - 1)
  }

  function Scaled(base: int, factor: real): int {
    (base as real * factor).Floor
  }

  function ComputeRetryDelayMs(policy: RetryPolicy, retryCount: int): int {
    if retryCount <= 0 then policy.baseDelayMs
    else Scaled(policy.baseDelayMs, Pow(policy.multiplier, retryCount - 1))
  }

  function AtLeastOne(x: real): real {
    if x < 1.0 then 1.0 else x
  }

  /** No retry of a task with this policy waits longer. */
  function MaxRetryDelayMs(policy: RetryPolicy): int {
    if policy.maxRetries < 1 then policy.baseDelayMs
    else Scaled(policy.baseDelayMs, Pow(AtLeastOne(policy.multiplier), policy.maxRetries - 1))
  }

  lemma ProductBetween(a: real, b: real, c: real, d: real)
    requires 0.0 <= a <= b && 0.0 <= c <= d
    ensures 0.0 <= a * c <= b * d
  {
    assert a * c <= b * c;
    assert b * c <= b * d;
  }

  lemma {:induction false} PowBetween(x: real, y: real, n: nat)
    requires 0.0 <= x <= y
    ensures 0.0 <= Pow(x, n) <= Pow(y, n)
  {
    if n == 0 {
    } else {
      PowBetween(x, y, n - 1);
      ProductBetween(x, y, Pow(x, n - 1), Pow(y, n - 1));
    }
  }

  lemma {:induction false} PowGrows(x: real, j: nat, k: nat)
    requires x >= 1.0 && j <= k
    ensures 1.0 <= Pow(x, j) <= Pow(x, k)
  {
    if k == 0 {
    } else if j < k {
      PowGrows(x, j, k - 1);
      ProductBetween(1.0, x, Pow(x, k - 1), Pow(x, k - 1));
    } else {
      PowGrows(x, j - 1, k - 1);
      ProductBetween(1.0, x, 1.0, Pow(x, k - 1));
    }
  }

  lemma PowBelow(x: real, j: nat, k: nat)
    requires x >= 0.0 && j <= k
    ensures 0.0 <= Pow(x, j) <= Pow(AtLeastOne(x), k)
  {
    PowBetween(x, AtLeastOne(x), j);
    PowGrows(AtLeastOne(x), j, k);
  }

  lemma ScaledBetween(base: int, low: real, high: real)
    requires 0 <= base && 0.0 <= low <= high
    ensures 0 <= Scaled(base, low) <= Scaled(base, high)
  {
    ProductBetween(base as real, base as real, low, high);
  }

  lemma ScaledByOne(base: int, x: real)
    ensures Pow(x, 0) == 1.0 && Scaled(base, Pow(x, 0)) == base
  {
  }

  /** The first delay is the base delay; with a multiplier of at least one the last is the ceiling. */
  lemma RetryDelayEnds(policy: RetryPolicy)
    ensures ComputeRetryDelayMs(policy, 1) == policy.baseDelayMs
    ensures policy.multiplier >= 1.0 && policy.maxRetries >= 1 ==>
              ComputeRetryDelayMs(policy, policy.maxRetries) == MaxRetryDelayMs(policy)
  {
    hide Pow, Scaled;
    ScaledByOne(policy.baseDelayMs, policy.multiplier);
  }

  /** Every delay a retry can compute lies between zero and the policy's ceiling. */
  lemma RetryDelayBounded(policy: RetryPolicy, retryCount: int)
    requires ValidPolicy(policy) && retryCount <= policy.maxRetries
    ensures 0 <= ComputeRetryDelayMs(policy, retryCount) <= MaxRetryDelayMs(policy)
  {
    hide Pow, Scaled;
    if policy.maxRetries >= 1 {
      var n := if retryCount <= 0 then 0 else retryCount - 1;
      ScaledByOne(policy.baseDelayMs, policy.multiplier);
      PowBelow(policy.multiplier, n, policy.maxRetries - 1);
      var highest := Pow(AtLeastOne(policy.multiplier), policy.maxRetries - 1);
      ScaledBetween(policy.baseDelayMs, Pow(policy.multiplier, n), highest);
    }
  }

  /** With a multiplier of at least one, later retries never wait less. */
  lemma RetryDelayNondecreasing(policy: RetryPolicy, j: int, k: int)
    requires ValidPolicy(policy) && policy.multiplier >= 1.0 && j <= k
    ensures ComputeRetryDelayMs(policy, j) <= ComputeRetryDelayMs(policy, k)
  {
    hide Pow, Scaled;
    if k >= 1 {
      var n := if j <= 1 then 0 else j - 1;
      ScaledByOne(policy.baseDelayMs, policy.multiplier);
      PowGrows(policy.multiplier, n, k - 1);
      ScaledBetween(policy.baseDelayMs, Pow(policy.multiplier, n), Pow(policy.multiplier, k - 1));
    }
  }

  // -------------------------------------------------------------- growth law

  /** The exact delays before rounding: the base delay, and then each the previous one times the multiplier. */
  predicate Geometric(policy: RetryPolicy, exact: seq<real>) {
    && (exact != [] ==> exact[0] == policy.baseDelayMs as real)
    && forall i :: 0 <= i < |exact| - 1 ==> exact[i + 1] == policy.multiplier * exact[i]
  }

  lemma {:induction false} GeometricIsPow(policy: RetryPolicy, exact: seq<real>, i: nat)
    requires Geometric(policy, exact) && i < |exact|
    ensures exact[i] == policy.baseDelayMs as real * Pow(policy.multiplier, i)
  {
    if i == 0 {
    } else {
      GeometricIsPow(policy, exact, i - 1);
      var base, x, p := policy.baseDelayMs as real, policy.multiplier, Pow(policy.multiplier, i - 1);
      assert exact[i - 1 + 1] == x * exact[i - 1];
      assert x * (base * p) == base * (x * p);
    }
  }

  /**
   Exponential backoff: the delay of the k-th retry is the k-th term, rounded down,
   of the real sequence that starts with the base delay and grows by the multiplier;
   a count of zero or less gives the base delay.
   */
  lemma RetryDelayIsGeometric(policy: RetryPolicy, exact: seq<real>)
    requires Geometric(policy, exact)
    ensures forall k :: 1 <= k <= |exact| ==> ComputeRetryDelayMs(policy, k) == exact[k - 1].Floor
    ensures forall k :: k <= 0 ==> ComputeRetryDelayMs(policy, k) == policy.baseDelayMs
  {
    forall k | 1 <= k <= |exact|
      ensures ComputeRetryDelayMs(policy, k) == exact[k - 1].Floor
    {
      GeometricIsPow(policy, exact, k - 1);
    }
  }

  function IntPow(n: nat, k: nat): nat {
    if k == 0 then 1 else n * IntPow(n, k - 1)
  }

  lemma {:induction false} PowOfInt(n: nat, k: nat)
    ensures Pow(n as real, k) == IntPow(n, k) as real
  {
    if k == 0 {
    } else {
      PowOfInt(n, k - 1);
      assert n as real * IntPow(n, k - 1) as real == (n * IntPow(n, k - 1)) as real;
    }
  }

  lemma ScaledByInt(base: int, n: nat)
    ensures Scaled(base, n as real) == base * n
  {
    assert base as real * n as real == (base * n) as real;
  }

  /** With a whole multiplier nothing is rounded: each delay is exactly that many times the one before. */
  lemma RetryDelayMultiplies(policy: RetryPolicy, n: nat, k: nat)
    requires policy.multiplier == n as real && k >= 1
    ensures ComputeRetryDelayMs(policy, k + 1) == n * ComputeRetryDelayMs(policy, k)
  {
    hide Pow, Scaled;
    PowOfInt(n, k - 1);
    PowOfInt(n, k);
    ScaledByInt(policy.baseDelayMs, IntPow(n, k - 1));
    ScaledByInt(policy.baseDelayMs, IntPow(n, k));
    assert policy.baseDelayMs * (n * IntPow(n, k - 1)) == n * (policy.baseDelayMs * IntPow(n, k - 1));
  }
}

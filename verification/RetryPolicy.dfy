/** Exponential back-off of failed uploads. */
module RetryPolicy {
  import opened Wrappers

  function Power2(n: nat): nat {
    if n == 0 then 1 else 2 * Power2(n - 1)
  }

  function Min(a: int, b: int): int {
    if a < b then a else b
  }

  function Max(a: int, b: int): int {
    if a < b then b else a
  }

  lemma {:induction false} Power2Grows(m: nat, n: nat)
    requires m <= n
    ensures Power2(m) <= Power2(n)
  {
    if m < n {
      Power2Grows(m, n - 1);
    }
  }

  /** Once the doubled delay has passed the maximum it stays there. */
  lemma Saturated(base: int, m: nat, n: nat, maximum: int)
    requires base > 0 && m <= n && base * Power2(m) >= maximum
    ensures Min(base * Power2(n), maximum) == maximum
  {
    Power2Grows(m, n);
    Scale(base, Power2(m), Power2(n));
  }

  lemma Scale(a: int, b: int, c: int)
    requires a > 0 && b <= c
    ensures a * b <= a * c
  {}

  lemma Double(base: int, n: nat)
    ensures base * Power2(n + 1) == 2 * (base * Power2(n))
  {
    assert Power2(n + 1) == 2 * Power2(n);
    assert base * (2 * Power2(n)) == 2 * (base * Power2(n));
  }

  /** The base delay and the maximum `NewQueue` settles on. */
  function EffectiveBase(base: int): int {
    if base <= 0 then 30 * SECOND else base
  }

  function EffectiveMax(base: int, maximum: int): int {
    if maximum < EffectiveBase(base) then 30 * 60 * SECOND else maximum
  }

  /** base * 2^(attempt - 1), capped at the maximum. */
  function CappedDelay(attempt: int, base: int, maximum: int): int {
    Min(EffectiveBase(base) * Power2(if attempt < 1 then 0 else attempt - 1), EffectiveMax(base, maximum))
  }

  /** The first delay is the base, each further one twice the one before, and none exceeds the maximum. */
  lemma DelaysDouble(attempt: int, base: int, maximum: int)
    ensures var first, most := if base <= 0 then 30 * SECOND else base, EffectiveMax(base, maximum);
      && most == (if maximum >= first then maximum else 30 * 60 * SECOND)
      && CappedDelay(attempt, base, maximum) <= most
      && (attempt <= 1 ==> CappedDelay(attempt, base, maximum) == Min(first, most))
      && (attempt >= 1 ==>
            CappedDelay(attempt + 1, base, maximum) == Min(2 * CappedDelay(attempt, base, maximum), most))
  {
    if attempt >= 1 {
      Double(EffectiveBase(base), attempt - 1);
    }
  }

  /**
   * The doubling loop computes the capped closed form, no intermediate value (`peak` is the largest) exceeds the larger
   * of base and maximum, and the jitter adds at most a fifth.
   */
  method RetryDelay(
      attempt: int, configuredBase: int, configuredMax: int, random: nat) returns (delay: int, ghost peak: int)
    ensures var capped := CappedDelay(attempt, configuredBase, configuredMax); capped <= delay <= capped + capped / 5
    ensures peak <= Max(EffectiveBase(configuredBase), EffectiveMax(configuredBase, configuredMax))
  {
    var base, maximum := EffectiveBase(configuredBase), EffectiveMax(configuredBase, configuredMax);
    var n := if attempt < 1 then 1 else attempt;
    delay := base;
    peak := base;
    var i := 1;
    assert base * Power2(0) == base;
    while i < n && delay < maximum
      invariant 1 <= i <= n
      invariant delay == base * Power2(i - 1)
      invariant 0 < delay <= peak <= Max(base, maximum)
      decreases n - i
    {
      Double(base, i - 1);
      if delay > maximum / 2 {
        Saturated(base, i, n - 1, maximum);
        delay := maximum;
        peak := Max(peak, delay);
        break;
      }
      delay := delay * 2;
      peak := Max(peak, delay);
      i := i + 1;
    }
    if delay == base * Power2(i - 1) && i < n {
      Saturated(base, i - 1, n - 1, maximum);
    }
    if delay > maximum {
      delay := maximum;
    }
    assert delay == CappedDelay(attempt, configuredBase, configuredMax);
    var jitterLimit := delay / 5;
    if jitterLimit > 0 {
      delay := delay + random % (jitterLimit + 1);
    }
  }
}

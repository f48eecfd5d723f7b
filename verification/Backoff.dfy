/** Retry delays: `min(base * 2 ** max(n - 1, 0), cap)`, with the optional jitter of the outbox. */
module Backoff {
  import opened Common

  function Exponential(base: nat, attempt: nat, cap: nat): nat {
    Min(base * Pow2(Max(attempt - 1, 0)), cap)
  }

  /** `jitter` is what the random draw gave, between 0 and the configured maximum. */
  function Jittered(base: nat, attempt: nat, cap: nat, jitter: nat): nat {
    Min(Exponential(base, attempt, cap) + jitter, cap)
  }

  /** Delays never shrink from one attempt to the next, jitter only adds, and the cap holds. */
  lemma DelayShape(base: nat, a: nat, b: nat, cap: nat, jitter: nat)
    requires a <= b
    ensures Exponential(base, a, cap) <= Exponential(base, b, cap)
    ensures Jittered(base, a, cap, jitter) <= Jittered(base, b, cap, jitter) <= cap
    ensures Exponential(base, a, cap) <= Jittered(base, a, cap, jitter)
  {
    var m, n := Max(a - 1, 0), Max(b - 1, 0);
    Pow2Monotone(m, n);
    TimesMonotone(base, Pow2(m), Pow2(n));
  }

  lemma TimesMonotone(base: nat, p: nat, q: nat)
    requires p <= q
    ensures base * p <= base * q
  {
    assert base * q == base * p + base * (q - p);
  }

  /** A positive base reaches the cap after finitely many attempts and stays there. */
  lemma DelaySaturates(base: nat, a: nat, cap: nat)
    requires base > 0 && a > cap
    ensures Exponential(base, a, cap) == cap
  {
    Pow2Dominates(a - 1);
    TimesAtLeast(base, Pow2(a - 1));
  }

  lemma TimesAtLeast(base: nat, p: nat)
    requires base > 0
    ensures base * p >= p
  {
    assert base * p == p + (base - 1) * p;
  }
}

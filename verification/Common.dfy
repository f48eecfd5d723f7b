/** Small vocabulary shared by every model. */
module Common {

  datatype Option<+T> = None | Some(value: T)

  /** How one SQL statement or transaction ends as its client sees it: acknowledged, lost
      before it took effect, or applied although the client got an error. */
  datatype Outcome = Done | LostBefore | LostAfter {
    predicate Applied() { this != LostBefore }
  }

  function Min(a: int, b: int): int { if a <= b then a else b }

  function Max(a: int, b: int): int { if a >= b then a else b }

  lemma MinMaxLaws(a: int, b: int)
    ensures Min(a, b) <= a && Min(a, b) <= b && Min(a, b) in {a, b}
    ensures a <= Max(a, b) && b <= Max(a, b) && Max(a, b) in {a, b}
  {
  }

  /** The elements of `s` occur once each. */
  ghost predicate Distinct<T(!new)>(s: seq<T>) {
    forall i, j | 0 <= i < j < |s| :: s[i] != s[j]
  }

  function Pow2(n: nat): (p: nat)
    ensures p >= 1
  {
    if n == 0 then 1 else 2 * Pow2(n - 1)
  }

  /** Doubling from one: 1, 2, 4, ... */
  lemma Pow2Doubles(n: nat)
    ensures Pow2(0) == 1 && Pow2(n + 1) == 2 * Pow2(n)
  {
  }

  lemma {:induction false} Pow2Monotone(a: nat, b: nat)
    requires a <= b
    ensures Pow2(a) <= Pow2(b)
    decreases b
  {
    if a < b {
      Pow2Monotone(a, b - 1);
    }
  }

  lemma {:induction false} Pow2Dominates(n: nat)
    ensures Pow2(n) > n
  {
    if n > 0 {
      Pow2Dominates(n - 1);
    }
  }
}

/** Decimal text of natural numbers, as template literals print them and `Number` reads them. */
module Decimal {

  predicate IsDigit(c: char) { '0' <= c <= '9' }

  function DigitChar(d: nat): (c: char)
    requires d < 10
    ensures IsDigit(c) && DigitValue(c) == d
  {
    '0' + (d as char)
  }

  function DigitValue(c: char): nat
    requires IsDigit(c)
  {
    (c as int) - ('0' as int)
  }

  predicate AllDigits(s: string) { forall i | 0 <= i < |s| :: IsDigit(s[i]) }

  function ToDec(n: nat): (s: string)
    ensures |s| > 0 && AllDigits(s)
  {
    if n < 10 then [DigitChar(n)] else ToDec(n / 10) + [DigitChar(n % 10)]
  }

  function FromDec(s: string): nat
    requires AllDigits(s)
  {
    if |s| == 0 then 0
    else 10 * FromDec(s[..|s| - 1]) + DigitValue(s[|s| - 1])
  }

  lemma {:induction false} DecRoundTrip(n: nat)
    ensures FromDec(ToDec(n)) == n
  {
    var s := ToDec(n);
    if n < 10 {
      assert FromDec(s[..0]) == 0;
    } else {
      DecRoundTrip(n / 10);
      assert s[..|s| - 1] == ToDec(n / 10);
    }
  }

  lemma DecInjective(m: nat, n: nat)
    requires ToDec(m) == ToDec(n)
    ensures m == n
  {
    DecRoundTrip(m);
    DecRoundTrip(n);
  }
}

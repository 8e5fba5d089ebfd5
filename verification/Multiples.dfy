/** Multiples of a fixed number, one step of arithmetic at a time. */
module Multiples {
  lemma MulNext(n: nat, a: int)
    ensures n * (a + 1) == n * a + n
  {
  }

  lemma MulAtMost(n: nat, a: int, b: int)
    requires a <= b
    ensures n * a <= n * b
  {
  }

  lemma MulSplit(n: nat, a: int, b: int, c: int)
    requires a <= b <= c
    ensures n * (c - a) == n * (c - b) + n * (b - a) && n * (b - a) >= 0 && n * (c - b) >= 0
  {
    MulAtMost(n, 0, b - a);
    MulAtMost(n, 0, c - b);
  }

  lemma TimesOneOrNone(n: nat)
    ensures n * 1 == n && n * 0 == 0
  {
  }
}

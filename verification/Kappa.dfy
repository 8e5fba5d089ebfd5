/** Cohen's kappa over two raters' scores, in exact arithmetic. */
module Kappa {
  import opened Prelude

  datatype KappaError = LengthMismatch | NoScores

  function Agreements(a: seq<int>, b: seq<int>): (m: nat)
    requires |a| == |b|
    ensures m <= |a| && (m == |a| <==> a == b)
  {
    if a == [] then 0 else
      var n := |a| - 1;
      Agreements(a[..n], b[..n]) + if a[n] == b[n] then 1 else 0
  }

  function CountOf(a: seq<int>, c: int): (k: nat)
    ensures k <= |a|
  {
    if a == [] then 0 else CountOf(a[..|a| - 1], c) + if a[|a| - 1] == c then 1 else 0
  }

  /** The categories in the order they are visited: each score of either rater, once. */
  ghost predicate Enumerates(cats: seq<int>, a: seq<int>, b: seq<int>) {
    && (forall i, j :: 0 <= i < j < |cats| ==> cats[i] != cats[j])
    && (forall c :: c in cats <==> c in a || c in b)
  }

  /** n times q, as a sum. */
  ghost function Multiple(q: real, n: nat): real {
    if n == 0 then 0.0 else q + Multiple(q, n - 1)
  }

  lemma {:induction false} MultipleIsProduct(q: real, n: nat)
    ensures Multiple(q, n) == q * n as real
  {
    if n > 0 {
      MultipleIsProduct(q, n - 1);
      assert q * n as real == q * ((n - 1) as real + 1.0) == q * (n - 1) as real + q;
    }
  }

  ghost predicate IsShare(q: real, x: nat, n: nat) { Multiple(q, n) == x as real }

  /** The exact quotient x / n. */
  ghost function Share(x: nat, n: nat): (q: real)
    requires n > 0
    ensures IsShare(q, x, n)
  {
    MultipleIsProduct(x as real / n as real, n);
    assert IsShare(x as real / n as real, x, n);
    var q :| IsShare(q, x, n); q
  }

  ghost function Sum(cats: seq<int>, term: int -> real): real {
    if cats == [] then 0.0 else Sum(cats[..|cats| - 1], term) + term(cats[|cats| - 1])
  }

  /** How likely both raters are to pick c if each only keeps its own frequencies: freq_a[c] * freq_b[c]. */
  ghost function Chance(a: seq<int>, b: seq<int>): int -> real
    requires a != [] && b != []
  {
    c => Share(CountOf(a, c), |a|) * Share(CountOf(b, c), |b|)
  }

  ghost function Expected(cats: seq<int>, a: seq<int>, b: seq<int>): real
    requires a != [] && b != []
  {
    Sum(cats, Chance(a, b))
  }

  ghost function Observed(a: seq<int>, b: seq<int>): real
    requires |a| == |b| && a != []
  {
    Share(Agreements(a, b), |a|)
  }

  ghost function CohensKappa(cats: seq<int>, a: seq<int>, b: seq<int>): Result<real, KappaError> {
    if |a| != |b| then Err(LengthMismatch)
    else if a == [] then Err(NoScores)
    else
      var observed, expected := Observed(a, b), Expected(cats, a, b);
      if expected == 1.0 then Ok(if observed == 1.0 then 1.0 else 0.0)
      else Ok((observed - expected) / (1.0 - expected))
  }

  // ------------------------------------------------------------- integer sums

  ghost function Total(cats: seq<int>, term: int -> nat): nat {
    if cats == [] then 0 else Total(cats[..|cats| - 1], term) + term(cats[|cats| - 1])
  }

  ghost function BothCounts(a: seq<int>, b: seq<int>): int -> nat {
    c => CountOf(a, c) * CountOf(b, c)
  }

  ghost function Products(cats: seq<int>, a: seq<int>, b: seq<int>): nat {
    Total(cats, BothCounts(a, b))
  }

  function Counts(cats: seq<int>, a: seq<int>): nat {
    if cats == [] then 0 else Counts(cats[..|cats| - 1], a) + CountOf(a, cats[|cats| - 1])
  }

  /** Each score is counted in exactly one category. */
  lemma {:induction false} CountsSnoc(cats: seq<int>, a: seq<int>, x: int)
    requires forall i, j :: 0 <= i < j < |cats| ==> cats[i] != cats[j]
    ensures Counts(cats, a + [x]) == Counts(cats, a) + if x in cats then 1 else 0
  {
    if cats != [] {
      var k := |cats| - 1;
      CountsSnoc(cats[..k], a, x);
      assert (a + [x])[..|a|] == a;
      assert x in cats <==> x in cats[..k] || x == cats[k];
    }
  }

  lemma {:induction false} CountsOfNothing(cats: seq<int>)
    ensures Counts(cats, []) == 0
  {
    if cats != [] { CountsOfNothing(cats[..|cats| - 1]); }
  }

  lemma {:induction false} CountsAreLength(cats: seq<int>, a: seq<int>)
    requires forall i, j :: 0 <= i < j < |cats| ==> cats[i] != cats[j]
    requires forall x :: x in a ==> x in cats
    ensures Counts(cats, a) == |a|
  {
    if a == [] {
      CountsOfNothing(cats);
    } else {
      var n := |a| - 1;
      assert a == a[..n] + [a[n]];
      CountsAreLength(cats, a[..n]);
      CountsSnoc(cats, a[..n], a[n]);
    }
  }

  /** The two raters can use one category together no more often than items plus agreements allow. */
  lemma {:induction false} CategoryIsShared(a: seq<int>, b: seq<int>, c: int)
    requires |a| == |b|
    ensures CountOf(a, c) + CountOf(b, c) <= |a| + Agreements(a, b)
  {
    if a != [] { CategoryIsShared(a[..|a| - 1], b[..|a| - 1], c); }
  }

  lemma FourTimesProduct(x: nat, y: nat, k: nat)
    requires x + y <= k
    ensures 4 * (x * y) <= (x + y) * k
  {
    assert (x - y) * (x - y) >= 0;
    assert 4 * (x * y) <= (x + y) * (x + y);
    assert (x + y) * (x + y) <= (x + y) * k;
  }

  lemma Distribute(x: int, y: int, k: int)
    ensures (x + y) * k == x * k + y * k
  {
  }

  lemma {:induction false} ProductsBounded(cats: seq<int>, a: seq<int>, b: seq<int>)
    requires |a| == |b|
    ensures 4 * Products(cats, a, b) <= (Counts(cats, a) + Counts(cats, b)) * (|a| + Agreements(a, b))
  {
    if cats != [] {
      var i := |cats| - 1;
      var k := |a| + Agreements(a, b);
      var x, y, rest := CountOf(a, cats[i]), CountOf(b, cats[i]), Counts(cats[..i], a) + Counts(cats[..i], b);
      ProductsBounded(cats[..i], a, b);
      CategoryIsShared(a, b, cats[i]);
      FourTimesProduct(x, y, k);
      Distribute(x + y, rest, k);
      assert Counts(cats, a) + Counts(cats, b) == x + y + rest;
    }
  }

  lemma HalveBound(s: int, n: int, m: int)
    requires 4 * s <= (n + n) * (n + m)
    ensures 2 * s <= n * n + n * m
  {
    Distribute(n, n, n + m);
    assert n * (n + m) == n * n + n * m;
  }

  lemma ProductsOfLengths(cats: seq<int>, a: seq<int>, b: seq<int>)
    requires |a| == |b| && Enumerates(cats, a, b)
    ensures 4 * Products(cats, a, b) <= (|a| + |a|) * (|a| + Agreements(a, b))
  {
    ProductsBounded(cats, a, b);
    CountsAreLength(cats, a);
    CountsAreLength(cats, b);
  }

  /** Twice the chance agreements are at most n * n + n * agreements. */
  lemma ChanceBound(cats: seq<int>, a: seq<int>, b: seq<int>)
    requires |a| == |b| && Enumerates(cats, a, b)
    ensures 2 * Products(cats, a, b) <= |a| * |a| + |a| * Agreements(a, b)
  {
    ProductsOfLengths(cats, a, b);
    HalveBound(Products(cats, a, b), |a|, Agreements(a, b));
  }

  // ---------------------------------------------------------- back to fractions

  lemma {:induction false} CastProduct(x: nat, y: nat)
    ensures (x * y) as real == x as real * y as real
  {
    if x > 0 {
      CastProduct(x - 1, y);
      assert x * y == (x - 1) * y + y;
      assert x as real == (x - 1) as real + 1.0;
      assert (x - 1) as real * y as real + y as real == x as real * y as real;
    }
  }

  lemma CombineFractions(u: real, v: real, n: real, x: real, y: real)
    requires u * n == x && v * n == y
    ensures (u * v) * (n * n) == x * y
  {
    assert (u * v) * (n * n) == u * (v * (n * n)) == u * (n * (v * n)) == (u * n) * (v * n);
  }

  ghost predicate Scaled(e: real, n: nat, s: nat) { Multiple(Multiple(e, n), n) == s as real }

  lemma ScaledIsProduct(e: real, n: nat, s: nat)
    ensures Scaled(e, n, s) <==> e * (n as real * n as real) == s as real
  {
    MultipleIsProduct(e, n);
    MultipleIsProduct(Multiple(e, n), n);
    assert (e * n as real) * n as real == e * (n as real * n as real);
  }

  lemma ChanceScaled(e: real, s: nat, u: real, v: real, x: nat, y: nat, n: nat)
    requires IsShare(u, x, n) && IsShare(v, y, n) && e == u * v && s == x * y
    ensures Scaled(e, n, s)
  {
    CastProduct(x, y);
    MultipleIsProduct(u, n);
    MultipleIsProduct(v, n);
    ScaledIsProduct(e, n, s);
    CombineFractions(u, v, n as real, x as real, y as real);
  }

  lemma ScaledAdds(d: real, e: real, n: nat, s: nat, t: nat)
    requires Scaled(d, n, s) && Scaled(e, n, t)
    ensures Scaled(d + e, n, s + t)
  {
    ScaledIsProduct(d, n, s);
    ScaledIsProduct(e, n, t);
    ScaledIsProduct(d + e, n, s + t);
    var q := n as real * n as real;
    assert (d + e) * q == d * q + e * q;
  }

  lemma {:induction false} SumScaled(cats: seq<int>, term: int -> real, count: int -> nat, n: nat)
    requires forall c :: Scaled(term(c), n, count(c))
    ensures Scaled(Sum(cats, term), n, Total(cats, count))
  {
    if cats == [] {
      ScaledIsProduct(0.0, n, 0);
    } else {
      var k := |cats| - 1;
      SumScaled(cats[..k], term, count, n);
      ScaledAdds(Sum(cats[..k], term), term(cats[k]), n, Total(cats[..k], count), count(cats[k]));
    }
  }

  /** Over the common denominator n * n, the expected agreement is the sum of the count products. */
  lemma ExpectedIsProducts(cats: seq<int>, a: seq<int>, b: seq<int>)
    requires |a| == |b| && a != []
    ensures Scaled(Expected(cats, a, b), |a|, Products(cats, a, b))
  {
    var n := |a|;
    forall c ensures Scaled(Chance(a, b)(c), n, BothCounts(a, b)(c)) {
      var x, y := CountOf(a, c), CountOf(b, c);
      ChanceScaled(Chance(a, b)(c), BothCounts(a, b)(c), Share(x, n), Share(y, n), x, y, n);
    }
    SumScaled(cats, Chance(a, b), BothCounts(a, b), n);
  }

  lemma NonPositive(t: real, d: real)
    requires d > 0.0 && t * d <= 0.0
    ensures t <= 0.0
  {
  }

  lemma ShareBound(e: real, o: real, s: nat, m: nat, n: nat)
    requires n > 0 && 2 * s <= n * n + n * m
    requires Scaled(e, n, s) && IsShare(o, m, n)
    ensures 2.0 * e <= 1.0 + o
  {
    ScaledIsProduct(e, n, s);
    MultipleIsProduct(o, n);
    var r := n as real;
    var d := r * r;
    CastProduct(n, n);
    CastProduct(n, m);
    assert o * d == r * m as real by { assert o * d == (o * r) * r; }
    var t := 2.0 * e - (1.0 + o);
    assert t * d == 2.0 * (e * d) - d - o * d;
    NonPositive(t, d);
  }

  lemma ShareOfOne(m: nat, n: nat)
    requires 0 < n && m <= n
    ensures Share(m, n) <= 1.0 && (Share(m, n) == 1.0 <==> m == n)
  {
    var q, r := Share(m, n), n as real;
    MultipleIsProduct(q, n);
    NonPositive(q - 1.0, r) by { assert (q - 1.0) * r == m as real - r; }
    if m == n { NonPositive(1.0 - q, r) by { assert (1.0 - q) * r == 0.0; } }
  }

  /** Twice the expected agreement never exceeds one plus the observed agreement. */
  lemma ExpectedAgainstObserved(cats: seq<int>, a: seq<int>, b: seq<int>)
    requires |a| == |b| && a != [] && Enumerates(cats, a, b)
    ensures 2.0 * Expected(cats, a, b) <= 1.0 + Observed(a, b)
    ensures Observed(a, b) <= 1.0 && (Observed(a, b) == 1.0 <==> a == b)
  {
    ChanceBound(cats, a, b);
    ExpectedIsProducts(cats, a, b);
    ShareOfOne(Agreements(a, b), |a|);
    ShareBound(Expected(cats, a, b), Observed(a, b), Products(cats, a, b), Agreements(a, b), |a|);
  }

  // ------------------------------------------------------------------ results

  /** The arm for chance agreement without agreement is never taken. */
  lemma ElseArmUnreachable(cats: seq<int>, a: seq<int>, b: seq<int>)
    requires |a| == |b| && a != [] && Enumerates(cats, a, b) && Expected(cats, a, b) == 1.0
    ensures Observed(a, b) == 1.0
  {
    ExpectedAgainstObserved(cats, a, b);
  }

  lemma RatioBounds(o: real, e: real)
    requires 2.0 * e <= 1.0 + o && o <= 1.0 && e != 1.0
    ensures e < 1.0 && -1.0 <= (o - e) / (1.0 - e) <= 1.0
    ensures (o - e) / (1.0 - e) == 1.0 <==> o == 1.0
  {
    var d := 1.0 - e;
    var q := (o - e) / d;
    assert d > 0.0 && q * d == o - e;
    NonPositive(q - 1.0, d) by { assert (q - 1.0) * d == q * d - d; }
    NonPositive(-1.0 - q, d) by { assert (-1.0 - q) * d == -d - q * d; }
    if o == 1.0 { NonPositive(1.0 - q, d) by { assert (1.0 - q) * d == d - q * d; } }
    if q == 1.0 { assert q * d == d; }
  }

  /**
   For any two score lists, in whatever order the categories are visited: a
   result exactly when the lists have equal, non-zero length; then it lies
   between -1 and 1, and is 1 exactly for equal lists.
   */
  lemma KappaRange(cats: seq<int>, a: seq<int>, b: seq<int>)
    requires Enumerates(cats, a, b)
    ensures CohensKappa(cats, a, b).Ok? <==> |a| == |b| && a != []
    ensures CohensKappa(cats, a, b).Ok? ==> -1.0 <= CohensKappa(cats, a, b).value <= 1.0
    ensures CohensKappa(cats, a, b).Ok? ==> (CohensKappa(cats, a, b).value == 1.0 <==> a == b)
  {
    if |a| == |b| && a != [] {
      ExpectedAgainstObserved(cats, a, b);
      if Expected(cats, a, b) != 1.0 { RatioBounds(Observed(a, b), Expected(cats, a, b)); }
    }
  }

  /** The agreements beyond chance, as a share of those there could be beyond chance, over the denominator d. */
  lemma RatioScaled(k: real, o: real, e: real, d: real, m: real, s: real)
    requires e != 1.0 && k == (o - e) / (1.0 - e) && o * d == m && e * d == s
    ensures k * (d - s) == m - s
  {
    var rest := 1.0 - e;
    assert k * rest == o - e;
    assert d - s == rest * d;
    assert k * (rest * d) == (k * rest) * d == (o - e) * d == o * d - e * d;
  }

  lemma ShareScaled(q: real, x: nat, n: nat)
    requires IsShare(q, x, n)
    ensures q * (n * n) as real == (n * x) as real
  {
    MultipleIsProduct(q, n);
    CastProduct(n, n);
    CastProduct(n, x);
    var r := n as real;
    assert q * (r * r) == (q * r) * r;
  }

  lemma ScaledBySquare(e: real, n: nat, s: nat)
    requires Scaled(e, n, s)
    ensures e * (n * n) as real == s as real
  {
    ScaledIsProduct(e, n, s);
    CastProduct(n, n);
  }

  lemma ProductAtMost(n: nat, m: nat, k: nat)
    requires m <= k
    ensures n * m <= n * k
  {
  }

  /** e is all of d exactly when it is one. */
  lemma WholeIsOne(e: real, d: real)
    requires d > 0.0
    ensures e * d == d <==> e == 1.0
  {
    if e * d == d {
      NonPositive(e - 1.0, d) by { assert (e - 1.0) * d == e * d - d; }
      NonPositive(1.0 - e, d) by { assert (1.0 - e) * d == d - e * d; }
    }
  }

  /** Kappa from the counts: sq is n * n, am is n times the agreements, s is the sum of products. */
  ghost predicate Solves(k: real, sq: int, am: int, s: int) {
    s <= sq && k * (sq - s) as real == (am - s) as real && (s == sq ==> k == 1.0)
  }

  lemma LessThanWhole(e: real, d: real, m: real)
    requires 0.0 < d && m <= d && e * d == m && e != 1.0
    ensures m < d
  {
    WholeIsOne(e, d);
  }

  lemma RealSolves(k: real, sq: int, am: int, s: int)
    requires s < sq && k * (sq as real - s as real) == am as real - s as real
    ensures Solves(k, sq, am, s)
  {
    assert (sq - s) as real == sq as real - s as real;
  }

  lemma OneSolves(sq: int, am: int, s: int)
    requires 1.0 * sq as real == am as real && 1.0 * sq as real == s as real
    ensures Solves(1.0, sq, am, s)
  {
  }

  /** The observed and the expected agreement, and kappa as their quotient. */
  ghost predicate IsQuotient(k: real, o: real, e: real) {
    if e == 1.0 then o == 1.0 && k == 1.0 else k == (o - e) / (1.0 - e)
  }

  lemma KappaIsQuotient(cats: seq<int>, a: seq<int>, b: seq<int>)
    requires Enumerates(cats, a, b) && |a| == |b| && a != []
    ensures CohensKappa(cats, a, b).Ok? && IsQuotient(CohensKappa(cats, a, b).value, Observed(a, b), Expected(cats, a, b))
  {
    ExpectedAgainstObserved(cats, a, b);
  }

  lemma QuotientSolves(k: real, o: real, e: real, sq: int, am: int, s: int)
    requires IsQuotient(k, o, e) && 0 < sq && s <= sq
    requires o * sq as real == am as real && e * sq as real == s as real
    ensures Solves(k, sq, am, s)
  {
    if e == 1.0 { OneSolves(sq, am, s); } else {
      LessThanWhole(e, sq as real, s as real);
      RatioScaled(k, o, e, sq as real, am as real, s as real);
      RealSolves(k, sq, am, s);
    }
  }

  lemma FewProducts(n: nat, m: nat, s: nat)
    requires 0 < n && m <= n && 2 * s <= n * n + n * m
    ensures 0 < n * n && s <= n * n
  {
    ProductAtMost(n, m, n);
    ProductAtMost(n, 1, n);
  }

  lemma SharesSolve(k: real, o: real, e: real, n: nat, m: nat, s: nat)
    requires 0 < n && m <= n && 2 * s <= n * n + n * m
    requires IsQuotient(k, o, e) && IsShare(o, m, n) && Scaled(e, n, s)
    ensures Solves(k, n * n, n * m, s)
  {
    FewProducts(n, m, s);
    ShareScaled(o, m, n);
    ScaledBySquare(e, n, s);
    QuotientSolves(k, o, e, n * n, n * m, s);
  }

  /**
   What kappa is, on the counts alone: with n items, m agreements and s the sum over the
   categories of how often the one rater uses it times how often the other does, kappa is
   the k with k * (n * n - s) = n * m - s, and 1 when s is n * n.
   */
  lemma KappaEquation(cats: seq<int>, a: seq<int>, b: seq<int>)
    requires Enumerates(cats, a, b) && |a| == |b| && a != []
    ensures CohensKappa(cats, a, b).Ok?
    ensures Solves(CohensKappa(cats, a, b).value, |a| * |a|, |a| * Agreements(a, b), Products(cats, a, b))
  {
    ChanceBound(cats, a, b);
    KappaIsQuotient(cats, a, b);
    ExpectedIsProducts(cats, a, b);
    SharesSolve(CohensKappa(cats, a, b).value, Observed(a, b), Expected(cats, a, b),
                |a|, Agreements(a, b), Products(cats, a, b));
  }

  lemma SignOfFactor(k: real, d: real, m: real)
    requires d > 0.0 && k * d == m
    ensures (k == 0.0 <==> m == 0.0) && (k < 0.0 <==> m < 0.0)
  {
    if m <= 0.0 { NonPositive(k, d); }
    if m >= 0.0 { NonPositive(-k, d) by { assert (-k) * d == -m; } }
  }

  lemma SolutionSign(k: real, sq: int, am: int, s: int)
    requires Solves(k, sq, am, s) && am <= sq && 2 * s <= sq + am
    ensures k == 0.0 <==> am == s && am < sq
    ensures k < 0.0 <==> am < s
  {
    if s < sq { SignOfFactor(k, (sq - s) as real, (am - s) as real); }
  }

  lemma AllAgreeScaled(n: nat, m: nat)
    requires n > 0 && m <= n
    ensures n * m <= n * n && (n * m == n * n <==> m == n)
  {
    ProductAtMost(n, m, n);
    if m < n { ProductAtMost(n, m + 1, n); }
  }

  /** Kappa is zero when unequal raters agree exactly as often as chance has them, and negative below that. */
  lemma KappaSign(cats: seq<int>, a: seq<int>, b: seq<int>)
    requires Enumerates(cats, a, b) && |a| == |b| && a != []
    ensures CohensKappa(cats, a, b).Ok?
    ensures CohensKappa(cats, a, b).value == 0.0 <==> |a| * Agreements(a, b) == Products(cats, a, b) && a != b
    ensures CohensKappa(cats, a, b).value < 0.0 <==> |a| * Agreements(a, b) < Products(cats, a, b)
  {
    var n, m, s := |a|, Agreements(a, b), Products(cats, a, b);
    KappaEquation(cats, a, b);
    ChanceBound(cats, a, b);
    AllAgreeScaled(n, m);
    SolutionSign(CohensKappa(cats, a, b).value, n * n, n * m, s);
  }

  lemma {:induction false} AgreementsSymmetric(a: seq<int>, b: seq<int>)
    requires |a| == |b|
    ensures Agreements(a, b) == Agreements(b, a)
  {
    if a != [] { AgreementsSymmetric(a[..|a| - 1], b[..|a| - 1]); }
  }

  lemma {:induction false} SumDependsOnTerms(cats: seq<int>, f: int -> real, g: int -> real)
    requires forall c :: f(c) == g(c)
    ensures Sum(cats, f) == Sum(cats, g)
  {
    if cats != [] { SumDependsOnTerms(cats[..|cats| - 1], f, g); }
  }

  lemma ExpectedSymmetric(cats: seq<int>, a: seq<int>, b: seq<int>)
    requires a != [] && b != []
    ensures Expected(cats, a, b) == Expected(cats, b, a)
  {
    SumDependsOnTerms(cats, Chance(a, b), Chance(b, a));
  }

  /** Neither rater is special. */
  lemma KappaSymmetric(cats: seq<int>, a: seq<int>, b: seq<int>)
    ensures Enumerates(cats, a, b) <==> Enumerates(cats, b, a)
    ensures |a| == |b| ==> CohensKappa(cats, a, b) == CohensKappa(cats, b, a)
  {
    if |a| == |b| && a != [] {
      AgreementsSymmetric(a, b);
      ExpectedSymmetric(cats, a, b);
    }
  }
}

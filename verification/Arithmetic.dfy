/** Facts about products, quotients and sizes that the solver needs spelt out. */
module Arithmetic {

  lemma QuotientAndRemainder(n: nat, r: nat)
    requires r > 0
    ensures n == n / r * r + n % r && n % r < r
  {
  }

  lemma LessByProduct(a: nat, b: nat, r: nat)
    requires a * r < b * r
    ensures a < b
  {
    if b <= a {
      Times(b, a, r);
    }
  }

  lemma Distribute(a: nat, b: nat, r: nat)
    ensures a * r + b * r == (a + b) * r
  {
  }

  lemma Times(a: nat, b: nat, r: nat)
    requires a <= b
    ensures a * r <= b * r
  {
  }

  lemma UniqueQuotient(a: nat, b: nat, q: nat, d: nat, m: nat)
    requires a == d * b + m && m < b && q * b <= a < q * b + b
    ensures d == q
  {
    Distribute(q, 1, b);
    Distribute(d, 1, b);
    LessByProduct(d, q + 1, b);
    LessByProduct(q, d + 1, b);
  }

  lemma QuotientIs(a: nat, b: nat, q: nat)
    requires b > 0 && q * b <= a < q * b + b
    ensures a / b == q
  {
    QuotientAndRemainder(a, b);
    UniqueQuotient(a, b, q, a / b, a % b);
  }

  /** Dividing by `b` and then by `p` is dividing by b*p. */
  lemma DivideTwice(a: nat, b: nat, p: nat)
    requires b > 0 && p > 0
    ensures b * p > 0 && a / b / p == a / (b * p)
  {
    var q, m, k := a / b / p, a / b % p, a % b;
    QuotientAndRemainder(a, b);
    QuotientAndRemainder(a / b, p);
    Regroup(q, p, m, b);
    Times(m + 1, p, b);
    Distribute(m, 1, b);
    QuotientIs(a, b * p, q);
  }

  lemma Regroup(q: nat, p: nat, m: nat, b: nat)
    ensures (q * p + m) * b == q * (b * p) + m * b
  {
    Distribute(q * p, m, b);
    assert q * p * b == q * (b * p);
  }

  lemma {:induction false} SubsetSize<T>(a: set<T>, b: set<T>)
    requires a <= b
    ensures |a| <= |b|
    decreases |a|
  {
    if x :| x in a {
      SubsetSize(a - {x}, b - {x});
    }
  }
}

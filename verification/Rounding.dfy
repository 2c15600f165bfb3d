/** Python's round(): to the nearest integer, ties to the even one. */
module Rounding {

  /** a/b rounded half to even. */
  function RoundHalfEven(a: nat, b: nat): (r: nat)
    requires b > 0
  {
    var q, rest := a / b, a % b;
    if 2 * rest < b || (2 * rest == b && q % 2 == 0) then q else q + 1
  }

  /** Rounding keeps the order of fractions. */
  lemma RoundMonotone(a: nat, b: nat, c: nat, d: nat)
    requires b > 0 && d > 0
    requires a * d <= c * b
    ensures RoundHalfEven(a, b) <= RoundHalfEven(c, d)
  {
    QuotientMonotone(a / b, a % b, b, c / d, c % d, d);
  }

  lemma QuotientMonotone(q: nat, r: nat, b: nat, p: nat, s: nat, d: nat)
    requires r < b && s < d
    requires (b * q + r) * d <= (d * p + s) * b
    ensures q < p || (q == p && r * d <= s * b)
    ensures q == p && 2 * r > b ==> 2 * s > d
    ensures q == p && 2 * r >= b ==> 2 * s >= d
  {
    Expand(b, q, r, d);
    Expand(d, p, s, b);
    if q >= p {
      SameQuotient(b * d, q, p, r * d, s * b, s, d, b);
      HalfWay(r, b, s, d);
    }
  }

  lemma Expand(b: nat, q: nat, r: nat, d: nat)
    ensures (b * q + r) * d == (b * d) * q + r * d
  {}

  lemma SameQuotient(bd: nat, q: nat, p: nat, rd: nat, sb: nat, s: nat, d: nat, b: nat)
    requires bd == b * d && sb == s * b && s < d && b > 0 && q >= p
    requires bd * q + rd <= bd * p + sb
    ensures q == p && rd <= sb
  {
    Scale(s + 1, d, b);
    if q > p {
      Scale(p + 1, q, bd);
    }
  }

  lemma HalfWay(r: nat, b: nat, s: nat, d: nat)
    requires b > 0 && d > 0 && r * d <= s * b
    ensures 2 * r > b ==> 2 * s > d
    ensures 2 * r >= b ==> 2 * s >= d
  {
    AtLeastHalf(r, b, d, r * d, b * d);
    AtMostHalf(s, d, b, s * b, b * d);
  }

  lemma AtLeastHalf(r: nat, b: nat, d: nat, rd: nat, bd: nat)
    requires rd == r * d && bd == b * d
    ensures 2 * r >= b ==> 2 * rd >= bd
    ensures 2 * r > b ==> 2 * rd >= bd + d
  {
    Twice(r, d);
    if 2 * r > b {
      Scale(b + 1, 2 * r, d);
    } else if 2 * r == b {
      Scale(b, 2 * r, d);
    }
  }

  lemma AtMostHalf(s: nat, d: nat, b: nat, sb: nat, bd: nat)
    requires sb == s * b && bd == b * d
    ensures 2 * s <= d ==> 2 * sb <= bd
    ensures 2 * s < d ==> 2 * sb + b <= bd
  {
    Twice(s, b);
    if 2 * s < d {
      Scale(2 * s + 1, d, b);
    } else if 2 * s == d {
      Scale(2 * s, d, b);
    }
  }

  lemma Twice(x: nat, k: nat)
    ensures (2 * x) * k == 2 * (x * k) && (2 * x + 1) * k == 2 * (x * k) + k
  {}

  lemma Scale(x: nat, y: nat, k: nat)
    requires x <= y
    ensures k * x <= k * y && x * k <= y * k
  {}

  /** A fraction rounds to n or more from the half below n on, that half included exactly when n is even. */
  lemma HalfWayUp(a: nat, b: nat, n: nat)
    requires b > 0 && n > 0
    ensures n % 2 == 0 ==> (RoundHalfEven(a, b) >= n <==> 2 * a >= (2 * n - 1) * b)
    ensures n % 2 == 1 ==> (RoundHalfEven(a, b) >= n <==> 2 * a > (2 * n - 1) * b)
  {
    var q, rest := a / b, a % b;
    Products(q, n, b);
    Compare(a, b, n, q, rest, b * q, b * n);
  }

  lemma Products(q: nat, n: nat, b: nat)
    ensures (2 * n - 1) * b == 2 * (b * n) - b
    ensures q >= n ==> b * q >= b * n
    ensures q + 1 == n ==> b * q == b * n - b
    ensures q + 2 <= n ==> b * q <= b * n - 2 * b
  {
    if q >= n {
      Scale(n, q, b);
    } else if q + 2 <= n {
      Scale(q + 2, n, b);
    }
  }

  lemma Compare(a: nat, b: nat, n: nat, q: nat, rest: nat, bq: nat, bn: nat)
    requires a == bq + rest && rest < b && n > 0
    requires q >= n ==> bq >= bn
    requires q + 1 == n ==> bq == bn - b
    requires q + 2 <= n ==> bq <= bn - 2 * b
    ensures var r := if 2 * rest < b || (2 * rest == b && q % 2 == 0) then q else q + 1;
            r >= n <==> 2 * a > 2 * bn - b || (2 * a == 2 * bn - b && n % 2 == 0)
  {}
}

/** Facts about division with remainder that the index arithmetic needs. */
module Arith {

  /** `a == q * m + r` with a proper remainder determines quotient and remainder. */
  lemma DivModUnique(a: int, q: int, m: int, r: int)
    requires m > 0 && a == q * m + r && 0 <= r < m
    ensures a / m == q && a % m == r
  {
    var d := a / m - q;
    assert a == (a / m) * m + a % m;
    assert (a / m) * m == q * m + d * m;
    MulBound(d, m);
  }

  lemma MulAtLeast(d: nat, m: nat)
    requires d > 0
    ensures d * m >= m
  {
    var e: nat := d - 1;
    assert e * m >= 0;
    assert (e + 1) * m == e * m + m;
  }

  lemma MulBound(d: int, m: int)
    requires m > 0
    ensures d > 0 ==> d * m >= m
    ensures d < 0 ==> d * m <= -m
  {
    if d > 0 {
      MulAtLeast(d, m);
    } else if d < 0 {
      MulAtLeast(-d, m);
      assert (-d) * m == -(d * m);
    }
  }

  lemma ModShift(a: int, m: int)
    requires m > 0
    ensures (a + m) % m == a % m && (a + m) / m == a / m + 1
  {
    assert a == (a / m) * m + a % m;
    DivModUnique(a + m, a / m + 1, m, a % m);
  }

  lemma ModSmall(a: int, m: int)
    requires 0 <= a < m
    ensures a % m == a && a / m == 0
  {
    DivModUnique(a, 0, m, a);
  }

  /** Two numbers closer than `m` have different remainders. */
  lemma ModDistinct(a: int, b: int, m: int)
    requires m > 0 && a < b < a + m
    ensures a % m != b % m
  {
    assert a == (a / m) * m + a % m && b == (b / m) * m + b % m;
    var d := b / m - a / m;
    assert (b / m) * m == (a / m) * m + d * m;
    MulBound(d, m);
  }

  /** Going back `k` steps on a ring of `m`. */
  lemma ModBack(x: int, k: int, m: int)
    requires 0 <= k < m
    ensures (x - k) % m == if k <= x % m then x % m - k else x % m - k + m
  {
    var d := x % m;
    assert x == (x / m) * m + d;
    if k <= d {
      DivModUnique(x - k, x / m, m, d - k);
    } else {
      assert (x / m - 1) * m == (x / m) * m - m;
      DivModUnique(x - k, x / m - 1, m, d - k + m);
    }
  }

  /** Row-major indices: `i` rows of `n` stay below `rows` rows. */
  lemma RowBound(i: int, j: int, n: int, rows: int)
    requires 0 <= i < rows && 0 <= j < n
    ensures 0 <= i * n && i * n + j < rows * n
  {
    assert rows * n == i * n + (rows - i) * n;
    assert (rows - i) * n == n + (rows - i - 1) * n;
  }

  /** Quotient and remainder of a row-major index. */
  lemma RowSplit(i: int, j: int, n: int)
    requires 0 <= j < n
    ensures (i * n + j) / n == i && (i * n + j) % n == j
  {
    DivModUnique(i * n + j, i, n, j);
  }

  /** A row-major index determines row and column. */
  lemma RowUnique(i: int, j: int, i': int, j': int, n: int)
    requires 0 <= j < n && 0 <= j' < n && i * n + j == i' * n + j'
    ensures i == i' && j == j'
  {
    RowSplit(i, j, n);
    RowSplit(i', j', n);
  }

  lemma DivParts(a: int, n: int)
    requires n > 0
    ensures a == (a / n) * n + a % n && 0 <= a % n < n
  {
  }

  lemma DivBound(a: int, m: int, q: int)
    requires m > 0 && 0 <= a < q * m
    ensures 0 <= a / m < q
  {
    var d := a / m - q;
    assert a == (a / m) * m + a % m;
    assert (a / m) * m == q * m + d * m;
    MulBound(d, m);
    MulBound(a / m, m);
  }

  /** Division by `c * b` as division by `b`, then by `c`. */
  lemma DivDiv(a: nat, b: nat, c: nat)
    requires b > 0 && c > 0
    ensures c * b > 0 && (a / b) / c == a / (c * b)
    ensures a % (c * b) == (a / b) % c * b + a % b
  {
    var q, i, j := a / b, (a / b) / c, (a / b) % c;
    RowBound(j, a % b, b, c);
    assert q == i * c + j;
    MulAssoc(i, c, b, j);
    DivModUnique(a, i, c * b, j * b + a % b);
  }

  lemma MulAssoc(i: int, c: int, b: int, j: int)
    ensures (i * c + j) * b == i * (c * b) + j * b
  {
  }

  lemma Distribute(d: nat, m: nat, n: nat, i: nat)
    ensures (d * m + i) * n == d * (m * n) + i * n
  {
  }

  lemma Spread(a: int, b: int, m: int)
    ensures (a + b) * m == a * m + b * m
  {
  }

  lemma CeilDivParts(a: nat, b: nat)
    requires b > 0
    ensures var q := (a + b - 1) / b; q * b >= a && (a > 0 ==> (q - 1) * b < a) && (a == 0 ==> q == 0)
    ensures a % b == 0 <==> ((a + b - 1) / b) * b == a
  {
    var q := (a + b - 1) / b;
    assert a + b - 1 == q * b + (a + b - 1) % b;
    assert (q - 1) * b == q * b - b;
    if q * b == a {
      DivModUnique(a, q, b, 0);
    }
    if a == 0 { ModSmall(b - 1, b); }
    if a % b == 0 {
      assert a == (a / b) * b;
      DivModUnique(a + b - 1, a / b, b, b - 1);
    }
  }

  lemma DivBelow(a: nat, b: nat, q: nat)
    requires b > 0
    ensures a < q * b <==> a / b < q
  {
    assert a == (a / b) * b + a % b;
    var d := a / b - q;
    assert (a / b) * b == q * b + d * b;
    MulBound(d, b);
  }

  lemma CeilBelow(a: nat, b: nat, q: nat)
    requires b > 0
    ensures (a + b - 1) / b <= q <==> a <= q * b
  {
    var c := (a + b - 1) / b;
    CeilDivParts(a, b);
    var d := c - q;
    assert c * b == q * b + d * b && (c - 1) * b == q * b + (d - 1) * b;
    MulBound(d, b);
    MulBound(d - 1, b);
  }

  function CeilDiv(a: nat, b: nat): int
    requires b > 0
  {
    (a + b - 1) / b
  }

  /** Euclid's algorithm. */
  function Gcd(a: nat, b: nat): (g: nat)
    requires a > 0 || b > 0
    ensures g > 0
    decreases b
  {
    if b == 0 then a else Gcd(b, a % b)
  }

  lemma {:induction false} GcdDivides(a: nat, b: nat)
    requires a > 0 || b > 0
    ensures a % Gcd(a, b) == 0 && b % Gcd(a, b) == 0
    decreases b
  {
    var g := Gcd(a, b);
    if b == 0 {
      DivModUnique(a, 1, a, 0);
      ModSmall(0, a);
    } else {
      GcdDivides(b, a % b);
      DivParts(a, b);
      DivParts(b, g);
      DivParts(a % b, g);
      MulAssoc(a / b, b / g, g, a % b / g * g);
      DivModUnique(a, a / b * (b / g) + a % b / g, g, 0);
    }
  }

  /** The greatest common divisor is a combination of the two numbers. */
  lemma {:induction false} Bezout(a: nat, b: nat) returns (x: int, y: int)
    requires a > 0 || b > 0
    ensures x * a + y * b == Gcd(a, b)
    decreases b
  {
    if b == 0 {
      x, y := 1, 0;
    } else {
      var u, v := Bezout(b, a % b);
      x, y := v, u - v * (a / b);
      DivParts(a, b);
      Unfold(u, v, a, b, a / b, a % b);
    }
  }

  lemma Unfold(u: int, v: int, a: int, b: int, q: int, r: int)
    requires a == q * b + r
    ensures v * a + (u - v * q) * b == u * b + v * r
  {
    assert v * (q * b + r) == v * (q * b) + v * r;
    assert (u - v * q) * b == u * b - (v * q) * b;
    assert (v * q) * b == v * (q * b);
  }
}

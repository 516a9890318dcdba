/** Multiples of a step modulo n: which values d + k * p takes on an n-value counter. */
module Residues {
  function Gcd(a: nat, b: nat): (g: nat)
    requires a > 0 || b > 0
    ensures g > 0
    decreases b
  {
    if b == 0 then a else Gcd(b, a % b)
  }

  lemma {:induction false} Bezout(a: nat, b: nat) returns (x: int, y: int)
    requires a > 0 || b > 0
    ensures a * x + b * y == Gcd(a, b)
    decreases b
  {
    if b == 0 {
      x, y := 1, 0;
    } else {
      var u, v := Bezout(b, a % b);
      var q := a / b;
      assert a % b == a - q * b;
      x, y := v, u - q * v;
      BezoutStep(a, b, q, u, v);
    }
  }

  lemma BezoutStep(a: int, b: int, q: int, u: int, v: int)
    ensures a * v + b * (u - q * v) == b * u + (a - q * b) * v
  {
    assert b * (u - q * v) == b * u - b * (q * v);
    assert (a - q * b) * v == a * v - (q * b) * v;
    assert b * (q * v) == (q * b) * v;
  }

  /** The greatest common divisor divides both. */
  lemma {:induction false} GcdDivides(a: nat, b: nat) returns (m: nat, n: nat)
    requires a > 0 || b > 0
    ensures a == Gcd(a, b) * m && b == Gcd(a, b) * n
    decreases b
  {
    if b == 0 {
      m, n := 1, 0;
    } else {
      var u, v := GcdDivides(b, a % b);
      var g, q := Gcd(a, b), a / b;
      n := u;
      m := q * u + v;
      assert a == q * b + a % b;
      assert g * (q * u + v) == q * (g * u) + g * v by {
        assert g * (q * u) == q * (g * u);
        assert g * (q * u + v) == g * (q * u) + g * v;
      }
    }
  }

  lemma MulLe(g: nat, a: int, b: int)
    requires a <= b
    ensures g * a <= g * b
  {
    var d := b - a;
    assert g * d >= 0;
    assert g * b == g * a + g * d;
  }

  lemma DivMod(i: int, n: int)
    requires n > 0
    ensures i == n * (i / n) + i % n && 0 <= i % n < n
  {
  }

  lemma MulStep(g: nat, a: int, b: int)
    requires a < b
    ensures g * a + g <= g * b
  {
    MulLe(g, a + 1, b);
    assert g * (a + 1) == g * a + g;
  }

  /** Division with remainder is unique. */
  lemma RemainderIs(i: int, n: nat, q: int, r: int)
    requires 0 <= r < n && i == n * q + r
    ensures i % n == r
  {
    DivMod(i, n);
    if i / n < q {
      MulStep(n, i / n, q);
    } else if i / n > q {
      MulStep(n, q, i / n);
    }
  }

  /** The largest counter value of the form g * u + rest below g * n. */
  lemma TopValue(g: nat, n: int, u: int, rest: nat)
    requires rest < g && g * u + rest < g * n
    ensures g * u + rest <= g * n - g + rest
  {
    if u >= n {
      MulLe(g, n, u);
    } else {
      MulLe(g, u, n - 1);
      assert g * (n - 1) == g * n - g;
    }
  }

  lemma BoundFrom(d: int, p: int, n: int, k: int, g: nat, m: int, c: int, a: int, rest: nat, q: int, v: int)
    requires p == g * m && n == g * c && d == g * a + rest && rest < g && d + k * p == n * q + v && v < n
    ensures v <= n - g + rest
  {
    ValueOf(g, m, c, a, rest, k, q);
    TopValue(g, c, a + k * m - c * q, rest);
  }

  /** No value d + k * p is above n - g + d % g on the counter. */
  lemma ResidueBound(d: nat, p: nat, n: nat, k: nat)
    requires n > 0 && p > 0
    ensures (d + k * p) % n <= n - Gcd(p, n) + d % Gcd(p, n)
  {
    var g := Gcd(p, n);
    var m, c := GcdDivides(p, n);
    var i := d + k * p;
    DivMod(i, n);
    DivMod(d, g);
    BoundFrom(d, p, n, k, g, m, c, d / g, d % g, i / n, i % n);
  }

  lemma ValueOf(g: int, m: int, c: int, a: int, rest: int, k: int, q: int)
    ensures g * a + rest + k * (g * m) - (g * c) * q == g * (a + k * m - c * q) + rest
  {
    assert k * (g * m) == g * (k * m);
    assert (g * c) * q == g * (c * q);
    assert g * (a + k * m - c * q) == g * a + g * (k * m) - g * (c * q);
  }

  /** And that value is taken, for some k at least 1. */
  lemma ResidueTaken(d: nat, p: nat, n: nat) returns (k: nat)
    requires n > 0 && p > 0
    ensures k >= 1 && (d + k * p) % n == n - Gcd(p, n) + d % Gcd(p, n)
  {
    var g := Gcd(p, n);
    var x, y := Bezout(p, n);
    var m, c := GcdDivides(p, n);
    DivMod(d, g);
    k := TakenFrom(d, p, n, g, x, y, c, d / g, d % g);
  }

  lemma TakenFrom(d: nat, p: nat, n: nat, g: nat, x: int, y: int, c: int, a: int, rest: nat) returns (k: nat)
    requires n > 0 && p * x + n * y == g && n == g * c && d == g * a + rest && rest < g
    ensures k >= 1 && (d + k * p) % n == n - g + rest
  {
    var e := c - 1 - a;
    var k0 := x * e;
    var j := 1 - k0 / n;
    DivMod(k0, n);
    assert n * j == n - n * (k0 / n);
    k := k0 + n * j;
    TakenAt(d, p, n, g, x, y, c, a, rest, e, j);
    if c <= 0 {
      MulLe(g, c, 0);
    }
    MulLe(g, 1, c);
    RemainderIs(d + k * p, n, j * p - y * e, n - g + rest);
  }

  lemma TakenAt(d: int, p: int, n: int, g: int, x: int, y: int, c: int, a: int, rest: int, e: int, j: int)
    requires p * x + n * y == g && n == g * c && d == g * a + rest && e == c - 1 - a
    ensures d + (x * e + n * j) * p == n * (j * p - y * e) + (n - g + rest)
  {
    assert (p * x + n * y) * e == g * e == g * c - g - g * a;
    assert (p * x + n * y) * e == (p * x) * e + (n * y) * e;
    assert (x * e + n * j) * p == (x * e) * p + (n * j) * p;
    assert (x * e) * p == (p * x) * e;
    assert n * (j * p - y * e) == n * (j * p) - n * (y * e);
    assert n * (j * p) == (n * j) * p && n * (y * e) == (n * y) * e;
  }
}

// Products and quotients of naturals.

module Division {
  lemma DivBounds(a: nat, n: nat)
    requires n > 0
    ensures (a / n) * n <= a < (a / n) * n + n
  {
    assert a == (a / n) * n + a % n;
  }

  lemma MulNext(a: nat, n: nat)
    ensures (a + 1) * n == a * n + n
  {
  }

  lemma MulGrows(a: nat, b: nat, n: nat)
    requires a <= b
    ensures a * n <= b * n
  {
  }

  lemma MulCommutes(a: nat, b: nat)
    ensures a * b == b * a
  {
  }

  lemma FloorBounds(k: nat, f: nat)
    requires f > 0
    ensures 0 <= f * (k / f) <= k < f * (k / f) + f
  {
    assert k == f * (k / f) + k % f;
  }

  lemma FloorOrder(g: nat, c: nat, x: nat)
    requires g > 0
    ensures g * c <= g * (x / g) <==> g * c <= x
    ensures g * c <= x <==> c <= x / g
  {
    FloorBounds(x, g);
    var q := x / g;
    if c <= q {
      MulOrder(g, c, q);
    } else {
      MulOrder(g, q + 1, c);
      assert g * (q + 1) == g * q + g;
      MulOrder(g, c, q);
    }
  }

  lemma SpanUp(g: nat, n: nat, q: nat)
    ensures (g * n) * q == g * (n * q)
    ensures (g * n) * q + g * n == g * (n * q + n)
  {
  }

  lemma MulOrder(g: nat, a: nat, b: nat)
    requires g > 0
    ensures a <= b <==> g * a <= g * b
  {
  }

  lemma BlockFits(g: nat, d: nat, k: nat)
    requires g > 0 && k < g * d
    ensures g * (k / g) + g <= g * d
  {
    FloorOrder(g, d, k);
    MulOrder(g, k / g + 1, d);
    assert g * (k / g + 1) == g * (k / g) + g;
  }

  lemma SameBlock(f: nat, q: nat, x: nat)
    requires f > 0
    ensures f * q <= x < f * q + f <==> f * (x / f) == f * q
  {
    FloorBounds(x, f);
    if f * q <= x < f * q + f {
      FloorOrder(f, q, x);
      FloorOrder(f, q + 1, x);
      assert f * (q + 1) == f * q + f;
    }
  }

  // Rounding down to multiples of g does not take x out of, or into, a range
  // bounded by multiples of g.
  lemma Aligned(g: nat, c: nat, d: nat, x: nat)
    requires g > 0 && c < d
    ensures 0 < g * d
    ensures g * (g * c / g) <= g * (x / g) <= g * ((g * d - 1) / g) <==> g * c <= x < g * d
  {
    MulOrder(g, 1, d);
    FloorOrder(g, c, x);
    FloorOrder(g, d, x);
    FloorOrder(g, c, g * c);
    FloorBounds(g * c, g);
    FloorOrder(g, d, g * d - 1);
    FloorOrder(g, d - 1, g * d - 1);
    assert g * (d - 1) == g * d - g;
    assert (g * d - 1) / g == d - 1;
    MulOrder(g, x / g, d - 1);
  }

  lemma OneLess(k: nat, m: nat, n: nat)
    requires k * m == (k - 1) * m + n
    ensures n == m
  {
    assert k * m == (k - 1) * m + m;
  }

  lemma RoomFor(i: nat, k: nat, n: nat)
    requires i < k
    ensures (i + 1) * n == i * n + n && (i + 1) * n <= k * n
  {
    var d := k - (i + 1);
    assert k * n == (i + 1) * n + d * n;
  }

  lemma DivMod(x: nat, p: nat)
    requires p > 0
    ensures 256 * p > 0
    ensures (x % (256 * p)) / 256 == (x / 256) % p
    ensures (x % (256 * p)) % 256 == x % 256
  {
    var t, r := x / (256 * p), x % (256 * p);
    assert x == 256 * p * t + r;
    var a := r / 256;
    assert x == 256 * (p * t + a) + r % 256 by { assert 256 * p * t == 256 * (p * t); }
    assert x / 256 == p * t + a;
    Unique(p * t + a, p, t, a);
  }

  lemma Unique(x: nat, p: nat, t: nat, a: nat)
    requires p > 0 && x == p * t + a && a < p
    ensures x % p == a
  {
    var d := x / p - t;
    assert x == p * (x / p) + x % p;
    assert p * d == p * (x / p) - p * t;
    MulAtLeast(p, d);
  }

  lemma MulAtLeast(p: int, d: int)
    requires p > 0
    ensures d > 0 ==> p * d >= p
    ensures d < 0 ==> p * d <= -p
  {
  }
}

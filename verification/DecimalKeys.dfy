// Numbers formatted into database keys: order and unique reading.

module DecimalKeys {
  import opened ByteOrder
  import opened PageTypes

  const DOT: byte := 46

  // ---- "%.10d"

  function Pow10(w: nat): (r: nat)
    ensures r > 0
  {
    if w == 0 then 1 else 10 * Pow10(w - 1)
  }

  // n in exactly w decimal digits.
  function Digits(n: nat, w: nat): (r: Bytes)
    requires n < Pow10(w)
    ensures |r| == w
  {
    if w == 0 then [] else Digits(n / 10, w - 1) + [48 + n % 10]
  }

  lemma {:induction false} DigitsOrder(n: nat, m: nat, w: nat)
    requires n < Pow10(w) && m < Pow10(w)
    ensures Le(Digits(n, w), Digits(m, w)) <==> n <= m
    decreases w
  {
    if w > 0 {
      var a, b := Digits(n / 10, w - 1), Digits(m / 10, w - 1);
      DigitsOrder(n / 10, m / 10, w - 1);
      DigitsOrder(m / 10, n / 10, w - 1);
      LeTotal(a, b);
      LastByte(a, 48 + n % 10, b, 48 + m % 10);
    }
  }

  // ---- "%d"

  function Decimal(n: nat): (r: Bytes)
    ensures |r| > 0
    ensures DOT !in r
  {
    if n < 10 then [48 + n] else Decimal(n / 10) + [48 + n % 10]
  }

  lemma {:induction false} DecimalInjective(n: nat, m: nat)
    requires Decimal(n) == Decimal(m)
    ensures n == m
  {
    if n >= 10 && m >= 10 {
      var x, y := Decimal(n / 10), Decimal(m / 10);
      assert (x + [48 + n % 10])[..|x|] == x && (y + [48 + m % 10])[..|y|] == y;
      assert (x + [48 + n % 10])[|x|] == 48 + n % 10 && (y + [48 + m % 10])[|y|] == 48 + m % 10;
      DecimalInjective(n / 10, m / 10);
    }
  }

  // A number ended by a dot can be read back, whatever follows.
  lemma DottedInjective(n: nat, m: nat, x: Bytes)
    requires Decimal(n) + [DOT] <= Decimal(m) + [DOT] + x
    ensures n == m
  {
    var a, b := Decimal(n), Decimal(m);
    var s := b + [DOT] + x;
    assert (a + [DOT])[|a|] == DOT && s[|a|] == DOT && s[|b|] == DOT;
    assert a <= s && (|a| <= |b| ==> a <= b);
    if |a| == |b| {
      assert a == (a + [DOT])[..|a|] == s[..|a|] == b;
      DecimalInjective(n, m);
    }
  }
}

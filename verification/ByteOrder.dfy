// The order of byte strings under memcmp().

module ByteOrder {
  import opened PageTypes

  // a sorts at or before b: memcmp() on the common prefix, then length.
  predicate Le(a: Bytes, b: Bytes) {
    if a == [] then true
    else if b == [] then false
    else a[0] < b[0] || (a[0] == b[0] && Le(a[1..], b[1..]))
  }

  lemma {:induction false} LeTotal(a: Bytes, b: Bytes)
    ensures Le(a, b) || Le(b, a)
    ensures Le(a, b) && Le(b, a) ==> a == b
  {
    if a != [] && b != [] {
      LeTotal(a[1..], b[1..]);
      assert a == [a[0]] + a[1..] && b == [b[0]] + b[1..];
    }
  }

  lemma {:induction false} LeTransitive(a: Bytes, b: Bytes, c: Bytes)
    requires Le(a, b) && Le(b, c)
    ensures Le(a, c)
  {
    if a != [] && a[0] == b[0] == c[0] {
      LeTransitive(a[1..], b[1..], c[1..]);
    }
  }

  lemma {:induction false} LePrefix(p: Bytes, a: Bytes, b: Bytes)
    ensures Le(p + a, p + b) == Le(a, b)
  {
    if p == [] {
      assert p + a == a && p + b == b;
    } else {
      LePrefix(p[1..], a, b);
      assert (p + a)[1..] == p[1..] + a && (p + b)[1..] == p[1..] + b;
    }
  }

  // What lies between two strings with a common prefix has that prefix.
  lemma {:induction false} BetweenPrefix(p: Bytes, a: Bytes, b: Bytes, s: Bytes)
    requires Le(p + a, s) && Le(s, p + b)
    ensures p <= s
  {
    if p != [] {
      assert (p + a)[1..] == p[1..] + a && (p + b)[1..] == p[1..] + b;
      assert (p + a)[0] == p[0] == (p + b)[0];
      BetweenPrefix(p[1..], a, b, s[1..]);
      assert p == [p[0]] + p[1..] && s == [s[0]] + s[1..];
    }
  }

  lemma {:induction false} LastByte(a: Bytes, x: byte, b: Bytes, y: byte)
    requires |a| == |b|
    ensures Le(a + [x], b + [y]) <==> if a == b then x <= y else Le(a, b)
  {
    if a != [] {
      LastByte(a[1..], x, b[1..], y);
      assert (a + [x])[1..] == a[1..] + [x] && (b + [y])[1..] == b[1..] + [y];
      assert a == [a[0]] + a[1..] && b == [b[0]] + b[1..];
    }
  }

  lemma LeadingByte(x: byte, a: Bytes, y: byte, b: Bytes)
    ensures Le([x] + a, [y] + b) <==> x < y || (x == y && Le(a, b))
  {
    assert ([x] + a)[1..] == a && ([y] + b)[1..] == b;
  }
}

// The keys of the multi-threaded test database (lsmtest5.c): key/value pairs
// at level 0, and at each level i > 0 one checksum for every nFanout entries
// of level i-1. The range scanned for one checksum is one block of the level
// below.

module ChecksumKeys {
  import opened Basics
  import opened ByteOrder
  import opened DecimalKeys
  import opened Division
  import opened OrderedStore
  import opened PageTypes

  const INT_MAX := 0x7fff_ffff

  // struct DbParameters.
  datatype Params = Params(nFanout: nat, nKey: nat)

  // ---- Levels and keys

  // nFanout to the power of the level: how many keys one checksum spans.
  function Span(p: Params, level: nat): nat {
    if level == 0 then 1 else Span(p, level - 1) * p.nFanout
  }

  function BlockStart(p: Params, level: nat, iKey: nat): (r: nat)
    requires p.nFanout > 0
    ensures r <= iKey < r + Span(p, level)
  {
    SpanPositive(p, level);
    FloorBounds(iKey, Span(p, level));
    Span(p, level) * (iKey / Span(p, level))
  }

  lemma {:induction false} SpanPositive(p: Params, level: nat)
    requires p.nFanout > 0
    ensures Span(p, level) > 0
  {
    if level > 0 {
      SpanPositive(p, level - 1);
      assert Span(p, level - 1) * p.nFanout >= Span(p, level - 1);
    }
  }

  // m is the least level one checksum of which spans the key space.
  predicate IsTop(p: Params, m: nat) {
    p.nKey <= Span(p, m) && forall l: nat | l < m :: Span(p, l) < p.nKey
  }

  // dbMaxLevel.
  method MaxLevel(p: Params) returns (iMax: nat)
    requires p.nFanout >= 2
    ensures IsTop(p, iMax)
  {
    var n := 1;
    iMax := 0;
    while n < p.nKey
      invariant n == Span(p, iMax) && n > 0
      invariant forall l: nat | l < iMax :: Span(p, l) < p.nKey
      decreases p.nKey - n
    {
      assert n * p.nFanout >= n * 2;
      n := n * p.nFanout;
      iMax := iMax + 1;
    }
  }

  lemma {:induction false} SpanDivides(p: Params, i: nat, m: nat) returns (d: nat)
    requires p.nFanout > 0 && i <= m
    ensures d > 0 && Span(p, m) == Span(p, i) * d
  {
    if i == m {
      d := 1;
    } else {
      var e := SpanDivides(p, i, m - 1);
      d := e * p.nFanout;
      assert e * p.nFanout >= e;
      assert Span(p, i) * e * p.nFanout == Span(p, i) * d;
    }
  }

  // The database sizes for which no span overflows an int.
  predicate Fits(p: Params, m: nat) {
    p.nFanout >= 2 && IsTop(p, m) && Span(p, m) <= INT_MAX
  }

  function Prefix(level: nat): Bytes {
    if level == 0 then [107, DOT] else [99, DOT] + Decimal(level) + [DOT]
  }

  function Number(n: nat): (r: Bytes)
    requires n < U32
  {
    assert Pow10(10) == 100_0000_0000;
    Digits(n, 10)
  }

  // dbFormatKey, as a function: the key of the entry of this level that covers iKey.
  function KeyOf(p: Params, level: nat, iKey: nat): Bytes
    requires p.nFanout > 0 && iKey <= INT_MAX
  {
    Prefix(level) + Number(BlockStart(p, level, iKey))
  }

  method FormatKey(p: Params, iLevel: nat, iKey: nat) returns (aBuf: Bytes)
    requires p.nFanout > 0 && iKey <= INT_MAX
    ensures aBuf == KeyOf(p, iLevel, iKey)
  {
    if iLevel == 0 {
      aBuf := [107, DOT] + Number(iKey);
    } else {
      var f := 1;
      for i := 0 to iLevel
        invariant f == Span(p, i)
      {
        f := f * p.nFanout;
      }
      SpanPositive(p, iLevel);
      FloorBounds(iKey, f);
      aBuf := [99, DOT] + Decimal(iLevel) + [DOT] + Number(f * (iKey / f));
    }
  }

  // "k.0000000045" and, for a fan-out of 10, "c.1.0000000040".
  lemma KeyExamples()
    ensures KeyOf(Params(10, 100), 0, 45) == [107, 46, 48, 48, 48, 48, 48, 48, 48, 48, 52, 53]
    ensures KeyOf(Params(10, 100), 1, 45) == [99, 46, 49, 46, 48, 48, 48, 48, 48, 48, 48, 48, 52, 48]
  {
    var p := Params(10, 100);
    assert Span(p, 0) == 1 && Span(p, 1) == 10;
    assert BlockStart(p, 0, 45) == 45 && BlockStart(p, 1, 45) == 40;
    assert Pow10(1) == 10 && Pow10(2) == 100;
    Zeros(8);
    assert Digits(4, 9) == Digits(0, 8) + [52];
    assert Number(45) == Digits(4, 9) + [53] && Number(40) == Digits(4, 9) + [48];
  }

  lemma {:induction false} Zeros(w: nat)
    ensures Digits(0, w) == seq(w, _ => 48)
  {
    if w > 0 {
      Zeros(w - 1);
    }
  }

  lemma PrefixFree(l: nat, l': nat, x: Bytes)
    requires Prefix(l) <= Prefix(l') + x
    ensures l == l'
  {
    assert Prefix(l)[0] == (Prefix(l') + x)[0] == Prefix(l')[0];
    if l > 0 && l' > 0 {
      var a, b := Decimal(l) + [DOT], Decimal(l') + [DOT] + x;
      assert Prefix(l)[2..] == a && (Prefix(l') + x)[2..] == b;
      assert a <= b;
      DottedInjective(l, l', x);
    }
  }

  lemma NumberOrder(n: nat, n': nat)
    requires n < U32 && n' < U32
    ensures Le(Number(n), Number(n')) <==> n <= n'
  {
    assert Pow10(10) == 100_0000_0000;
    DigitsOrder(n, n', 10);
  }

  lemma KeyInjective(p: Params, l: nat, k: nat, l': nat, k': nat)
    requires p.nFanout > 0 && k <= INT_MAX && k' <= INT_MAX
    ensures KeyOf(p, l, k) == KeyOf(p, l', k') <==> l == l' && BlockStart(p, l, k) == BlockStart(p, l', k')
  {
    var n, n' := BlockStart(p, l, k), BlockStart(p, l', k');
    if KeyOf(p, l, k) == KeyOf(p, l', k') {
      PrefixFree(l, l', Number(n'));
      assert Number(n) == KeyOf(p, l, k)[|Prefix(l)|..] == Number(n');
      NumberOrder(n, n');
      NumberOrder(n', n);
    }
  }

  // ---- One block

  function First(p: Params, i: nat, k: nat): nat
    requires p.nFanout > 0
  {
    BlockStart(p, i, k)
  }

  function Last(p: Params, i: nat, k: nat): nat
    requires p.nFanout > 0
  {
    SpanPositive(p, i);
    First(p, i, k) + Span(p, i) - 1
  }

  // The range of keys of level l scanned for a checksum of level l+1 holds the
  // entries of level l of that block and no others, whatever their level.
  lemma RangeIsBlock(p: Params, l: nat, k: nat, l': nat, k': nat)
    requires p.nFanout > 0 && k' <= INT_MAX && Last(p, l + 1, k) <= INT_MAX
    ensures Between(KeyOf(p, l', k'), KeyOf(p, l, First(p, l + 1, k)), KeyOf(p, l, Last(p, l + 1, k)))
            <==> l == l' && BlockStart(p, l + 1, k') == BlockStart(p, l + 1, k)
  {
    hide Le, Digits, Decimal, Prefix;
    var lo, hi := First(p, l + 1, k), Last(p, l + 1, k);
    var x, a, b := BlockStart(p, l', k'), BlockStart(p, l, lo), BlockStart(p, l, hi);
    if Between(KeyOf(p, l', k'), KeyOf(p, l, lo), KeyOf(p, l, hi)) {
      BetweenPrefix(Prefix(l), Number(a), Number(b), KeyOf(p, l', k'));
      PrefixFree(l, l', Number(x));
    }
    if l == l' {
      LePrefix(Prefix(l), Number(a), Number(x));
      LePrefix(Prefix(l), Number(x), Number(b));
      NumberOrder(a, x);
      NumberOrder(x, b);
      SubBlocks(p, l, k, k');
    }
  }

  lemma SubBlocks(p: Params, l: nat, k: nat, k': nat)
    requires p.nFanout > 0
    ensures BlockStart(p, l, First(p, l + 1, k)) <= BlockStart(p, l, k') <= BlockStart(p, l, Last(p, l + 1, k))
            <==> BlockStart(p, l + 1, k') == BlockStart(p, l + 1, k)
  {
    var g, f := Span(p, l), Span(p, l + 1);
    SpanPositive(p, l);
    SpanPositive(p, l + 1);
    var q := k / f;
    var c := p.nFanout * q;
    SpanUp(g, p.nFanout, q);
    hide Span;
    Aligned(g, c, c + p.nFanout, k');
    SameBlock(f, q, k');
  }

}

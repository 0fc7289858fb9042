// The variable-length integer codec (bt_varint.c): the first byte gives the
// length, and encodings sort as the numbers they encode.

module Varint {
  import opened Basics
  import opened ByteOrder
  import opened Division
  import opened PageTypes

  const U8 := 256
  const U16 := 0x1_0000
  const U24 := 0x100_0000
  const U40 := 0x100_0000_0000
  const U47 := 0x8000_0000_0000
  const U48 := 0x1_0000_0000_0000
  const U56 := 0x100_0000_0000_0000
  const U63 := 0x8000_0000_0000_0000
  const U64 := 0x1_0000_0000_0000_0000

  type u64 = x: nat | x < U64

  // ---- The format

  // The low w bytes of x, most significant first.
  function BigEndian(x: nat, w: nat): (r: Bytes)
    ensures |r| == w
  {
    if w == 0 then [] else BigEndian(x / 256, w - 1) + [x % 256]
  }

  function Pow256(w: nat): nat {
    if w == 0 then 1 else 256 * Pow256(w - 1)
  }

  // How many whole bytes of x follow the first byte, for x past the short forms.
  function Width(x: u64): (w: nat)
  {
    if x < U24 then 3 else if x < U32 then 4 else if x < U40 then 5
    else if x < U47 then 6 else if x < U56 then 7 else 8
  }

  function Encode(x: u64): (z: Bytes)
  {
    if x <= 240 then [x]
    else if x <= 2287 then [241 + (x - 240) / 256, (x - 240) % 256]
    else if x <= 67823 then [249] + BigEndian(x - 2288, 2)
    else [247 + Width(x)] + BigEndian(x, Width(x))
  }

  // ---- Decoding

  // sqlite4BtVarintSize.
  function VarintSize(c: byte): (n: nat)
    ensures 1 <= n <= 9
  {
    if c < 241 then 1 else if c < 249 then 2 else c - 246
  }

  // z starts with all the bytes its first byte promises.
  predicate Whole(z: Bytes) {
    |z| > 0 && |z| >= VarintSize(z[0])
  }

  function Get32Bits(z: Bytes, at: nat): (x: nat)
    requires at + 4 <= |z|
    ensures x < U32
  {
    (z[at] * U24 + z[at+1] * U16 + z[at+2] * U8 + z[at+3]) % U32
  }

  // btSqlite4GetVarint64: the value, and the number of bytes used.
  function GetVarint64(z: Bytes): (r: (u64, nat))
    requires Whole(z)
  {
    if z[0] <= 240 then (z[0], 1)
    else if z[0] <= 248 then ((z[0] - 241) * U8 + z[1] + 240, 2)
    else if z[0] == 249 then (2288 + U8 * z[1] + z[2], 3)
    else if z[0] == 250 then (z[1] * U16 + z[2] * U8 + z[3], 4)
    else
      var x := Get32Bits(z, 1);
      if z[0] == 251 then (x, 5)
      else if z[0] == 252 then (x * U8 + z[5], 6)
      else if z[0] == 253 then (x * U16 + z[5] * U8 + z[6], 7)
      else if z[0] == 254 then (x * U24 + z[5] * U16 + z[6] * U8 + z[7], 8)
      else (x * U32 + Get32Bits(z, 5), 9)
  }

  // The value of w big-endian bytes.
  function Value(z: Bytes): (x: nat)
    ensures x < Pow256(|z|)
  {
    if z == [] then 0 else Value(z[..|z|-1]) * 256 + z[|z|-1]
  }

  // The limits of the short forms.
  lemma FormatExamples()
    ensures Encode(240) == [240] && Encode(241) == [241, 1]
    ensures Encode(2287) == [248, 255] && Encode(2288) == [249, 0, 0]
    ensures Encode(67823) == [249, 255, 255] && Encode(67824) == [250, 1, 8, 240]
  {
    assert BigEndian(0, 1) == [0] && BigEndian(255, 1) == [255] && BigEndian(1, 1) == [1];
    assert BigEndian(0, 2) == [0, 0] && BigEndian(65535, 2) == [255, 255];
    assert BigEndian(264, 2) == [1, 8] && BigEndian(67824, 3) == [1, 8, 240];
  }

  lemma {:induction false} ValueOf(x: nat, w: nat)
    requires x < Pow256(w)
    ensures Value(BigEndian(x, w)) == x
  {
    if w > 0 {
      ValueOf(x / 256, w - 1);
      assert BigEndian(x, w)[..w-1] == BigEndian(x / 256, w - 1);
    }
  }

  lemma {:induction false} BigEndianOrder(x: nat, y: nat, w: nat)
    requires x < Pow256(w) && y < Pow256(w)
    ensures Le(BigEndian(x, w), BigEndian(y, w)) <==> x <= y
    decreases w
  {
    if w > 0 {
      var a, b := BigEndian(x / 256, w - 1), BigEndian(y / 256, w - 1);
      BigEndianOrder(x / 256, y / 256, w - 1);
      BigEndianOrder(y / 256, x / 256, w - 1);
      LeTotal(a, b);
      LastByte(a, x % 256, b, y % 256);
    }
  }

  // Appending 1, 2, 3 or 4 bytes to a number.
  lemma Value1More(a: Bytes, x: byte)
    ensures Value(a + [x]) == Value(a) * 256 + x
  {
    assert (a + [x])[..|a|] == a;
  }

  lemma Value2More(a: Bytes, x: byte, y: byte)
    ensures Value(a + [x, y]) == Value(a) * U16 + x * 256 + y
  {
    assert a + [x, y] == a + [x] + [y];
    Value1More(a, x);
    Value1More(a + [x], y);
  }

  lemma Value3More(a: Bytes, x: byte, y: byte, z: byte)
    ensures Value(a + [x, y, z]) == Value(a) * U24 + x * U16 + y * 256 + z
  {
    assert a + [x, y, z] == a + [x, y] + [z];
    Value2More(a, x, y);
    Value1More(a + [x, y], z);
  }

  lemma Value4More(a: Bytes, z: Bytes, at: nat)
    requires at + 4 <= |z|
    ensures Value(a + z[at..at+4]) == Value(a) * U32 + Get32Bits(z, at)
  {
    assert a + z[at..at+4] == a + [z[at], z[at+1], z[at+2]] + [z[at+3]];
    Value3More(a, z[at], z[at+1], z[at+2]);
    Value1More(a + [z[at], z[at+1], z[at+2]], z[at+3]);
  }

  // What the decoder computes for prefixes 250 to 255 is the value of the bytes
  // that follow.
  lemma GetIsValue(z: Bytes)
    requires Whole(z) && z[0] >= 250
    ensures GetVarint64(z) == (Value(z[1..z[0] - 246]), z[0] - 246)
  {
    hide Value, Get32Bits;
    EmptyValue();
    var n := z[0] - 246;
    var body := z[1..n];
    if n == 4 {
      assert body == [] + [z[1], z[2], z[3]];
      Value3More([], z[1], z[2], z[3]);
    } else {
      var head := z[1..5];
      assert head == [] + z[1..1+4];
      Value4More([], z, 1);
      Tail(z, n, head);
    }
  }

  lemma EmptyValue()
    ensures Value([]) == 0
  {
  }

  lemma Tail(z: Bytes, n: nat, head: Bytes)
    requires 5 <= n <= 9 && n <= |z| && head == z[1..5] && Value(head) == Get32Bits(z, 1)
    ensures Value(z[1..n]) ==
            if n == 5 then Get32Bits(z, 1)
            else if n == 6 then Get32Bits(z, 1) * U8 + z[5]
            else if n == 7 then Get32Bits(z, 1) * U16 + z[5] * U8 + z[6]
            else if n == 8 then Get32Bits(z, 1) * U24 + z[5] * U16 + z[6] * U8 + z[7]
            else Get32Bits(z, 1) * U32 + Get32Bits(z, 5)
  {
    hide Value, Get32Bits;
    if n == 6 {
      assert z[1..n] == head + [z[5]];
      Value1More(head, z[5]);
    } else if n == 7 {
      assert z[1..n] == head + [z[5], z[6]];
      Value2More(head, z[5], z[6]);
    } else if n == 8 {
      assert z[1..n] == head + [z[5], z[6], z[7]];
      Value3More(head, z[5], z[6], z[7]);
    } else if n == 9 {
      assert z[1..n] == head + z[5..5+4];
      Value4More(head, z, 5);
    }
  }

  // Of any bytes the decoder uses as many as VarintSize says of the first, and
  // what it computes depends on no others.
  lemma DecodeUsesSize(z: Bytes)
    requires Whole(z)
    ensures GetVarint64(z).1 == VarintSize(z[0])
    ensures Whole(z[..VarintSize(z[0])]) && GetVarint64(z[..VarintSize(z[0])]) == GetVarint64(z)
  {
    var y := z[..VarintSize(z[0])];
    assert forall i | 0 <= i < |y| :: y[i] == z[i];
  }

  // ---- Round trip

  lemma RoundTrip(x: u64, rest: Bytes)
    ensures Whole(Encode(x) + rest)
    ensures |Encode(x)| == VarintSize(Encode(x)[0])
    ensures GetVarint64(Encode(x) + rest) == (x, |Encode(x)|)
  {
    var z := Encode(x) + rest;
    if x <= 2287 {
    } else if x <= 67823 {
      var b := BigEndian(x - 2288, 2);
      assert Pow256(2) == U16;
      ValueOf(x - 2288, 2);
      assert b == [] + [z[1], z[2]];
      EmptyValue();
      Value2More([], z[1], z[2]);
    } else {
      var w := Width(x);
      WidthFits(x);
      ValueOf(x, w);
      assert z[1..w + 1] == BigEndian(x, w);
      GetIsValue(z);
    }
  }

  lemma WidthFits(x: u64)
    ensures x < Pow256(Width(x))
  {
    assert Pow256(3) == U24;
    assert Pow256(4) == U32;
    assert Pow256(5) == U40;
    assert Pow256(6) == U48;
    assert Pow256(7) == U56;
    assert Pow256(8) == U64;
  }

  function EncodeAll(xs: seq<u64>): Bytes
  {
    if xs == [] then [] else Encode(xs[0]) + EncodeAll(xs[1..])
  }

  datatype Parsed = Numbers(xs: seq<u64>) | Truncated

  // Decode varints until the buffer is used up.
  function DecodeAll(z: Bytes): Parsed {
    if z == [] then Numbers([])
    else if !Whole(z) then Truncated
    else
      var (x, n) := GetVarint64(z);
      match DecodeAll(z[n..])
      case Truncated => Truncated
      case Numbers(xs) => Numbers([x] + xs)
  }

  lemma {:induction false} ListRoundTrip(xs: seq<u64>)
    ensures DecodeAll(EncodeAll(xs)) == Numbers(xs)
  {
    if xs != [] {
      var z := EncodeAll(xs);
      RoundTrip(xs[0], EncodeAll(xs[1..]));
      assert z[|Encode(xs[0])|..] == EncodeAll(xs[1..]);
      ListRoundTrip(xs[1..]);
      assert [xs[0]] + xs[1..] == xs;
    }
  }

  // ---- Order

  lemma EncodingsSort(x: u64, y: u64)
    ensures Le(Encode(x), Encode(y)) <==> x <= y
  {
    var a, b := Encode(x), Encode(y);
    if a[0] != b[0] {
      if x <= y { FirstByteOrder(x, y); } else { FirstByteOrder(y, x); }
    } else {
      SameFirstByte(x, y);
    }
  }

  lemma FirstByteOrder(x: u64, y: u64)
    requires x <= y
    ensures Encode(x)[0] <= Encode(y)[0]
  {
  }

  lemma Single(x: byte, y: byte)
    ensures Le([x], [y]) <==> x <= y
  {
    LeadingByte(x, [], y, []);
  }

  lemma SameFirstByte(x: u64, y: u64)
    requires Encode(x)[0] == Encode(y)[0]
    ensures Le(Encode(x), Encode(y)) <==> x <= y
  {
    var a, b := Encode(x), Encode(y);
    if x <= 2287 {
      assert a == [a[0]] + a[1..] && b == [b[0]] + b[1..];
      LeadingByte(a[0], a[1..], b[0], b[1..]);
      if x > 240 {
        Single(a[1], b[1]);
      }
    } else {
      assert Pow256(2) == U16;
      if x <= 67823 {
        BigEndianOrder(x - 2288, y - 2288, 2);
        LeadingByte(249, BigEndian(x - 2288, 2), 249, BigEndian(y - 2288, 2));
      } else {
        WidthFits(x);
        WidthFits(y);
        BigEndianOrder(x, y, Width(x));
        LeadingByte(247 + Width(x), BigEndian(x, Width(x)), 247 + Width(x), BigEndian(y, Width(x)));
      }
    }
  }

  // ---- Encoding into a buffer

  // y >> 8*n.
  function Shr(y: nat, n: nat): (r: nat)
    ensures r <= y
  {
    if n == 0 then y else Shr(y / U8, n - 1)
  }

  function ByteAt(y: nat, n: nat): byte {
    Shr(y, n) % U8
  }

  lemma {:induction false} Split(x: nat, a: nat, b: nat)
    ensures BigEndian(x, a + b) == BigEndian(Shr(x, b), a) + BigEndian(x, b)
  {
    if b > 0 {
      Split(x / U8, a, b - 1);
    }
  }

  lemma {:induction false} LowBytes(x: nat, b: nat)
    ensures Pow256(b) > 0
    ensures BigEndian(x % Pow256(b), b) == BigEndian(x, b)
  {
    if b > 0 {
      LowBytes(x / 256, b - 1);
      DivMod(x, Pow256(b - 1));
    }
  }

  lemma Bytes2(y: nat)
    ensures BigEndian(y, 2) == [ByteAt(y, 1), ByteAt(y, 0)]
  {
    Split(y, 1, 1);
  }

  lemma Bytes3(y: nat)
    ensures BigEndian(y, 3) == [ByteAt(y, 2), ByteAt(y, 1), ByteAt(y, 0)]
  {
    Split(y, 1, 2);
    Bytes2(y);
  }

  lemma Bytes4(y: nat)
    ensures BigEndian(y, 4) == [ByteAt(y, 3), ByteAt(y, 2), ByteAt(y, 1), ByteAt(y, 0)]
  {
    Split(y, 1, 3);
    Bytes3(y);
  }

  // A number in two halves, the low one of 32 bits.
  lemma Halves(x: nat, w: nat)
    ensures BigEndian(x, w + 4) == BigEndian(Shr(x, 4), w) + BigEndian(x % U32, 4)
  {
    hide BigEndian, Shr;
    Split(x, w, 4);
    LowBytes(x, 4);
    assert Pow256(4) == U32;
  }

  // The encoder's case distinction, on the high half.
  lemma HighHalf(x: u64)
    ensures x / 256 / 256 / 256 / 256 == Shr(x, 4)
    ensures Shr(x, 4) == 0 <==> x < U32
    ensures Shr(x, 4) <= 255 <==> x < U40
    ensures Shr(x, 4) <= 32767 <==> x < U47
    ensures Shr(x, 4) <= 16777215 <==> x < U56
    ensures Shr(x, 4) < U32
  {
    assert Shr(x, 4) == Shr(x / 256, 3) == Shr(x / 256 / 256, 2) == Shr(x / 256 / 256 / 256, 1);
  }

  // btVarintWrite32.
  method Write32(z: array<byte>, at: nat, y: nat)
    requires at + 4 <= z.Length && y < U32
    modifies z
    ensures z[at..at+4] == BigEndian(y, 4)
    ensures z[..at] == old(z[..at]) && z[at+4..] == old(z[at+4..])
  {
    hide BigEndian, Shr;
    Bytes4(y);
    z[at] := ByteAt(y, 3);
    z[at+1] := ByteAt(y, 2);
    z[at+2] := ByteAt(y, 1);
    z[at+3] := ByteAt(y, 0);
  }

  // btSqlite4PutVarint64, at offset `at` of a buffer with room for the longest varint.
  method PutVarint64(z: array<byte>, at: nat, x: u64) returns (n: nat)
    requires at + 9 <= z.Length
    modifies z
    ensures n == |Encode(x)|
    ensures z[at..at+n] == Encode(x)
    ensures z[..at] == old(z[..at]) && z[at+n..] == old(z[at+n..])
  {
    hide BigEndian;
    if x <= 240 {
      z[at] := x;
      return 1;
    }
    if x <= 2287 {
      var y := x - 240;
      z[at] := y / 256 + 241;
      z[at+1] := y % 256;
      return 2;
    }
    if x <= 67823 {
      var y := x - 2288;
      Bytes2(y);
      assert Shr(y, 1) == Shr(y / 256, 0) == y / 256 && Shr(y, 0) == y;
      z[at] := 249;
      z[at+1] := y / 256;
      z[at+2] := y % 256;
      return 3;
    }
    n := PutLong(z, at, x);
  }

  // The cases of btSqlite4PutVarint64 above 67823.
  method PutLong(z: array<byte>, at: nat, x: u64) returns (n: nat)
    requires at + 9 <= z.Length && x > 67823
    modifies z
    ensures n == 1 + Width(x)
    ensures z[at..at+n] == [247 + Width(x)] + BigEndian(x, Width(x))
    ensures z[..at] == old(z[..at]) && z[at+n..] == old(z[at+n..])
  {
    hide BigEndian, Shr;
    HighHalf(x);
    var y := x % U32;
    var w := Shr(x, 4);
    if w == 0 {
      if y <= 16777215 {
        Bytes3(y);
        z[at] := 250;
        z[at+1] := ByteAt(y, 2);
        z[at+2] := ByteAt(y, 1);
        z[at+3] := ByteAt(y, 0);
        return 4;
      }
      z[at] := 251;
      Write32(z, at + 1, y);
      assert z[at..at+5] == [z[at]] + z[at+1..at+5];
      return 5;
    }
    n := PutHigh(z, at, x, w, y);
  }

  // The cases with a non-zero high half: prefix and high half, then the low half.
  method PutHigh(z: array<byte>, at: nat, x: u64, w: nat, y: nat) returns (n: nat)
    requires at + 9 <= z.Length && x >= U32 && w == Shr(x, 4) && y == x % U32
    modifies z
    ensures n == 1 + Width(x)
    ensures z[at..at+n] == [247 + Width(x)] + BigEndian(x, Width(x))
    ensures z[..at] == old(z[..at]) && z[at+n..] == old(z[at+n..])
  {
    hide BigEndian, Shr;
    n := PutPrefix(z, at, x, w);
    Halves(x, Width(x) - 4);
    label high:
    Write32(z, at + n, y);
    assert z[at..at+n] == z[..at+n][at..] == old@high(z[at..at+n]);
    assert z[at..at+n+4] == z[at..at+n] + z[at+n..at+n+4];
    n := n + 4;
  }

  method PutPrefix(z: array<byte>, at: nat, x: u64, w: nat) returns (n: nat)
    requires at + 9 <= z.Length && x >= U32 && w == Shr(x, 4)
    modifies z
    ensures n == Width(x) - 3
    ensures z[at..at+n] == [247 + Width(x)] + BigEndian(w, Width(x) - 4)
    ensures z[..at] == old(z[..at]) && z[at+n..] == old(z[at+n..])
  {
    hide BigEndian, Shr;
    HighHalf(x);
    HighBytes(w, Width(x) - 4);
    if w <= 255 {
      z[at] := 252;
      z[at+1] := w;
      return 2;
    }
    if w <= 32767 {
      z[at] := 253;
      z[at+1] := ByteAt(w, 1);
      z[at+2] := ByteAt(w, 0);
      return 3;
    }
    if w <= 16777215 {
      z[at] := 254;
      z[at+1] := ByteAt(w, 2);
      z[at+2] := ByteAt(w, 1);
      z[at+3] := ByteAt(w, 0);
      return 4;
    }
    z[at] := 255;
    Write32(z, at + 1, w);
    assert z[at..at+5] == [z[at]] + z[at+1..at+5];
    return 5;
  }

  lemma HighBytes(w: nat, k: nat)
    ensures k == 1 && w < 256 ==> BigEndian(w, k) == [w]
    ensures k == 2 ==> BigEndian(w, k) == [ByteAt(w, 1), ByteAt(w, 0)]
    ensures k == 3 ==> BigEndian(w, k) == [ByteAt(w, 2), ByteAt(w, 1), ByteAt(w, 0)]
  {
    if k == 2 {
      Bytes2(w);
    } else if k == 3 {
      Bytes3(w);
    }
  }

  // ---- Signed wrappers

  type i64 = x: int | -U63 <= x < U63
  type i32 = x: int | -0x8000_0000 <= x < 0x8000_0000

  // The casts (u64)x, (i64)x and (int)x.
  function ToU64(x: i64): u64 {
    x % U64
  }

  function ToI64(x: u64): i64 {
    if x < U63 then x else x - U64
  }

  function ToI32(x: u64): i32 {
    var y := x % U32;
    if y < 0x8000_0000 then y else y - U32
  }

  // sqlite4BtVarintPut64.
  method VarintPut64(aData: array<byte>, at: nat, iVal: i64) returns (n: nat)
    requires at + 9 <= aData.Length
    modifies aData
    ensures n == |Encode(ToU64(iVal))|
    ensures aData[at..at+n] == Encode(ToU64(iVal))
    ensures aData[..at] == old(aData[..at]) && aData[at+n..] == old(aData[at+n..])
  {
    n := PutVarint64(aData, at, ToU64(iVal));
  }

  // sqlite4BtVarintPut32.
  method VarintPut32(aData: array<byte>, at: nat, iVal: i32) returns (n: nat)
    requires at + 9 <= aData.Length
    modifies aData
    ensures n == |Encode(ToU64(iVal))|
    ensures aData[at..at+n] == Encode(ToU64(iVal))
    ensures aData[..at] == old(aData[..at]) && aData[at+n..] == old(aData[at+n..])
  {
    n := PutVarint64(aData, at, ToU64(iVal));
  }

  // sqlite4BtVarintLen32.
  method VarintLen32(n: i32) returns (len: nat)
    ensures len == |Encode(ToU64(n))|
  {
    var aData := new byte[9](_ => 0);
    len := VarintPut32(aData, 0, n);
  }

  // sqlite4BtVarintGet64.
  function VarintGet64(z: Bytes): (i64, nat)
    requires Whole(z)
  {
    var r := GetVarint64(z);
    (ToI64(r.0), r.1)
  }

  // sqlite4BtVarintGet32: the short forms in place, the others by way of 64 bits.
  function VarintGet32(z: Bytes): (i32, nat)
    requires Whole(z)
  {
    if z[0] <= 240 then (z[0], 1)
    else if z[0] <= 248 then ((z[0] - 241) * U8 + z[1] + 240, 2)
    else if z[0] == 249 then (2288 + U8 * z[1] + z[2], 3)
    else if z[0] == 250 then (z[1] * U16 + z[2] * U8 + z[3], 4)
    else
      var r := GetVarint64(z);
      (ToI32(r.0), r.1)
  }

  lemma SignedRoundTrip(x: i64, rest: Bytes)
    ensures Whole(Encode(ToU64(x)) + rest)
    ensures VarintGet64(Encode(ToU64(x)) + rest) == (x, |Encode(ToU64(x))|)
  {
    hide Encode, GetVarint64;
    RoundTrip(ToU64(x), rest);
  }

  // On any bytes the 32-bit reader agrees with the 64-bit one, cut to an int.
  lemma Get32Truncates(z: Bytes)
    requires Whole(z)
    ensures VarintGet32(z) == (ToI32(GetVarint64(z).0), GetVarint64(z).1)
  {
  }

  lemma IntRoundTrip(x: i32, rest: Bytes)
    ensures Whole(Encode(ToU64(x)) + rest)
    ensures VarintGet32(Encode(ToU64(x)) + rest) == (x, |Encode(ToU64(x))|)
  {
    hide Encode, GetVarint64, VarintGet32;
    RoundTrip(ToU64(x), rest);
    Get32Truncates(Encode(ToU64(x)) + rest);
  }

  // A negative number always takes nine bytes.
  lemma NegativeIsLong(x: i64)
    requires x < 0
    ensures |Encode(ToU64(x))| == 9
  {
  }

  // ---- Length

  // z is exactly one varint, for x.
  predicate Decodes(z: Bytes, x: u64) {
    Whole(z) && |z| == VarintSize(z[0]) && GetVarint64(z).0 == x
  }

  // The greatest value a varint of n bytes can hold.
  function MaxOfSize(n: nat): int
    requires 1 <= n <= 9
  {
    if n == 1 then 240 else if n == 2 then 2287 else if n == 3 then 67823
    else Pow256(n - 1) - 1
  }

  lemma SizeBounds(z: Bytes, x: u64)
    requires Decodes(z, x)
    ensures x <= MaxOfSize(|z|)
  {
    if z[0] >= 250 {
      GetIsValue(z);
    }
  }

  lemma MaxGrows(n: nat, m: nat)
    requires 1 <= n <= m <= 9
    ensures MaxOfSize(n) <= MaxOfSize(m)
  {
    assert Pow256(3) == U24 && Pow256(4) == U32 && Pow256(5) == U40 && Pow256(6) == U48;
    assert Pow256(7) == U56 && Pow256(8) == U64;
  }

  // The encoding is the shortest the decoder would accept, except from 2^47 up
  // to 2^48: there the encoder spends an eighth byte where seven would do.
  lemma ShortestIff(x: u64)
    ensures (forall z: Bytes :: Decodes(z, x) ==> |Encode(x)| <= |z|) <==> !(U47 <= x < U48)
  {
    assert Pow256(3) == U24 && Pow256(4) == U32 && Pow256(5) == U40 && Pow256(6) == U48;
    assert Pow256(7) == U56 && Pow256(8) == U64;
    if U47 <= x < U48 {
      var z := [253] + BigEndian(x, 6);
      assert z[1..7] == BigEndian(x, 6);
      ValueOf(x, 6);
      GetIsValue(z);
      assert Decodes(z, x) && |z| == 7 && |Encode(x)| == 8;
    } else {
      forall z: Bytes | Decodes(z, x) ensures |Encode(x)| <= |z| {
        SizeBounds(z, x);
        if |z| < |Encode(x)| {
          MaxGrows(|z|, |Encode(x)| - 1);
        }
      }
    }
  }
}

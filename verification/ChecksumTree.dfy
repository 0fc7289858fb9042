// The checksum hierarchy of lsmtest5.c: reads and writes of the test database.
// A write refreshes one checksum on each level; a read recomputes one on each
// level and compares. Whatever was written before, no read finds a mismatch.

module ChecksumTree {
  import opened Basics
  import opened ByteOrder
  import opened ChecksumKeys
  import opened Division
  import opened OrderedStore
  import opened PageTypes

  // ---- Checksums

  // One byte: cksum += (cksum<<3) + aVal[i], on a u32.
  function Mix(c: nat, x: byte): (r: nat)
    ensures r < U32
  {
    (c + (c * 8) % U32 + x) % U32
  }

  function Fold(c: nat, val: Bytes): (r: nat)
    requires c < U32
    ensures r < U32
  {
    if val == [] then c else Mix(Fold(c, val[..|val|-1]), val[|val|-1])
  }

  // The callback on every entry of a scan.
  function FoldAll(es: Entries): (r: nat)
    ensures r < U32
  {
    if es == [] then 0 else Fold(FoldAll(es[..|es|-1]), es[|es|-1].val)
  }

  // dbCksum.
  method Cksum(pCksum: nat, aVal: Bytes) returns (cksum: nat)
    requires pCksum < U32
    ensures cksum == Fold(pCksum, aVal)
  {
    cksum := pCksum;
    for i := 0 to |aVal|
      invariant cksum == Fold(pCksum, aVal[..i])
    {
      assert aVal[..i+1][..i] == aVal[..i];
      cksum := (cksum + (cksum * 8) % U32 + aVal[i]) % U32;
    }
    assert aVal[..|aVal|] == aVal;
  }

  // ---- Blocks

  // The entries of level i-1 that the level-i checksum of key k covers.
  function Block(db: Entries, p: Params, i: nat, k: nat): Entries
    requires p.nFanout > 0 && i > 0 && Last(p, i, k) <= INT_MAX
  {
    Scan(db, KeyOf(p, i - 1, First(p, i, k)), KeyOf(p, i - 1, Last(p, i, k)))
  }

  // The stored checksum is that of the block; without one, the block is empty.
  predicate BlockOk(db: Entries, p: Params, i: nat, k: nat)
    requires p.nFanout > 0 && i > 0 && Last(p, i, k) <= INT_MAX && k <= INT_MAX
  {
    match Get(db, KeyOf(p, i, k))
    case None => Block(db, p, i, k) == []
    case Some(v) => v == Number(FoldAll(Block(db, p, i, k)))
  }

  // k is covered by the top level, so no number formatted for it overflows.
  lemma Covered(p: Params, m: nat, i: nat, k: nat)
    requires Fits(p, m) && i <= m && k < Span(p, m)
    ensures k <= INT_MAX && Last(p, i, k) <= INT_MAX
  {
    hide Span;
    var d := SpanDivides(p, i, m);
    SpanPositive(p, i);
    BlockFits(Span(p, i), d, k);
  }

  // Every checksum is right, except perhaps that of level i0 for key k0.
  ghost predicate AllBut(db: Entries, p: Params, m: nat, i0: nat, k0: nat)
    requires Fits(p, m)
  {
    forall i: nat, k: nat | 0 < i <= m && k < Span(p, m) &&
                            !(i == i0 && BlockStart(p, i, k) == BlockStart(p, i, k0)) ::
      Covered(p, m, i, k); BlockOk(db, p, i, k)
  }

  ghost predicate AllOk(db: Entries, p: Params, m: nat)
    requires Fits(p, m)
  {
    forall i: nat, k: nat | 0 < i <= m && k < Span(p, m) :: Covered(p, m, i, k); BlockOk(db, p, i, k)
  }

  // Writing the level-j entry of key k leaves every other block as it was.
  lemma OtherBlocks(db: Entries, p: Params, m: nat, j: nat, k: nat, v: Bytes, i: nat, k': nat)
    requires Fits(p, m) && j <= m && k < Span(p, m)
    requires 0 < i <= m && k' < Span(p, m)
    requires !(i == j + 1 && BlockStart(p, i, k') == BlockStart(p, i, k))
    ensures Last(p, i, k') <= INT_MAX && k <= INT_MAX
    ensures Block(Put(db, KeyOf(p, j, k), v), p, i, k') == Block(db, p, i, k')
  {
    hide Scan, Put, KeyOf, Span, Between, Le;
    Covered(p, m, i, k');
    Covered(p, m, j, k);
    RangeIsBlock(p, i - 1, k', j, k);
    PutScan(db, KeyOf(p, j, k), v, KeyOf(p, i - 1, First(p, i, k')), KeyOf(p, i - 1, Last(p, i, k')));
  }

  // Storing the checksum of the one stale block moves staleness one level up.
  lemma LevelUp(db: Entries, p: Params, m: nat, j: nat, k: nat)
    requires Fits(p, m) && 0 < j <= m && k < Span(p, m)
    requires AllBut(db, p, m, j, k)
    ensures k <= INT_MAX && Last(p, j, k) <= INT_MAX
    ensures AllBut(Put(db, KeyOf(p, j, k), Number(FoldAll(Block(db, p, j, k)))), p, m, j + 1, k)
  {
    hide Scan, Put, KeyOf, Span, Get, FoldAll, Number, BlockStart;
    Covered(p, m, j, k);
    var v := Number(FoldAll(Block(db, p, j, k)));
    var db' := Put(db, KeyOf(p, j, k), v);
    forall i: nat, k': nat | 0 < i <= m && k' < Span(p, m) &&
                             !(i == j + 1 && BlockStart(p, i, k') == BlockStart(p, i, k))
      ensures k' <= INT_MAX && Last(p, i, k') <= INT_MAX && BlockOk(db', p, i, k')
    {
      Covered(p, m, i, k');
      OtherBlocks(db, p, m, j, k, v, i, k');
      KeyInjective(p, i, k', j, k);
      PutGet(db, KeyOf(p, j, k), v, KeyOf(p, i, k'));
    }
  }

  lemma PairWritten(db: Entries, p: Params, m: nat, k: nat, v: Bytes)
    requires Fits(p, m) && k < Span(p, m) && k <= INT_MAX
    requires AllOk(db, p, m)
    ensures AllBut(Put(db, KeyOf(p, 0, k), v), p, m, 1, k)
  {
    hide Scan, Put, KeyOf, Span, Get, FoldAll, Number, BlockStart;
    forall i: nat, k': nat | 0 < i <= m && k' < Span(p, m) &&
                             !(i == 1 && BlockStart(p, i, k') == BlockStart(p, i, k))
      ensures k' <= INT_MAX && Last(p, i, k') <= INT_MAX && BlockOk(Put(db, KeyOf(p, 0, k), v), p, i, k')
    {
      Covered(p, m, i, k');
      assert BlockOk(db, p, i, k');
      OtherBlocks(db, p, m, 0, k, v, i, k');
      KeyInjective(p, i, k', 0, k);
      PutGet(db, KeyOf(p, 0, k), v, KeyOf(p, i, k'));
    }
  }

  // ---- Operations

  // Refresh the checksums of key k from level i to level m.
  function Climb(db: Entries, p: Params, m: nat, k: nat, i: nat): Entries
    requires Fits(p, m) && k < Span(p, m) && i > 0
    decreases m + 1 - i
  {
    if i > m then db
    else
      Covered(p, m, i, k);
      Climb(Put(db, KeyOf(p, i, k), Number(FoldAll(Block(db, p, i, k)))), p, m, k, i + 1)
  }

  function WriteOp(db: Entries, p: Params, m: nat, k: nat, v: Bytes): Entries
    requires Fits(p, m) && k < Span(p, m)
  {
    Covered(p, m, 0, k);
    Climb(Put(db, KeyOf(p, 0, k), v), p, m, k, 1)
  }

  lemma {:induction false} ClimbOk(db: Entries, p: Params, m: nat, k: nat, i: nat)
    requires Fits(p, m) && k < Span(p, m) && 0 < i <= m + 1
    requires AllBut(db, p, m, i, k)
    ensures AllOk(Climb(db, p, m, k, i), p, m)
    decreases m + 1 - i
  {
    hide Put, KeyOf, Span, BlockOk, FoldAll, Number, BlockStart;
    if i <= m {
      LevelUp(db, p, m, i, k);
      ClimbOk(Put(db, KeyOf(p, i, k), Number(FoldAll(Block(db, p, i, k)))), p, m, k, i + 1);
    }
  }

  lemma WriteKeepsChecksums(db: Entries, p: Params, m: nat, k: nat, v: Bytes)
    requires Fits(p, m) && k < Span(p, m) && AllOk(db, p, m)
    ensures AllOk(WriteOp(db, p, m, k, v), p, m)
  {
    Covered(p, m, 0, k);
    PairWritten(db, p, m, k, v);
    ClimbOk(Put(db, KeyOf(p, 0, k), v), p, m, k, 1);
  }

  // The check a read makes on level i.
  predicate LevelPasses(db: Entries, p: Params, i: nat, k: nat)
    requires p.nFanout > 0 && i > 0 && Last(p, i, k) <= INT_MAX && k <= INT_MAX
  {
    var c := FoldAll(Block(db, p, i, k));
    c == 0 || Get(db, KeyOf(p, i, k)) == Some(Number(c))
  }

  ghost predicate PassesUpTo(db: Entries, p: Params, m: nat, k: nat, n: nat)
    requires Fits(p, m) && k < Span(p, m) && n <= m
  {
    forall i: nat | 0 < i <= n :: Covered(p, m, i, k); LevelPasses(db, p, i, k)
  }

  ghost predicate ReadPasses(db: Entries, p: Params, m: nat, k: nat)
    requires Fits(p, m) && k < Span(p, m)
  {
    PassesUpTo(db, p, m, k, m)
  }

  lemma OkPasses(db: Entries, p: Params, m: nat, k: nat)
    requires Fits(p, m) && k < Span(p, m) && AllOk(db, p, m)
    ensures ReadPasses(db, p, m, k)
  {
    hide Span, Scan, KeyOf, Number, BlockStart;
    forall i: nat | 0 < i <= m
      ensures k <= INT_MAX && Last(p, i, k) <= INT_MAX && LevelPasses(db, p, i, k)
    {
      Covered(p, m, i, k);
      assert BlockOk(db, p, i, k);
    }
  }

  // ---- Whole runs

  // dbWriteOperation, or the case that the write transaction could not be opened.
  datatype Op = Write(k: nat, v: Bytes) | Busy

  predicate OpOk(p: Params, op: Op) {
    op.Write? ==> op.k < p.nKey
  }

  function Run(p: Params, m: nat, ops: seq<Op>): Entries
    requires Fits(p, m) && forall op | op in ops :: OpOk(p, op)
  {
    if ops == [] then []
    else
      var db := Run(p, m, ops[..|ops|-1]);
      assert OpOk(p, ops[|ops|-1]);
      match ops[|ops|-1]
      case Busy => db
      case Write(k, v) => WriteOp(db, p, m, k, v)
  }

  lemma {:induction false} RunOk(p: Params, m: nat, ops: seq<Op>)
    requires Fits(p, m) && forall op | op in ops :: OpOk(p, op)
    ensures AllOk(Run(p, m, ops), p, m)
  {
    hide Span, KeyOf, FoldAll, Number, BlockStart, WriteOp;
    if ops != [] {
      RunOk(p, m, ops[..|ops|-1]);
      assert OpOk(p, ops[|ops|-1]);
      match ops[|ops|-1]
      case Busy =>
      case Write(k, v) => WriteKeepsChecksums(Run(p, m, ops[..|ops|-1]), p, m, k, v);
    }
  }

  // After any sequence of writes every read of every key finds its checksums right.
  lemma EveryReadPasses(p: Params, m: nat, ops: seq<Op>, k: nat)
    requires Fits(p, m) && forall op | op in ops :: OpOk(p, op)
    requires k < p.nKey
    ensures ReadPasses(Run(p, m, ops), p, m, k)
  {
    RunOk(p, m, ops);
    OkPasses(Run(p, m, ops), p, m, k);
  }

  // ---- What a run leaves in the database

  // A block holds the entries of the level below whose keys it spans.
  lemma BlockEntries(db: Entries, p: Params, i: nat, k: nat, e: Entry, l: nat, k': nat)
    requires p.nFanout > 0 && i > 0 && Last(p, i, k) <= INT_MAX && k' <= INT_MAX
    requires e.key == KeyOf(p, l, k')
    ensures e in Block(db, p, i, k) <==> e in db && l == i - 1 && BlockStart(p, i, k') == BlockStart(p, i, k)
  {
    hide Scan, Between;
    ScanIsRange(db, KeyOf(p, i - 1, First(p, i, k)), KeyOf(p, i - 1, Last(p, i, k)), e);
    RangeIsBlock(p, i - 1, k, l, k');
  }

  function LastWritten(ops: seq<Op>, k: nat): Option<Bytes> {
    if ops == [] then None
    else
      match ops[|ops|-1]
      case Write(k', v) => if k' == k then Some(v) else LastWritten(ops[..|ops|-1], k)
      case Busy => LastWritten(ops[..|ops|-1], k)
  }

  lemma {:induction false} ClimbKeeps(db: Entries, p: Params, m: nat, k: nat, i: nat, k': nat)
    requires Fits(p, m) && k < Span(p, m) && i > 0 && k' <= INT_MAX
    ensures Get(Climb(db, p, m, k, i), KeyOf(p, 0, k')) == Get(db, KeyOf(p, 0, k'))
    ensures Sorted(db) ==> Sorted(Climb(db, p, m, k, i))
    decreases m + 1 - i
  {
    hide Put, Get, KeyOf, Span, FoldAll, Number, BlockStart, Block, Sorted;
    if i <= m {
      Covered(p, m, i, k);
      var v := Number(FoldAll(Block(db, p, i, k)));
      KeyInjective(p, i, k, 0, k');
      PutGet(db, KeyOf(p, i, k), v, KeyOf(p, 0, k'));
      if Sorted(db) {
        PutSorted(db, KeyOf(p, i, k), v);
      }
      ClimbKeeps(Put(db, KeyOf(p, i, k), v), p, m, k, i + 1, k');
    }
  }

  lemma NoEntries()
    ensures Sorted([])
  {
  }

  // No write disturbs another pair: a key holds what was last written to it.
  lemma {:induction false} PairsKept(p: Params, m: nat, ops: seq<Op>, k: nat)
    requires Fits(p, m) && forall op | op in ops :: OpOk(p, op)
    requires k <= INT_MAX
    ensures Get(Run(p, m, ops), KeyOf(p, 0, k)) == LastWritten(ops, k)
    ensures Sorted(Run(p, m, ops))
  {
    hide Put, KeyOf, FoldAll, Number, BlockStart, Block, Sorted;
    if ops == [] {
      assert Sorted([]) by { NoEntries(); }
    } else {
      var db := Run(p, m, ops[..|ops|-1]);
      PairsKept(p, m, ops[..|ops|-1], k);
      assert OpOk(p, ops[|ops|-1]);
      match ops[|ops|-1]
      case Busy =>
      case Write(k', v) =>
        Covered(p, m, 0, k');
        var db' := Put(db, KeyOf(p, 0, k'), v);
        PutSorted(db, KeyOf(p, 0, k'), v);
        KeyInjective(p, 0, k', 0, k);
        assert BlockStart(p, 0, k') == k' && BlockStart(p, 0, k) == k;
        PutGet(db, KeyOf(p, 0, k'), v, KeyOf(p, 0, k));
        ClimbKeeps(db', p, m, k', 1, k);
    }
  }

  // ---- What a read detects

  lemma MixIsLinear(c: nat, x: byte)
    requires c < U32
    ensures Mix(c, x) == (9 * c + x) % U32
  {
  }

  // 9 is invertible modulo 2^32.
  lemma NineDivides(d: int, t: int)
    requires 9 * d == U32 * t && -9 <= t <= 9 && -U32 < d < U32
    ensures d == 0
  {
    assert 9 * (d - 477218588 * t) == 4 * t;
  }

  lemma MixInjective(c: nat, c': nat, x: byte)
    requires c < U32 && c' < U32 && c != c'
    ensures Mix(c, x) != Mix(c', x)
  {
    hide Mix;
    MixIsLinear(c, x);
    MixIsLinear(c', x);
    var a, b := 9 * c + x, 9 * c' + x;
    if a % U32 == b % U32 {
      assert a == U32 * (a / U32) + a % U32 && b == U32 * (b / U32) + b % U32;
      NineDivides(c - c', a / U32 - b / U32);
    }
  }

  lemma MixDetects(c: nat, x: byte, x': byte)
    requires c < U32 && x != x'
    ensures Mix(c, x) != Mix(c, x')
  {
    MixIsLinear(c, x);
    MixIsLinear(c, x');
  }

  lemma {:induction false} FoldInjective(c: nat, c': nat, v: Bytes)
    requires c < U32 && c' < U32 && c != c'
    ensures Fold(c, v) != Fold(c', v)
  {
    if v != [] {
      var u := v[..|v|-1];
      FoldInjective(c, c', u);
      MixInjective(Fold(c, u), Fold(c', u), v[|v|-1]);
    }
  }

  lemma {:induction false} FoldDetects(c: nat, v: Bytes, n: nat, x: byte)
    requires c < U32 && n < |v| && x != v[n]
    ensures Fold(c, v[n := x]) != Fold(c, v)
  {
    var u := v[..|v|-1];
    if n == |v| - 1 {
      assert v[n := x][..n] == u;
      MixDetects(Fold(c, u), v[n], x);
    } else {
      FoldDetects(c, u, n, x);
      assert v[n := x][..|v|-1] == u[n := x];
      MixInjective(Fold(c, u), Fold(c, u[n := x]), v[|v|-1]);
    }
  }

  lemma {:induction false} FoldAllDetects(es: Entries, i: nat, n: nat, x: byte)
    requires i < |es| && n < |es[i].val| && x != es[i].val[n]
    ensures FoldAll(es[i := es[i].(val := es[i].val[n := x])]) != FoldAll(es)
  {
    hide Fold;
    var e := es[i].(val := es[i].val[n := x]);
    var u, l := es[..|es|-1], |es| - 1;
    if i == l {
      assert es[i := e][..l] == u;
      FoldDetects(FoldAll(u), es[i].val, n, x);
    } else {
      FoldAllDetects(u, i, n, x);
      assert es[i := e][..l] == u[i := e];
      FoldInjective(FoldAll(u), FoldAll(u[i := e]), es[l].val);
    }
  }

  // Overwriting an entry of the range replaces it in the scan.
  lemma {:induction false} PutInScan(db: Entries, k: Bytes, v: Bytes, lo: Bytes, hi: Bytes) returns (n: nat)
    requires Sorted(db) && Between(k, lo, hi) && Get(db, k).Some?
    ensures n < |Scan(db, lo, hi)| && Scan(db, lo, hi)[n] == Entry(k, Get(db, k).value)
    ensures Scan(Put(db, k, v), lo, hi) == Scan(db, lo, hi)[n := Entry(k, v)]
  {
    if k == db[0].key {
      n := 0;
      assert Put(db, k, v)[1..] == db[1..];
    } else {
      KeyAfterFirst(db, k);
      var d := if Between(db[0].key, lo, hi) then 1 else 0;
      n := PutInScan(db[1..], k, v, lo, hi);
      n := n + d;
      assert Put(db, k, v) == [db[0]] + Put(db[1..], k, v);
      assert Put(db, k, v)[1..] == Put(db[1..], k, v);
    }
  }

  lemma KeyAfterFirst(db: Entries, k: Bytes)
    requires Sorted(db) && Get(db, k).Some? && k != db[0].key
    ensures !Le(k, db[0].key)
  {
    GetIn(db, k);
    LeTotal(k, db[0].key);
  }

  lemma {:induction false} GetIn(db: Entries, k: Bytes)
    requires Get(db, k).Some?
    ensures Entry(k, Get(db, k).value) in db
  {
    if k != db[0].key {
      GetIn(db[1..], k);
    }
  }

  // Changing one byte of the level-j entry of k changes the checksum of its block.
  lemma BlockDetects(db: Entries, p: Params, j: nat, k: nat, n: nat, x: byte)
    requires p.nFanout > 0 && k <= INT_MAX && Last(p, j + 1, k) <= INT_MAX
    requires Sorted(db) && Get(db, KeyOf(p, j, k)).Some?
    requires n < |Get(db, KeyOf(p, j, k)).value| && x != Get(db, KeyOf(p, j, k)).value[n]
    ensures FoldAll(Block(Put(db, KeyOf(p, j, k), Get(db, KeyOf(p, j, k)).value[n := x]), p, j + 1, k))
            != FoldAll(Block(db, p, j + 1, k))
  {
    hide Put, KeyOf, FoldAll, BlockStart, Scan, Sorted, Between, Get;
    var key := KeyOf(p, j, k);
    var v := Get(db, key).value;
    RangeIsBlock(p, j, k, j, k);
    var at := PutInScan(db, key, v[n := x], KeyOf(p, j, First(p, j + 1, k)), KeyOf(p, j, Last(p, j + 1, k)));
    FoldAllDetects(Block(db, p, j + 1, k), at, n, x);
  }

  // What a read of k checks after its level-j entry was overwritten: on level j
  // the same block with another checksum stored, on level j+1 another block with
  // the same one stored, on other levels nothing new.
  lemma LevelAfter(db: Entries, p: Params, m: nat, j: nat, k: nat, v: Bytes, i: nat)
    requires Fits(p, m) && k < Span(p, m) && k <= INT_MAX && j <= m && 0 < i <= m
    requires AllOk(db, p, m)
    ensures Last(p, i, k) <= INT_MAX
    ensures var db' := Put(db, KeyOf(p, j, k), v);
            && Get(db', KeyOf(p, i, k)) == (if i == j then Some(v) else Get(db, KeyOf(p, i, k)))
            && (i != j + 1 ==> Block(db', p, i, k) == Block(db, p, i, k))
            && (i != j && i != j + 1 ==> LevelPasses(db', p, i, k))
  {
    hide Put, KeyOf, Number, BlockStart, Scan, Get, Span;
    Covered(p, m, i, k);
    KeyInjective(p, i, k, j, k);
    PutGet(db, KeyOf(p, j, k), v, KeyOf(p, i, k));
    if i != j + 1 {
      OtherBlocks(db, p, m, j, k, v, i, k);
      assert BlockOk(db, p, i, k);
    }
  }

  // The entries stored for k after a run: of level 0 the pair, of the others the
  // checksums.
  function Stored(p: Params, m: nat, ops: seq<Op>, j: nat, k: nat): Option<Bytes>
    requires Fits(p, m) && forall op | op in ops :: OpOk(p, op)
    requires k < p.nKey
  {
    Get(Run(p, m, ops), KeyOf(p, j, k))
  }

  // After any run, replace a stored checksum behind the program's back. A read of
  // a key below it does not pass, unless that checksum is 0.
  lemma ChecksumDetected(p: Params, m: nat, ops: seq<Op>, j: nat, k: nat, w: Bytes)
    requires Fits(p, m) && forall op | op in ops :: OpOk(p, op)
    requires 0 < j <= m && k < p.nKey && Stored(p, m, ops, j, k).Some? && w != Stored(p, m, ops, j, k).value
    ensures Last(p, j, k) <= INT_MAX
    ensures ReadPasses(Put(Run(p, m, ops), KeyOf(p, j, k), w), p, m, k) ==> FoldAll(Block(Run(p, m, ops), p, j, k)) == 0
  {
    hide Put, KeyOf, FoldAll, Number, BlockStart, Block, Run, Get;
    var db := Run(p, m, ops);
    RunOk(p, m, ops);
    Covered(p, m, j, k);
    LevelAfter(db, p, m, j, k, w, j);
    assert BlockOk(db, p, j, k);
    if ReadPasses(Put(db, KeyOf(p, j, k), w), p, m, k) {
      assert LevelPasses(Put(db, KeyOf(p, j, k), w), p, j, k);
    }
  }

  // After any run, change one byte of one stored entry, pair or checksum, behind
  // the program's back. A read of a key it belongs to notices, exactly unless the
  // checksums it computes of the block of the entry, and of the block of the
  // level below that the entry stands for, both happen to be 0.
  lemma StoredByteDetected(p: Params, m: nat, ops: seq<Op>, j: nat, k: nat, n: nat, x: byte)
    requires Fits(p, m) && forall op | op in ops :: OpOk(p, op)
    requires j <= m && k < p.nKey && Stored(p, m, ops, j, k).Some?
    requires n < |Stored(p, m, ops, j, k).value| && x != Stored(p, m, ops, j, k).value[n]
    ensures Last(p, j, k) <= INT_MAX && (j < m ==> Last(p, j + 1, k) <= INT_MAX)
    ensures var db' := Put(Run(p, m, ops), KeyOf(p, j, k), Stored(p, m, ops, j, k).value[n := x]);
            ReadPasses(db', p, m, k) <==>
              && (j > 0 ==> FoldAll(Block(db', p, j, k)) == 0)
              && (j < m ==> FoldAll(Block(db', p, j + 1, k)) == 0)
  {
    hide Put, KeyOf, FoldAll, Number, BlockStart, Block, Sorted, Run, Get, BlockOk, LevelPasses;
    Covered(p, m, j, k);
    var db, v := Run(p, m, ops), Stored(p, m, ops, j, k).value[n := x];
    var db' := Put(db, KeyOf(p, j, k), v);
    RunOk(p, m, ops);
    forall i: nat | 0 < i <= m
      ensures Last(p, i, k) <= INT_MAX
      ensures LevelPasses(db', p, i, k) <==> ((i == j || i == j + 1) ==> FoldAll(Block(db', p, i, k)) == 0)
    {
      Covered(p, m, i, k);
      if i == j {
        OwnLevel(db, p, m, j, k, v);
      } else if i == j + 1 {
        PairsKept(p, m, ops, k);
        NextLevel(db, p, m, j, k, n, x);
      } else {
        LevelAfter(db, p, m, j, k, v, i);
      }
    }
  }

  lemma OwnLevel(db: Entries, p: Params, m: nat, j: nat, k: nat, v: Bytes)
    requires Fits(p, m) && k < Span(p, m) && k <= INT_MAX && 0 < j <= m && Last(p, j, k) <= INT_MAX
    requires AllOk(db, p, m) && Get(db, KeyOf(p, j, k)).Some? && v != Get(db, KeyOf(p, j, k)).value
    ensures var db' := Put(db, KeyOf(p, j, k), v);
            LevelPasses(db', p, j, k) <==> FoldAll(Block(db', p, j, k)) == 0
  {
    hide Put, KeyOf, FoldAll, Number, BlockStart, Block, Get;
    LevelAfter(db, p, m, j, k, v, j);
    assert BlockOk(db, p, j, k);
  }

  lemma NextLevel(db: Entries, p: Params, m: nat, j: nat, k: nat, n: nat, x: byte)
    requires Fits(p, m) && k < Span(p, m) && k <= INT_MAX && j < m && Last(p, j + 1, k) <= INT_MAX
    requires AllOk(db, p, m) && Sorted(db) && Get(db, KeyOf(p, j, k)).Some?
    requires n < |Get(db, KeyOf(p, j, k)).value| && x != Get(db, KeyOf(p, j, k)).value[n]
    ensures var db' := Put(db, KeyOf(p, j, k), Get(db, KeyOf(p, j, k)).value[n := x]);
            LevelPasses(db', p, j + 1, k) <==> FoldAll(Block(db', p, j + 1, k)) == 0
  {
    hide Put, KeyOf, FoldAll, Number, BlockStart, Block, Get, Sorted;
    var db' := Put(db, KeyOf(p, j, k), Get(db, KeyOf(p, j, k)).value[n := x]);
    LevelAfter(db, p, m, j, k, Get(db, KeyOf(p, j, k)).value[n := x], j + 1);
    BlockDetects(db, p, j, k, n, x);
    assert BlockOk(db, p, j + 1, k);
    NumberInjective(FoldAll(Block(db, p, j + 1, k)), FoldAll(Block(db', p, j + 1, k)));
  }

  // For the value last written to a key: the read fails exactly unless the
  // level-1 checksum it now computes happens to be 0.
  lemma OneByteDetected(p: Params, m: nat, ops: seq<Op>, k: nat, n: nat, x: byte)
    requires Fits(p, m) && forall op | op in ops :: OpOk(p, op)
    requires 1 < p.nKey && k < p.nKey && LastWritten(ops, k).Some?
    requires n < |LastWritten(ops, k).value| && x != LastWritten(ops, k).value[n]
    ensures m > 0 && k <= INT_MAX && Last(p, 1, k) <= INT_MAX
    ensures var db' := Put(Run(p, m, ops), KeyOf(p, 0, k), LastWritten(ops, k).value[n := x]);
            ReadPasses(db', p, m, k) <==> FoldAll(Block(db', p, 1, k)) == 0
  {
    hide Put, KeyOf, FoldAll, BlockStart, Block, Sorted, LastWritten, Run, Get, ReadPasses;
    assert m > 0;
    Covered(p, m, 1, k);
    PairsKept(p, m, ops, k);
    StoredByteDetected(p, m, ops, 0, k, n, x);
  }

  // ---- A change no read notices

  lemma {:induction false} ZerosFoldToZero(es: Entries)
    requires forall e | e in es :: e.val == [0]
    ensures FoldAll(es) == 0
  {
    if es != [] {
      var e := es[|es|-1];
      ZerosFoldToZero(es[..|es|-1]);
      assert e in es;
      ZeroFolds(e.val);
    }
  }

  lemma ZeroFolds(v: Bytes)
    requires v == [0]
    ensures Fold(0, v) == 0
  {
    assert v[..0] == [] && Fold(0, v[..0]) == 0;
  }

  lemma {:induction false} SortedGet(db: Entries, e: Entry)
    requires Sorted(db) && e in db
    ensures Get(db, e.key) == Some(e.val)
  {
    if e != db[0] {
      SortedGet(db[1..], e);
    }
  }

  // In a database of two keys the value of the first is one byte, 1, and there
  // is no other. Changed to 0, it has the checksum 0, and the read that is to
  // compare it with the stored one skips the comparison.
  lemma ZeroUndetected()
    ensures var p, ops := Params(2, 2), [Write(0, [1])];
            Fits(p, 1) && (forall op | op in ops :: OpOk(p, op)) && LastWritten(ops, 0) == Some([1])
            && ReadPasses(Put(Run(p, 1, ops), KeyOf(p, 0, 0), [0]), p, 1, 0)
  {
    hide Put, KeyOf, FoldAll, Number, BlockStart, Scan, Get, Sorted, Le, ReadPasses;
    var p, ops := Params(2, 2), [Write(0, [1])];
    assert Span(p, 0) == 1 && Span(p, 1) == 2;
    assert ops[..0] == [] && LastWritten(ops, 0) == Some([1]);
    OneByteDetected(p, 1, ops, 0, 0, 0);
    assert [1][0 := 0] == [0];
    var key, ck := KeyOf(p, 0, 0), KeyOf(p, 1, 0);
    var db0 := Put([], key, [1]);
    var v := Number(FoldAll(Block(db0, p, 1, 0)));
    var db := Put(db0, ck, v);
    assert Run(p, 1, []) == [] && Run(p, 1, ops) == WriteOp([], p, 1, 0, [1]) == Climb(db0, p, 1, 0, 1) == Climb(db, p, 1, 0, 2) == db;
    var db' := Put(db, key, [0]);
    PairsKept(p, 1, ops, 0);
    PutSorted(db, key, [0]);
    PutGet(db, key, [0], key);
    forall e | e in Block(db', p, 1, 0)
      ensures e.val == [0]
    {
      ScanIsRange(db', KeyOf(p, 0, First(p, 1, 0)), KeyOf(p, 0, Last(p, 1, 0)), e);
      PutKeys(db, key, [0], e);
      PutKeys(db0, ck, v, e);
      PutKeys([], key, [1], e);
      RangeIsBlock(p, 0, 0, 1, 0);
      SortedGet(db', e);
    }
    ZerosFoldToZero(Block(db', p, 1, 0));
  }

  lemma NumberInjective(a: nat, b: nat)
    requires a < U32 && b < U32
    ensures Number(a) == Number(b) ==> a == b
  {
    NumberOrder(a, b);
    NumberOrder(b, a);
  }

  // ---- The operations as the program runs them

  lemma TopUnique(p: Params, m: nat, m': nat)
    requires IsTop(p, m) && IsTop(p, m')
    ensures m == m'
  {
    assert m < m' ==> Span(p, m) < p.nKey;
    assert m' < m ==> Span(p, m') < p.nKey;
  }

  class TestDatabase {
    const p: Params
    var db: Entries

    constructor (p: Params)
      ensures this.p == p && db == []
    {
      this.p := p;
      db := [];
    }

    // dbComputeCksum: a scan with dbCksum as its callback.
    method ComputeCksum(iLevel: nat, iKey: nat) returns (cksum: nat)
      requires p.nFanout > 0 && iLevel > 0 && iKey <= INT_MAX && Last(p, iLevel, iKey) <= INT_MAX
      ensures cksum == FoldAll(Block(db, p, iLevel, iKey))
    {
      hide Scan, KeyOf, FoldAll, Fold;
      var f := 1;
      for i := 0 to iLevel
        invariant f == Span(p, i)
      {
        f := f * p.nFanout;
      }
      SpanPositive(p, iLevel);
      FloorBounds(iKey, f);
      var iFirst := f * (iKey / f);
      var iLast := iFirst + f - 1;
      var zFirst := FormatKey(p, iLevel - 1, iFirst);
      var zLast := FormatKey(p, iLevel - 1, iLast);
      cksum := ScanCksum(zFirst, zLast);
    }

    // tdb_scan(pDb, &cksum, 0, zFirst, nFirst, zLast, nLast, dbCksum).
    method ScanCksum(zFirst: Bytes, zLast: Bytes) returns (cksum: nat)
      ensures cksum == FoldAll(Scan(db, zFirst, zLast))
    {
      cksum := 0;
      var es := Scan(db, zFirst, zLast);
      for i := 0 to |es|
        invariant cksum == FoldAll(es[..i])
      {
        assert es[..i+1][..i] == es[..i];
        cksum := Cksum(cksum, es[i].val);
      }
      assert es[..|es|] == es;
    }

    // dbReadOperation. Returns whether every fetch found what it expected.
    method ReadOperation(iKey: nat, ghost m: nat) returns (ok: bool)
      requires Fits(p, m) && iKey < p.nKey
      ensures ok <==> ReadPasses(db, p, m, iKey)
    {
      hide KeyOf, FoldAll, Number, BlockStart, Span, Block;
      var iMax := MaxLevel(p);
      TopUnique(p, iMax, m);
      ok := true;
      var i := 1;
      while ok && i <= iMax
        invariant 1 <= i <= iMax + 1
        invariant ok <==> PassesUpTo(db, p, m, iKey, i - 1)
      {
        Covered(p, iMax, i, iKey);
        var iCksum := ComputeCksum(i, iKey);
        if iCksum != 0 {
          var zKey := FormatKey(p, i, iKey);
          ok := Get(db, zKey) == Some(Number(iCksum));
        }
        assert ok <==> LevelPasses(db, p, i, iKey);
        i := i + 1;
      }
    }

    // dbWriteOperation. bBusy: the write transaction could not be opened.
    method WriteOperation(iKey: nat, zValue: Bytes, bBusy: bool, ghost m: nat) returns (written: bool)
      requires Fits(p, m) && iKey < p.nKey
      modifies this
      ensures written == !bBusy
      ensures db == if bBusy then old(db) else WriteOp(old(db), p, m, iKey, zValue)
    {
      hide KeyOf, FoldAll, Number, BlockStart, Span, Block, Put;
      var iMax := MaxLevel(p);
      TopUnique(p, iMax, m);
      if bBusy {
        return false;
      }
      Covered(p, iMax, 0, iKey);
      var zKey := FormatKey(p, 0, iKey);
      db := Put(db, zKey, zValue);
      var i := 1;
      while i <= iMax
        invariant 1 <= i <= iMax + 1
        invariant Climb(db, p, iMax, iKey, i) == WriteOp(old(db), p, iMax, iKey, zValue)
      {
        Covered(p, iMax, i, iKey);
        var iCksum := ComputeCksum(i, iKey);
        zKey := FormatKey(p, i, iKey);
        db := Put(db, zKey, Number(iCksum));
        i := i + 1;
      }
      return true;
    }
  }
}

// Who owns each page of the file: the rules that page and block allocation
// keep. On values; Allocator.dfy applies them to a pager.

module Space {
  import opened Basics
  import opened Division
  import opened PageTypes
  import opened FreeListPages
  import opened SnapshotStack

  // pts and bts are the trunks of the page list and of the block list, head
  // last; client and used are the pages and blocks handed out and not
  // returned.
  datatype Owners = Owners(pts: seq<nat>, bts: seq<nat>, client: set<nat>, used: set<nat>)

  // Pages per block.
  function PerBlock(h: DbHdr): nat
    requires h.pgsz > 0
  {
    h.blksz / h.pgsz
  }

  // The block page q lies in.
  function BlockOf(q: nat, n: nat): nat
    requires q >= 1 && n >= 1
  {
    (q - 1) / n + 1
  }

  function Bit(b: bool): nat {
    if b then 1 else 0
  }

  // The number of owners of page q.
  function Claims(q: nat, n: nat, client: set<nat>, free: seq<nat>, bts: seq<nat>, blocks: set<nat>): nat
    requires n >= 1
  {
    Bit(q in client) + Bit(q in free) + Bit(q in bts) + Bit(q >= 1 && BlockOf(q, n) in blocks)
  }

  // Pages 1 to top have one owner each, all others none; no number is on a
  // list twice.
  ghost predicate Partition(top: nat, n: nat, client: set<nat>, free: seq<nat>, bts: seq<nat>, blocks: set<nat>)
    requires n >= 1
  {
    && NoDup(free) && NoDup(bts) && 0 !in blocks
    && (forall q: nat :: Claims(q, n, client, free, bts, blocks) == Bit(1 <= q <= top))
  }

  // Header, lists and page sizes fit together.
  ghost predicate ListsOk(db: Db, o: Owners) {
    && 12 <= db.hdr.pgsz < U32 && PerBlock(db.hdr) >= 1
    && (forall q: nat :: q in db.pages && |db.pages[q]| == db.hdr.pgsz)
    && Chain(db.pages, o.pts, db.hdr.pgsz) && NoDup(o.pts) && db.hdr.iFreePg == Head(o.pts)
    && Chain(db.pages, o.bts, db.hdr.pgsz) && NoDup(o.bts) && db.hdr.iFreeBlk == Head(o.bts)
  }

  // The free pages and the free blocks, each a stack, top last.
  ghost function Free(db: Db, o: Owners): seq<nat>
    requires ListsOk(db, o)
  {
    Stack(db.pages, o.pts, db.hdr.pgsz, true)
  }

  ghost function FreeBlocks(db: Db, o: Owners): seq<nat>
    requires ListsOk(db, o)
  {
    Stack(db.pages, o.bts, db.hdr.pgsz, false)
  }

  ghost function SetOf(s: seq<nat>): set<nat> {
    set x | x in s
  }

  // top is the last page of the file, in the middle of a BlockAllocate the
  // last page that has an owner.
  ghost predicate SpaceOk(db: Db, o: Owners, top: nat) {
    && ListsOk(db, o)
    && top < U32
    && NoDup(FreeBlocks(db, o)) && SetOf(FreeBlocks(db, o)) !! o.used
    && (forall b | b in o.used :: b < U32)
    && Partition(top, PerBlock(db.hdr), o.client, Free(db, o), o.bts, o.used + SetOf(FreeBlocks(db, o)))
  }

  // Nothing a snapshot or the store holds has changed, and a new list head is
  // flagged, so that the commit will write it to page 1.
  predicate SameOuter(t: Tx, t': Tx) {
    && t'.level == t.level && t'.saved == t.saved && t'.committed == t.committed
    && (t.hdrDirty || HeadsMoved(t.cur.hdr, t'.cur.hdr) ==> t'.hdrDirty)
  }

  predicate HeadsMoved(h: DbHdr, h': DbHdr) {
    h'.iFreePg != h.iFreePg || h'.iFreeBlk != h.iFreeBlk
  }

  // The header is flagged only if a list head has moved.
  predicate FlaggedOnly(t: Tx, t': Tx) {
    t'.hdrDirty ==> t.hdrDirty || HeadsMoved(t.cur.hdr, t'.cur.hdr)
  }

  // No page past page m has changed.
  ghost predicate TailSame(db: Db, db': Db, m: nat) {
    forall q: nat | q > m && q in db.pages :: q in db'.pages && db'.pages[q] == db.pages[q]
  }

  lemma TailTrans(db: Db, db1: Db, db2: Db, m: nat, m': nat)
    requires TailSame(db, db1, m) && TailSame(db1, db2, m') && m <= m'
    ensures TailSame(db, db2, m')
  {
  }

  lemma TailStart(db: Db)
    ensures TailSame(db, db, db.hdr.nPg)
  {
  }

  // So a database that ends where its header says still does.
  lemma TailTidy(db: Db, db': Db, pgsz: nat)
    requires ZeroTail(db, pgsz) && TailSame(db, db', db'.hdr.nPg) && db.hdr.nPg <= db'.hdr.nPg
    requires forall q: nat :: q in db'.pages
    ensures ZeroTail(db', pgsz)
  {
  }

  // ---- Moves between owners

  lemma NoDupAppend(s: seq<nat>, x: nat)
    requires NoDup(s) && x !in s
    ensures NoDup(s + [x]) && forall q: nat :: q in s + [x] <==> q in s || q == x
  {
  }

  lemma NoDupDrop(s: seq<nat>, x: nat)
    requires NoDup(s + [x])
    ensures NoDup(s) && x !in s && forall q: nat :: q in s + [x] <==> q in s || q == x
  {
    assert forall i | 0 <= i < |s| :: (s + [x])[i] == s[i];
    assert (s + [x])[|s|] == x;
  }

  // A client page goes onto the page list.
  lemma MoveToFree(top: nat, n: nat, c: set<nat>, f: seq<nat>, t: seq<nat>, k: set<nat>, q: nat)
    requires n >= 1 && Partition(top, n, c, f, t, k) && q in c
    ensures Partition(top, n, c - {q}, f + [q], t, k) && q !in f && q !in t && 1 <= q <= top
  {
    assert Claims(q, n, c, f, t, k) == 1;
    NoDupAppend(f, q);
    forall r: nat
      ensures Claims(r, n, c - {q}, f + [q], t, k) == Bit(1 <= r <= top)
    {
      assert Claims(r, n, c, f, t, k) == Bit(1 <= r <= top);
    }
  }

  // The top of the page list goes to the client.
  lemma MoveFromFree(top: nat, n: nat, c: set<nat>, f: seq<nat>, t: seq<nat>, k: set<nat>, q: nat)
    requires n >= 1 && Partition(top, n, c, f + [q], t, k)
    ensures Partition(top, n, c + {q}, f, t, k) && q !in c && 1 <= q <= top
  {
    NoDupDrop(f, q);
    assert Claims(q, n, c, f + [q], t, k) == 1;
    forall r: nat
      ensures Claims(r, n, c + {q}, f, t, k) == Bit(1 <= r <= top)
    {
      assert Claims(r, n, c, f + [q], t, k) == Bit(1 <= r <= top);
    }
  }

  // The file grows by one page, the client's.
  lemma MoveFromEnd(top: nat, n: nat, c: set<nat>, f: seq<nat>, t: seq<nat>, k: set<nat>, e: nat)
    requires n >= 1 && Partition(top, n, c, f, t, k) && e == top + 1
    ensures Partition(e, n, c + {e}, f, t, k) && e !in c
  {
    assert Claims(e, n, c, f, t, k) == 0;
    forall r: nat
      ensures Claims(r, n, c + {e}, f, t, k) == Bit(1 <= r <= e)
    {
      assert Claims(r, n, c, f, t, k) == Bit(1 <= r <= top);
    }
  }

  // A client page becomes a trunk of the block list, and back.
  lemma MoveToTrunks(top: nat, n: nat, c: set<nat>, f: seq<nat>, t: seq<nat>, k: set<nat>, q: nat)
    requires n >= 1 && Partition(top, n, c, f, t, k) && q in c
    ensures Partition(top, n, c - {q}, f, t + [q], k) && q !in f && q !in t && 1 <= q <= top
  {
    assert Claims(q, n, c, f, t, k) == 1;
    NoDupAppend(t, q);
    forall r: nat
      ensures Claims(r, n, c - {q}, f, t + [q], k) == Bit(1 <= r <= top)
    {
      assert Claims(r, n, c, f, t, k) == Bit(1 <= r <= top);
    }
  }

  lemma MoveFromTrunks(top: nat, n: nat, c: set<nat>, f: seq<nat>, t: seq<nat>, k: set<nat>, q: nat)
    requires n >= 1 && Partition(top, n, c, f, t + [q], k)
    ensures Partition(top, n, c + {q}, f, t, k) && q !in c && q !in f && q !in t && 1 <= q <= top
  {
    NoDupDrop(t, q);
    assert Claims(q, n, c, f, t + [q], k) == 1;
    forall r: nat
      ensures Claims(r, n, c + {q}, f, t, k) == Bit(1 <= r <= top)
    {
      assert Claims(r, n, c, f, t + [q], k) == Bit(1 <= r <= top);
    }
  }

  // ---- Block arithmetic

  lemma BlockPages(b: nat, n: nat, q: nat)
    requires b >= 1 && n >= 1 && q >= 1
    ensures BlockOf(q, n) == b <==> (b - 1) * n < q <= b * n
  {
    var d := (q - 1) / n;
    DivBounds(q - 1, n);
    MulNext(b - 1, n);
    if d + 1 < b {
      MulNext(d, n);
      MulGrows(d + 1, b - 1, n);
    } else if d + 1 > b {
      MulGrows(b, d, n);
    }
  }

  // A block carved from the end of the file: it starts past the last page, the
  // pages in between are fewer than a block, and it takes the pages up to its
  // own end.
  lemma NextBlock(top: nat, n: nat)
    requires n >= 1
    ensures var b := 1 + (top + n - 1) / n;
            var root := (b - 1) * n + 1;
            root > top && root - 1 - top < n && b * n == root - 1 + n
  {
    DivBounds(top + n - 1, n);
    MulNext((top + n - 1) / n, n);
  }

  lemma MoveNewBlock(n: nat, c: set<nat>, f: seq<nat>, t: seq<nat>, k: set<nat>, b: nat)
    requires n >= 1 && b >= 1 && Partition((b - 1) * n, n, c, f, t, k)
    ensures Partition(b * n, n, c, f, t, k + {b}) && b !in k
  {
    var top := (b - 1) * n;
    assert b * n == top + n;
    BlockPages(b, n, b * n);
    assert Claims(b * n, n, c, f, t, k) == 0;
    forall r: nat
      ensures Claims(r, n, c, f, t, k + {b}) == Bit(1 <= r <= b * n)
    {
      assert Claims(r, n, c, f, t, k) == Bit(1 <= r <= top);
      if r >= 1 {
        BlockPages(b, n, r);
      }
    }
  }

  // ---- The four list operations on a database

  function Poke(db: Db, q: nat, b: Bytes): Db {
    db.(pages := db.pages[q := b])
  }

  lemma Apart(db: Db, o: Owners, top: nat)
    requires SpaceOk(db, o, top)
    ensures forall t | t in o.pts :: t in Free(db, o) && t !in o.bts && t !in o.client && 1 <= t <= top
    ensures forall t | t in o.bts :: t !in o.pts && t !in o.client && t !in Free(db, o) && 1 <= t <= top
    ensures forall q | q in o.client :: 1 <= q <= top && q !in o.pts && q !in o.bts
  {
    TrunksOnStack(db.pages, o.pts, db.hdr.pgsz);
    var n, c, f, t, k := PerBlock(db.hdr), o.client, Free(db, o), o.bts, o.used + SetOf(FreeBlocks(db, o));
    forall q: nat | q in t || q in f || q in c
      ensures 1 <= q <= top && Bit(q in t) + Bit(q in f) + Bit(q in c) == 1
    {
      assert Claims(q, n, c, f, t, k) == Bit(1 <= q <= top);
    }
  }

  lemma AddPageEntry(db: Db, o: Owners, top: nat, q: nat)
    requires SpaceOk(db, o, top) && q in o.client && o.pts != []
    requires TrunkOk(db.pages[Head(o.pts)], db.hdr.pgsz) && NFree(db.pages[Head(o.pts)]) < NMax(db.hdr.pgsz)
    ensures 1 <= q <= top < U32
    ensures var db' := Poke(db, Head(o.pts), PutEntry(db.pages[Head(o.pts)], q));
            var o' := o.(client := o.client - {q});
            && SpaceOk(db', o', top)
            && Free(db', o') == Free(db, o) + [q] && FreeBlocks(db', o') == FreeBlocks(db, o)
  {
    hide TrunkOk, NFree, NMax, PutEntry, Chain, Stack, NoDup, LinkOk;
    var n, f, k := PerBlock(db.hdr), Free(db, o), o.used + SetOf(FreeBlocks(db, o));
    Apart(db, o, top);
    MoveToFree(top, n, o.client, f, o.bts, k, q);
    var h := Head(o.pts);
    AddEntry(db.pages, o.pts, db.hdr.pgsz, q, true);
    var pg' := db.pages[h := PutEntry(db.pages[h], q)];
    assert h in o.pts;
    StackFrame(db.pages, pg', o.bts, db.hdr.pgsz, false);
  }

  // A client page becomes the first trunk of the page list.
  lemma AddPageTrunk(db: Db, o: Owners, top: nat, q: nat)
    requires SpaceOk(db, o, top) && q in o.client
    requires o.pts != [] ==> TrunkOk(db.pages[Head(o.pts)], db.hdr.pgsz) && NFree(db.pages[Head(o.pts)]) == NMax(db.hdr.pgsz)
    ensures 1 <= q <= top < U32 && Head(o.pts) < U32 && q != db.hdr.iFreePg
    ensures var db' := Db(db.hdr.(iFreePg := q), db.pages[q := NewTrunk(db.pages[q], Head(o.pts))]);
            var o' := o.(client := o.client - {q}, pts := o.pts + [q]);
            && SpaceOk(db', o', top)
            && Free(db', o') == Free(db, o) + [q] && FreeBlocks(db', o') == FreeBlocks(db, o)
  {
    hide TrunkOk, NFree, NMax, NewTrunk, Chain, Stack, LinkOk;
    var n, f, k := PerBlock(db.hdr), Free(db, o), o.used + SetOf(FreeBlocks(db, o));
    Apart(db, o, top);
    MoveToFree(top, n, o.client, f, o.bts, k, q);
    AddTrunk(db.pages, o.pts, db.hdr.pgsz, q, true);
    var pg' := db.pages[q := NewTrunk(db.pages[q], Head(o.pts))];
    StackFrame(db.pages, pg', o.bts, db.hdr.pgsz, false);
    NoDupAppend(o.pts, q);
  }

  // The last entry of the page list goes to the client.
  lemma TakePageEntry(db: Db, o: Owners, top: nat, q: nat)
    requires SpaceOk(db, o, top) && o.pts != []
    requires TrunkOk(db.pages[Head(o.pts)], db.hdr.pgsz) && NFree(db.pages[Head(o.pts)]) > 0
    requires q == GetU32(db.pages[Head(o.pts)], 8 + 4 * (NFree(db.pages[Head(o.pts)]) - 1))
    ensures var db' := Poke(db, Head(o.pts), DropEntry(db.pages[Head(o.pts)]));
            var o' := o.(client := o.client + {q});
            && SpaceOk(db', o', top) && q !in o.client && 1 <= q <= top
            && Free(db, o) == Free(db', o') + [q] && FreeBlocks(db', o') == FreeBlocks(db, o)
  {
    hide TrunkOk, NMax, DropEntry, Chain, Stack, NoDup, LinkOk;
    var h := Head(o.pts);
    var pg' := db.pages[h := DropEntry(db.pages[h])];
    TakeEntry(db.pages, o.pts, db.hdr.pgsz, true);
    Apart(db, o, top);
    assert h in o.pts;
    StackFrame(db.pages, pg', o.bts, db.hdr.pgsz, false);
    MoveFromFree(top, PerBlock(db.hdr), o.client, Stack(pg', o.pts, db.hdr.pgsz, true), o.bts,
                 o.used + SetOf(FreeBlocks(db, o)), q);
  }

  // The first trunk of the page list, empty, goes to the client.
  lemma TakePageTrunk(db: Db, o: Owners, top: nat)
    requires SpaceOk(db, o, top) && o.pts != []
    requires TrunkOk(db.pages[Head(o.pts)], db.hdr.pgsz) && NFree(db.pages[Head(o.pts)]) == 0
    ensures var q := Head(o.pts);
            var db' := db.(hdr := db.hdr.(iFreePg := Next(db.pages[q])));
            var o' := o.(client := o.client + {q}, pts := o.pts[..|o.pts| - 1]);
            && SpaceOk(db', o', top) && q !in o.client && 1 <= q <= top && Next(db.pages[q]) != q
            && Free(db, o) == Free(db', o') + [q] && FreeBlocks(db', o') == FreeBlocks(db, o)
  {
    hide TrunkOk, NMax, Chain, Stack, LinkOk;
    var q := Head(o.pts);
    HeadOk(db.pages, o.pts, db.hdr.pgsz);
    TakeTrunk(db.pages, o.pts, db.hdr.pgsz, true);
    MoveFromFree(top, PerBlock(db.hdr), o.client, Stack(db.pages, o.pts[..|o.pts| - 1], db.hdr.pgsz, true), o.bts,
                 o.used + SetOf(FreeBlocks(db, o)), q);
  }

  // ---- The same for the block list

  // A used block becomes an entry of the block list.
  lemma AddBlockEntry(db: Db, o: Owners, top: nat, b: nat)
    requires SpaceOk(db, o, top) && b in o.used && o.bts != []
    requires TrunkOk(db.pages[Head(o.bts)], db.hdr.pgsz) && NFree(db.pages[Head(o.bts)]) < NMax(db.hdr.pgsz)
    ensures b < U32
    ensures var db' := Poke(db, Head(o.bts), PutEntry(db.pages[Head(o.bts)], b));
            var o' := o.(used := o.used - {b});
            && SpaceOk(db', o', top)
            && Free(db', o') == Free(db, o) && FreeBlocks(db', o') == FreeBlocks(db, o) + [b]
  {
    hide TrunkOk, NFree, NMax, PutEntry, Chain, Stack, LinkOk, Partition;
    Apart(db, o, top);
    var h := Head(o.bts);
    AddEntry(db.pages, o.bts, db.hdr.pgsz, b, false);
    var pg' := db.pages[h := PutEntry(db.pages[h], b)];
    assert h in o.bts;
    StackFrame(db.pages, pg', o.pts, db.hdr.pgsz, true);
    NoDupAppend(FreeBlocks(db, o), b);
    assert o.used + SetOf(FreeBlocks(db, o)) == (o.used - {b}) + SetOf(FreeBlocks(db, o) + [b]);
  }

  // A client page becomes the first trunk of the block list.
  lemma AddBlockTrunk(db: Db, o: Owners, top: nat, q: nat)
    requires SpaceOk(db, o, top) && q in o.client
    requires o.bts != [] ==> TrunkOk(db.pages[Head(o.bts)], db.hdr.pgsz) && NFree(db.pages[Head(o.bts)]) == NMax(db.hdr.pgsz)
    ensures 1 <= q <= top < U32 && Head(o.bts) < U32 && q != db.hdr.iFreeBlk
    ensures var db' := Db(db.hdr.(iFreeBlk := q), db.pages[q := NewTrunk(db.pages[q], Head(o.bts))]);
            var o' := o.(client := o.client - {q}, bts := o.bts + [q]);
            && SpaceOk(db', o', top)
            && Free(db', o') == Free(db, o) && FreeBlocks(db', o') == FreeBlocks(db, o)
            && TrunkOk(db'.pages[q], db.hdr.pgsz) && NFree(db'.pages[q]) == 0 < NMax(db.hdr.pgsz)
  {
    hide Chain, Stack, LinkOk, NewTrunk;
    var n, f, k := PerBlock(db.hdr), Free(db, o), o.used + SetOf(FreeBlocks(db, o));
    Apart(db, o, top);
    MoveToTrunks(top, n, o.client, f, o.bts, k, q);
    AddTrunk(db.pages, o.bts, db.hdr.pgsz, q, false);
    var pg' := db.pages[q := NewTrunk(db.pages[q], Head(o.bts))];
    assert Stack(pg', o.bts + [q], db.hdr.pgsz, false) == FreeBlocks(db, o);
    StackFrame(db.pages, pg', o.pts, db.hdr.pgsz, true);
    NewTrunkOk(db.pages[q], Head(o.bts));
    assert |Entries(pg'[q])| == NFree(pg'[q]);
  }

  // The last entry of the block list is used again.
  lemma TakeBlockEntry(db: Db, o: Owners, top: nat, b: nat)
    requires SpaceOk(db, o, top) && o.bts != []
    requires TrunkOk(db.pages[Head(o.bts)], db.hdr.pgsz) && NFree(db.pages[Head(o.bts)]) > 0
    requires b == GetU32(db.pages[Head(o.bts)], 8 + 4 * (NFree(db.pages[Head(o.bts)]) - 1))
    ensures var db' := Poke(db, Head(o.bts), DropEntry(db.pages[Head(o.bts)]));
            var o' := o.(used := o.used + {b});
            && SpaceOk(db', o', top) && b !in o.used && b > 0
            && Free(db', o') == Free(db, o) && FreeBlocks(db, o) == FreeBlocks(db', o') + [b]
  {
    hide TrunkOk, NMax, DropEntry, Chain, Stack, LinkOk;
    var h := Head(o.bts);
    var pg' := db.pages[h := DropEntry(db.pages[h])];
    TakeEntry(db.pages, o.bts, db.hdr.pgsz, false);
    Apart(db, o, top);
    assert h in o.bts;
    StackFrame(db.pages, pg', o.pts, db.hdr.pgsz, true);
    var fb := Stack(pg', o.bts, db.hdr.pgsz, false);
    NoDupDrop(fb, b);
    assert b in SetOf(fb + [b]);
    assert o.used + SetOf(fb + [b]) == (o.used + {b}) + SetOf(fb);
  }

  // The first trunk of the block list, empty, goes to the client.
  lemma TakeBlockTrunk(db: Db, o: Owners, top: nat)
    requires SpaceOk(db, o, top) && o.bts != []
    requires TrunkOk(db.pages[Head(o.bts)], db.hdr.pgsz) && NFree(db.pages[Head(o.bts)]) == 0
    ensures var q := Head(o.bts);
            var us := o.bts[..|o.bts| - 1];
            var db' := db.(hdr := db.hdr.(iFreeBlk := Next(db.pages[q])));
            var o' := o.(client := o.client + {q}, bts := us);
            && SpaceOk(db', o', top) && q !in o.client
            && Free(db', o') == Free(db, o) && FreeBlocks(db', o') == FreeBlocks(db, o)
            && (us != [] ==> TrunkOk(db.pages[Head(us)], db.hdr.pgsz) && NFree(db.pages[Head(us)]) > 0)
  {
    hide Chain, Stack, LinkOk;
    var q := Head(o.bts);
    var us := o.bts[..|o.bts| - 1];
    TakeTrunk(db.pages, o.bts, db.hdr.pgsz, false);
    assert o.bts == us + [q];
    assert Stack(db.pages, us, db.hdr.pgsz, false) == FreeBlocks(db, o);
    MoveFromTrunks(top, PerBlock(db.hdr), o.client, Free(db, o), us, o.used + SetOf(FreeBlocks(db, o)), q);
  }

  // ---- Growing the file

  lemma GrowByPage(db: Db, o: Owners, top: nat, e: nat)
    requires SpaceOk(db, o, top) && e == top + 1 < U32
    ensures var o' := o.(client := o.client + {e});
            SpaceOk(db, o', e) && e !in o.client && Free(db, o') == Free(db, o) && FreeBlocks(db, o') == FreeBlocks(db, o)
  {
    hide Chain, Stack;
    MoveFromEnd(top, PerBlock(db.hdr), o.client, Free(db, o), o.bts, o.used + SetOf(FreeBlocks(db, o)), e);
  }

  lemma GrowByBlock(db: Db, o: Owners, b: nat)
    requires b >= 1 && 12 <= db.hdr.pgsz && SpaceOk(db, o, (b - 1) * PerBlock(db.hdr))
    requires b * PerBlock(db.hdr) < U32
    ensures var o' := o.(used := o.used + {b});
            && SpaceOk(db, o', b * PerBlock(db.hdr)) && b !in o.used
            && Free(db, o') == Free(db, o) && FreeBlocks(db, o') == FreeBlocks(db, o)
  {
    hide Chain, Stack;
    var n, k := PerBlock(db.hdr), o.used + SetOf(FreeBlocks(db, o));
    MoveNewBlock(n, o.client, Free(db, o), o.bts, k, b);
    assert k + {b} == (o.used + {b}) + SetOf(FreeBlocks(db, o));
    assert b <= b * n;
  }

  // The page count in the header is not part of the lists.
  lemma SizeOnly(db: Db, o: Owners, top: nat, nPg: nat)
    requires SpaceOk(db, o, top)
    ensures var db' := db.(hdr := db.hdr.(nPg := nPg));
            SpaceOk(db', o, top) && Free(db', o) == Free(db, o) && FreeBlocks(db', o) == FreeBlocks(db, o)
  {
    hide Chain, Stack, Partition;
  }

  // A client may overwrite its own pages and the pages of its blocks.
  lemma ClientWrite(db: Db, o: Owners, top: nat, q: nat, b: Bytes)
    requires SpaceOk(db, o, top) && |b| == db.hdr.pgsz
    requires q in o.client || (q >= 1 && BlockOf(q, PerBlock(db.hdr)) in o.used)
    ensures var db' := Poke(db, q, b);
            SpaceOk(db', o, top) && Free(db', o) == Free(db, o) && FreeBlocks(db', o) == FreeBlocks(db, o)
  {
    hide Chain, Stack, NoDup;
    Apart(db, o, top);
    var k := o.used + SetOf(FreeBlocks(db, o));
    assert Claims(q, PerBlock(db.hdr), o.client, Free(db, o), o.bts, k) == Bit(1 <= q <= top);
    var pg' := db.pages[q := b];
    StackFrame(db.pages, pg', o.pts, db.hdr.pgsz, true);
    StackFrame(db.pages, pg', o.bts, db.hdr.pgsz, false);
  }

  // What a client owns lies inside the file.
  lemma ClientPage(db: Db, o: Owners, top: nat, q: nat)
    requires SpaceOk(db, o, top)
    requires q in o.client || (q >= 1 && BlockOf(q, PerBlock(db.hdr)) in o.used)
    ensures 1 <= q <= top
  {
    var k := o.used + SetOf(FreeBlocks(db, o));
    assert Claims(q, PerBlock(db.hdr), o.client, Free(db, o), o.bts, k) == Bit(1 <= q <= top);
  }

  // Page q is one of the n pages of block b.
  predicate InBlock(q: nat, n: nat, b: nat) {
    b >= 1 && (b - 1) * n < q <= b * n
  }

  // Every page of the file belongs to the client, to the free page list, to the
  // trunks of the block list or to one block, and to no other of them.
  lemma OneOwner(db: Db, o: Owners, top: nat, q: nat)
    requires SpaceOk(db, o, top)
    ensures var blocks := o.used + SetOf(FreeBlocks(db, o));
            var block := exists b :: b in blocks && InBlock(q, PerBlock(db.hdr), b);
            && (1 <= q <= top <==> q in o.client || q in Free(db, o) || q in o.bts || block)
            && !(q in o.client && q in Free(db, o)) && !(q in o.client && q in o.bts) && !(q in Free(db, o) && q in o.bts)
            && (block ==> q !in o.client && q !in Free(db, o) && q !in o.bts)
            && (forall b, c | b in blocks && c in blocks && InBlock(q, PerBlock(db.hdr), b) && InBlock(q, PerBlock(db.hdr), c) :: b == c)
  {
    hide Chain, Stack, NoDup;
    var n, blocks := PerBlock(db.hdr), o.used + SetOf(FreeBlocks(db, o));
    assert Claims(q, n, o.client, Free(db, o), o.bts, blocks) == Bit(1 <= q <= top);
    forall b | b in blocks
      ensures InBlock(q, n, b) <==> q >= 1 && BlockOf(q, n) == b
    {
      if q >= 1 {
        BlockPages(b, n, q);
      }
    }
  }

  // A block has as many pages as fit.
  lemma BlockSize(h: DbHdr)
    requires h.pgsz > 0
    ensures PerBlock(h) * h.pgsz <= h.blksz < (PerBlock(h) + 1) * h.pgsz
  {
    DivBounds(h.blksz, h.pgsz);
    MulNext(PerBlock(h), h.pgsz);
  }

  // What a caller knows of the lists without looking inside.
  lemma Listed(db: Db, o: Owners, top: nat)
    requires SpaceOk(db, o, top)
    ensures ListsOk(db, o) && 12 <= db.hdr.pgsz < U32 && top < U32
    ensures forall q: nat :: q in db.pages && |db.pages[q]| == db.hdr.pgsz
    ensures db.hdr.iFreePg == Head(o.pts) <= top && db.hdr.iFreeBlk == Head(o.bts) <= top
    ensures o.pts == [] <==> db.hdr.iFreePg == 0
    ensures o.bts == [] <==> db.hdr.iFreeBlk == 0
    ensures o.pts != [] ==> TrunkOk(db.pages[Head(o.pts)], db.hdr.pgsz)
    ensures o.bts != [] ==> TrunkOk(db.pages[Head(o.bts)], db.hdr.pgsz)
  {
    Apart(db, o, top);
    assert o.pts != [] ==> Head(o.pts) in o.pts;
    assert o.bts != [] ==> Head(o.bts) in o.bts;
    if o.pts != [] {
      HeadOk(db.pages, o.pts, db.hdr.pgsz);
    }
    if o.bts != [] {
      HeadOk(db.pages, o.bts, db.hdr.pgsz);
    }
  }

  lemma NonEmpty(db: Db, o: Owners, top: nat)
    requires SpaceOk(db, o, top)
    ensures Free(db, o) == [] <==> o.pts == []
    ensures o.bts == [] ==> FreeBlocks(db, o) == []
  {
    if o.pts != [] {
      TrunksOnStack(db.pages, o.pts, db.hdr.pgsz);
      assert o.pts[0] in o.pts;
    }
  }

  // A page list change keeps the rest of the header.
  ghost predicate SameSizes(db: Db, db': Db) {
    db'.hdr == db.hdr.(iFreePg := db'.hdr.iFreePg)
  }

  // The last page of the free list has gone to the client, no more.
  ghost predicate TookPage(db: Db, o: Owners, db': Db, o': Owners, q: nat) {
    && TailSame(db, db', db.hdr.nPg)
    && SameSizes(db, db') && ListsOk(db, o) && SpaceOk(db', o', db.hdr.nPg)
    && 1 <= q <= db.hdr.nPg && q !in o.client
    && o' == o.(pts := o'.pts, client := o.client + {q})
    && Free(db, o) == Free(db', o') + [q]
    && FreeBlocks(db', o') == FreeBlocks(db, o)
  }

  lemma TookNonZero(db: Db, o: Owners, db': Db, o': Owners, q: nat)
    ensures TookPage(db, o, db', o', q) ==> q >= 1
  {
  }

  // A page has been allocated: the last of the free list, or else the one past
  // the end of the file.
  ghost predicate AllocatedPage(db: Db, o: Owners, db': Db, o': Owners, q: nat) {
    && TailSame(db, db', db'.hdr.nPg) && db.hdr.nPg <= db'.hdr.nPg
    && ListsOk(db, o) && SpaceOk(db', o', db'.hdr.nPg)
    && q !in o.client && o' == o.(pts := o'.pts, client := o.client + {q})
    && FreeBlocks(db', o') == FreeBlocks(db, o)
    && (if Free(db, o) == []
        then q == db.hdr.nPg + 1 && Free(db', o') == [] && db' == db.(hdr := db.hdr.(nPg := q))
        else Free(db, o) == Free(db', o') + [q] && SameSizes(db, db'))
  }

  lemma TookSize(db: Db, o: Owners, db': Db, o': Owners, q: nat)
    requires TookPage(db, o, db', o', q)
    ensures 1 <= q <= db.hdr.nPg && db'.hdr.nPg == db.hdr.nPg
    ensures Free(db, o) != [] ==> AllocatedPage(db, o, db', o', q)
  {
  }

  // The first trunk of the block list has room for an entry.
  ghost predicate HasRoom(db: Db) {
    && db.hdr.iFreeBlk != 0 && db.hdr.iFreeBlk in db.pages
    && TrunkOk(db.pages[db.hdr.iFreeBlk], db.hdr.pgsz)
    && NFree(db.pages[db.hdr.iFreeBlk]) < NMax(db.hdr.pgsz)
  }

  // Of the header only the size and the two list heads have changed.
  ghost predicate HdrMoves(db: Db, db': Db) {
    db'.hdr == db.hdr.(iFreePg := db'.hdr.iFreePg, iFreeBlk := db'.hdr.iFreeBlk, nPg := db'.hdr.nPg)
  }

  // A trunk has come from the free pages, or else from the end of the file.
  ghost predicate GotTrunk(db: Db, o: Owners, db': Db, o': Owners) {
    && TailSame(db, db', db'.hdr.nPg) && db.hdr.nPg <= db'.hdr.nPg && HdrMoves(db, db')
    && ListsOk(db, o) && SpaceOk(db', o', db'.hdr.nPg)
    && o'.client == o.client && o'.used == o.used
    && |o'.bts| == |o.bts| + 1 && o'.bts[..|o.bts|] == o.bts
    && FreeBlocks(db', o') == FreeBlocks(db, o)
    && (if Free(db, o) == []
        then Head(o'.bts) == db.hdr.nPg + 1 == db'.hdr.nPg && Free(db', o') == []
        else Free(db, o) == Free(db', o') + [Head(o'.bts)] && db'.hdr.nPg == db.hdr.nPg)
  }

  // Block b has gone to the list, and at most one page has become a trunk.
  ghost predicate FreedBlock(db: Db, o: Owners, db': Db, o': Owners, b: nat) {
    && TailSame(db, db', db'.hdr.nPg) && db.hdr.nPg <= db'.hdr.nPg && HdrMoves(db, db')
    && ListsOk(db, o) && SpaceOk(db', o', db'.hdr.nPg)
    && o'.client == o.client && o'.used == o.used - {b}
    && FreeBlocks(db', o') == FreeBlocks(db, o) + [b]
    && (if o'.bts == o.bts then Free(db', o') == Free(db, o) && db'.hdr == db.hdr
        else
          && |o'.bts| == |o.bts| + 1 && o'.bts[..|o.bts|] == o.bts
          && (if Free(db, o) == []
              then Head(o'.bts) == db.hdr.nPg + 1 == db'.hdr.nPg && Free(db', o') == []
              else Free(db, o) == Free(db', o') + [Head(o'.bts)] && db'.hdr.nPg == db.hdr.nPg))
  }

  lemma FreedEntry(db: Db, o: Owners, b: nat)
    requires SpaceOk(db, o, db.hdr.nPg) && b in o.used && o.bts != [] && b < U32
    requires TrunkOk(db.pages[Head(o.bts)], db.hdr.pgsz) && NFree(db.pages[Head(o.bts)]) < NMax(db.hdr.pgsz)
    ensures FreedBlock(db, o, Poke(db, Head(o.bts), PutEntry(db.pages[Head(o.bts)], b)), o.(used := o.used - {b}), b)
  {
    hide TrunkOk, NFree, NMax, PutEntry, Chain, Stack, LinkOk, Partition;
    AddBlockEntry(db, o, db.hdr.nPg, b);
    Listed(db, o, db.hdr.nPg);
  }

  // Taking a page does not touch the block list, so its first trunk is as full
  // as before.
  lemma StillFull(db: Db, o: Owners, db': Db, o': Owners, q: nat)
    requires AllocatedPage(db, o, db', o', q) && !HasRoom(db) && SpaceOk(db, o, db.hdr.nPg)
    ensures db'.hdr.iFreeBlk == Head(o'.bts) && SpaceOk(db', o', db'.hdr.nPg)
    ensures q in o'.client && o'.client - {q} == o.client && o'.bts == o.bts && o'.used == o.used
    ensures o'.bts != [] ==>
              TrunkOk(db'.pages[Head(o'.bts)], db'.hdr.pgsz) && NFree(db'.pages[Head(o'.bts)]) == NMax(db'.hdr.pgsz)
  {
    hide Chain, Stack, Partition, TrunkOk, NFree, NMax, NoDup;
    Listed(db, o, db.hdr.nPg);
    Listed(db', o', db'.hdr.nPg);
    if o.bts != [] {
      StackSize(db.pages, o.bts, db.hdr.pgsz);
      StackSize(db'.pages, o.bts, db.hdr.pgsz);
      TrunkRoom(db.pages[Head(o.bts)], db.hdr.pgsz);
    }
  }

  lemma TrunkRoom(b: Bytes, pgsz: nat)
    requires TrunkOk(b, pgsz)
    ensures |b| >= 12 && NFree(b) <= NMax(pgsz)
  {
  }

  lemma GotTrunkFrom(db: Db, o: Owners, db1: Db, o1: Owners, q: nat, db2: Db, o2: Owners)
    requires AllocatedPage(db, o, db1, o1, q) && !HasRoom(db) && SpaceOk(db, o, db.hdr.nPg)
    requires TailSame(db1, db2, db1.hdr.nPg)
    requires SpaceOk(db2, o2, db1.hdr.nPg) && db2.hdr == db1.hdr.(iFreeBlk := q)
    requires o2 == o1.(client := o1.client - {q}, bts := o1.bts + [q])
    requires Free(db2, o2) == Free(db1, o1) && FreeBlocks(db2, o2) == FreeBlocks(db1, o1)
    ensures GotTrunk(db, o, db2, o2)
  {
    hide ListsOk, Chain, Stack, Partition, NoDup;
  }

  lemma FreedAfterTrunk(db: Db, o: Owners, db1: Db, o1: Owners, db2: Db, o2: Owners, b: nat)
    requires GotTrunk(db, o, db1, o1) && FreedBlock(db1, o1, db2, o2, b) && o2.bts == o1.bts
    ensures FreedBlock(db, o, db2, o2, b)
  {
    hide ListsOk, Chain, Stack, Partition, NoDup;
  }

  lemma GotUsed(db: Db, o: Owners, db': Db, o': Owners)
    requires GotTrunk(db, o, db', o')
    ensures SpaceOk(db', o', db'.hdr.nPg) && o'.used == o.used
  {
  }

  // Entries left on the first trunk of the block list.
  ghost function HeadCount(db: Db): nat {
    if db.hdr.iFreeBlk in db.pages && TrunkOk(db.pages[db.hdr.iFreeBlk], db.hdr.pgsz)
    then NFree(db.pages[db.hdr.iFreeBlk]) else 0
  }

  // The last free block is used again. At most one empty trunk has become a
  // free page.
  ghost predicate TookBlock(db: Db, o: Owners, db': Db, o': Owners, b: nat) {
    && TailSame(db, db', db.hdr.nPg)
    && ListsOk(db, o) && SpaceOk(db', o', db.hdr.nPg) && SizesKept(db, db')
    && b > 0 && b !in o.used && o'.client == o.client && o'.used == o.used + {b}
    && FreeBlocks(db, o) == FreeBlocks(db', o') + [b]
    && (Free(db', o') == Free(db, o) || (o.bts != [] && Free(db', o') == Free(db, o) + [Head(o.bts)]))
  }

  // There was no free block; a last empty trunk has become a free page.
  ghost predicate NoBlock(db: Db, o: Owners, db': Db, o': Owners) {
    && TailSame(db, db', db.hdr.nPg)
    && ListsOk(db, o) && SpaceOk(db', o', db.hdr.nPg) && SizesKept(db, db')
    && o'.client == o.client && o'.used == o.used && o'.bts == [] && FreeBlocks(db', o') == []
    && |o.bts| <= 1 && Free(db', o') == Free(db, o) + o.bts
  }

  ghost predicate SizesKept(db: Db, db': Db) {
    db'.hdr == db.hdr.(iFreePg := db'.hdr.iFreePg, iFreeBlk := db'.hdr.iFreeBlk)
  }

  ghost predicate DroppedTrunk(db: Db, o: Owners, db': Db, o': Owners) {
    && TailSame(db, db', db.hdr.nPg)
    && o.bts != [] && ListsOk(db, o) && SpaceOk(db', o', db.hdr.nPg) && SizesKept(db, db')
    && o'.client == o.client && o'.used == o.used && o'.bts == o.bts[..|o.bts| - 1]
    && Free(db', o') == Free(db, o) + [Head(o.bts)]
    && FreeBlocks(db', o') == FreeBlocks(db, o)
  }

  lemma DroppedFrom(db: Db, o: Owners, db1: Db, o1: Owners, db': Db, o': Owners, q: nat)
    requires SpaceOk(db, o, db.hdr.nPg) && o.bts != [] && q == Head(o.bts) && q !in o.client
    requires ListsOk(db1, o1) && db1.hdr == db.hdr.(iFreeBlk := db1.hdr.iFreeBlk)
    requires o1 == o.(client := o.client + {q}, bts := o.bts[..|o.bts| - 1])
    requires Free(db1, o1) == Free(db, o) && FreeBlocks(db1, o1) == FreeBlocks(db, o)
    requires SpaceOk(db', o', db.hdr.nPg) && SizesKept(db1, db') && TailSame(db, db', db.hdr.nPg)
    requires o' == o1.(pts := o'.pts, client := o1.client - {q})
    requires Free(db', o') == Free(db1, o1) + [q] && FreeBlocks(db', o') == FreeBlocks(db1, o1)
    ensures DroppedTrunk(db, o, db', o')
  {
    hide ListsOk, Chain, Stack, Partition, NoDup;
    Listed(db, o, db.hdr.nPg);
  }

  // ---- The search of TakeBlock while it has found nothing

  ghost predicate SearchOk(db: Db, o: Owners, db1: Db, o1: Owners) {
    && TailSame(db, db1, db.hdr.nPg)
    && ListsOk(db, o) && SpaceOk(db1, o1, db.hdr.nPg) && SizesKept(db, db1)
    && o1.client == o.client && o1.used == o.used && FreeBlocks(db1, o1) == FreeBlocks(db, o)
    && ((o1 == o && db1 == db)
        || (o.bts != [] && o1.bts == o.bts[..|o.bts| - 1]
            && Free(db1, o1) == Free(db, o) + [Head(o.bts)]
            && (o1.bts != [] ==> HeadCount(db1) > 0)))
  }

  lemma SearchStart(db: Db, o: Owners)
    requires SpaceOk(db, o, db.hdr.nPg)
    ensures SearchOk(db, o, db, o)
  {
  }

  lemma SearchHead(db: Db, o: Owners, db1: Db, o1: Owners)
    requires SearchOk(db, o, db1, o1)
    ensures SpaceOk(db1, o1, db1.hdr.nPg)
    ensures db1.hdr.iFreeBlk != 0 ==>
              && db1.hdr.iFreeBlk in db1.pages && |db1.pages[db1.hdr.iFreeBlk]| >= 12
              && NFree(db1.pages[db1.hdr.iFreeBlk]) == HeadCount(db1)
  {
    hide Chain, Stack, Partition, NoDup;
    Listed(db1, o1, db1.hdr.nPg);
  }

  lemma SearchTook(db: Db, o: Owners, db1: Db, o1: Owners, db': Db, o': Owners, b: nat)
    requires SearchOk(db, o, db1, o1) && TookBlock(db1, o1, db', o', b) && Free(db', o') == Free(db1, o1)
    ensures TookBlock(db, o, db', o', b) && FreeBlocks(db, o) != [] && b > 0
  {
    hide ListsOk, Chain, Stack, Partition, NoDup;
  }

  // A dropped trunk is the last, or the one behind it has entries.
  lemma SearchDropped(db: Db, o: Owners, db1: Db, o1: Owners, db': Db, o': Owners)
    requires SearchOk(db, o, db1, o1) && DroppedTrunk(db1, o1, db', o') && HeadCount(db1) == 0
    ensures SearchOk(db, o, db', o') && |o'.bts| < |o1.bts|
  {
    hide Chain, Stack, Partition, NoDup, TrunkOk, NMax;
    Listed(db1, o1, db1.hdr.nPg);
    StackSize(db1.pages, o1.bts, db.hdr.pgsz);
    if o'.bts != [] {
      Listed(db', o', db.hdr.nPg);
      StackSize(db'.pages, o'.bts, db.hdr.pgsz);
      NMaxPositive(db.hdr.pgsz);
      OneLess(|o'.bts|, NMax(db.hdr.pgsz), NFree(db'.pages[Head(o'.bts)]));
    }
  }

  lemma NMaxPositive(pgsz: nat)
    requires pgsz >= 12
    ensures NMax(pgsz) >= 1
  {
  }

  lemma SearchEnd(db: Db, o: Owners, db1: Db, o1: Owners)
    requires SearchOk(db, o, db1, o1) && db1.hdr.iFreeBlk == 0
    ensures NoBlock(db, o, db1, o1) && FreeBlocks(db, o) == []
  {
    hide Chain, Stack, Partition, NoDup;
    Listed(db1, o1, db1.hdr.nPg);
    NonEmpty(db1, o1, db1.hdr.nPg);
  }

  // Pages from to to - 1.
  function Gap(from: nat, to: nat): (r: seq<nat>)
    ensures |r| == if from < to then to - from else 0
    ensures forall i | 0 <= i < |r| :: r[i] == from + i
  {
    seq(if from < to then to - from else 0, i requires 0 <= i => from + i)
  }

  // A block has been allocated. A free block comes off the list; otherwise a
  // block is carved from the end of the file: it starts past the old end, and
  // the pages in between, fewer than a block holds, are free pages now.
  ghost predicate AllocatedBlock(db: Db, o: Owners, db': Db, o': Owners, b: nat) {
    && TailSame(db, db', db'.hdr.nPg) && db.hdr.nPg <= db'.hdr.nPg
    && ListsOk(db, o) && SpaceOk(db', o', db'.hdr.nPg)
    && b > 0 && b !in o.used && o'.client == o.client && o'.used == o.used + {b}
    && (var n := PerBlock(db.hdr);
        if FreeBlocks(db, o) != [] then TookBlock(db, o, db', o', b)
        else
          && FreeBlocks(db', o') == [] && o'.bts == []
          && db'.hdr == db.hdr.(iFreePg := db'.hdr.iFreePg, iFreeBlk := db'.hdr.iFreeBlk, nPg := b * n)
          && db.hdr.nPg <= (b - 1) * n < db.hdr.nPg + n
          && Free(db', o') == Free(db, o) + o.bts + Gap(db.hdr.nPg + 1, (b - 1) * n + 1))
  }

  // The loop that frees the gap before a new block.
  ghost predicate Filling(db: Db, o: Owners, db1: Db, o1: Owners, next: nat) {
    && next > 0 && TailSame(db, db1, next - 1)
    && ListsOk(db, o) && db1.hdr.nPg == db.hdr.nPg < next
    && SpaceOk(db1, o1, next - 1) && SameSizes(db, db1)
    && o1 == o.(pts := o1.pts) && FreeBlocks(db1, o1) == FreeBlocks(db, o)
    && Free(db1, o1) == Free(db, o) + Gap(db.hdr.nPg + 1, next)
  }

  lemma FillStart(db: Db, o: Owners)
    requires SpaceOk(db, o, db.hdr.nPg)
    ensures Filling(db, o, db, o, db.hdr.nPg + 1)
  {
    assert Free(db, o) + Gap(db.hdr.nPg + 1, db.hdr.nPg + 1) == Free(db, o);
  }

  lemma FillClient(db: Db, o: Owners, db1: Db, o1: Owners, next: nat)
    requires Filling(db, o, db1, o1, next) && next < U32
    ensures var o2 := o1.(client := o1.client + {next});
            && SpaceOk(db1, o2, next) && next !in o1.client
            && Free(db1, o2) == Free(db1, o1) && FreeBlocks(db1, o2) == FreeBlocks(db1, o1)
  {
    hide ListsOk, Partition;
    GrowByPage(db1, o1, next - 1, next);
  }

  lemma FillStep(db: Db, o: Owners, db1: Db, o1: Owners, db2: Db, o2: Owners, next: nat)
    requires Filling(db, o, db1, o1, next) && next !in o1.client
    requires SpaceOk(db2, o2, next) && SameSizes(db1, db2) && TailSame(db1, db2, next)
    requires o2 == o1.(pts := o2.pts, client := o1.client + {next} - {next})
    requires Free(db2, o2) == Free(db1, o1) + [next] && FreeBlocks(db2, o2) == FreeBlocks(db1, o1)
    ensures Filling(db, o, db2, o2, next + 1)
  {
    hide ListsOk, Chain, Stack, Partition, NoDup;
    assert Gap(db.hdr.nPg + 1, next) + [next] == Gap(db.hdr.nPg + 1, next + 1);
    assert o1.client + {next} - {next} == o1.client;
  }

  lemma FillEnd(db0: Db, o0: Owners, db: Db, o: Owners, db1: Db, o1: Owners, b: nat, root: nat)
    requires FreeBlocksEmpty(db0, o0) && NoBlock(db0, o0, db, o)
    requires Filling(db, o, db1, o1, root) && b >= 1 && root == (b - 1) * PerBlock(db.hdr) + 1
    requires db.hdr.nPg < root <= db.hdr.nPg + PerBlock(db.hdr) && b * PerBlock(db.hdr) < U32
    ensures AllocatedBlock(db0, o0, db1.(hdr := db1.hdr.(nPg := b * PerBlock(db.hdr))),
                           o1.(used := o1.used + {b}), b)
  {
    hide Chain, Stack, Partition, NoDup;
    var n := PerBlock(db.hdr);
    assert PerBlock(db1.hdr) == n;
    GrowByBlock(db1, o1, b);
    SizeOnly(db1, o1.(used := o1.used + {b}), b * n, b * n);
  }

  ghost predicate FreeBlocksEmpty(db: Db, o: Owners) {
    ListsOk(db, o) && FreeBlocks(db, o) == []
  }

  lemma TookIsAllocated(db: Db, o: Owners, db': Db, o': Owners, b: nat)
    ensures TookBlock(db, o, db', o', b) ==> AllocatedBlock(db, o, db', o', b) && b > 0
  {
    hide ListsOk, SpaceOk, Stack;
  }

  lemma NoBlockKnown(db: Db, o: Owners, db': Db, o': Owners)
    requires ListsOk(db, o)
    ensures NoBlock(db, o, db', o') ==>
              && SpaceOk(db', o', db'.hdr.nPg) && db'.hdr.nPg == db.hdr.nPg
              && db'.hdr.pgsz == db.hdr.pgsz && db'.hdr.blksz == db.hdr.blksz && PerBlock(db'.hdr) >= 1
    ensures FreeBlocks(db, o) == [] ==> FreeBlocksEmpty(db, o)
  {
    hide SpaceOk, Stack, Chain;
  }

  lemma FillKnown(db: Db, o: Owners, db1: Db, o1: Owners, next: nat)
    requires Filling(db, o, db1, o1, next)
    ensures SameSizes(db, db1)
  {
  }

  lemma BlockKnown(db: Db, o: Owners, db': Db, o': Owners, b: nat)
    requires AllocatedBlock(db, o, db', o', b)
    ensures SpaceOk(db', o', db'.hdr.nPg) && b !in o.used && o'.client == o.client && o'.used == o.used + {b}
    ensures db'.hdr.pgsz == db.hdr.pgsz && db'.hdr.blksz == db.hdr.blksz
    ensures db.hdr.nPg <= db'.hdr.nPg <= db.hdr.nPg + 2 * PerBlock(db.hdr)
    ensures TailSame(db, db', db'.hdr.nPg)
  {
    hide SpaceOk, Stack, Chain;
    var n := PerBlock(db.hdr);
    assert b * n == (b - 1) * n + n;
  }

  // ---- Last in, first out

  // What was given back last is handed out first, and the lists and owners are
  // as before.
  lemma PageComesBack(db: Db, o: Owners, db1: Db, o1: Owners, db2: Db, o2: Owners, q: nat, q': nat)
    requires ListsOk(db, o) && ListsOk(db1, o1) && q in o.client
    requires o1 == o.(pts := o1.pts, client := o.client - {q})
    requires Free(db1, o1) == Free(db, o) + [q] && FreeBlocks(db1, o1) == FreeBlocks(db, o)
    requires AllocatedPage(db1, o1, db2, o2, q')
    ensures q' == q && o2.client == o.client && o2.used == o.used && o2.bts == o.bts
    ensures ListsOk(db2, o2) && Free(db2, o2) == Free(db, o) && FreeBlocks(db2, o2) == FreeBlocks(db, o)
  {
    hide ListsOk, Free, FreeBlocks, Partition, TailSame;
    LastIs(Free(db, o), q, Free(db2, o2), q');
    assert o.client - {q} + {q} == o.client;
  }

  lemma BlockComesBack(db: Db, o: Owners, db1: Db, o1: Owners, db2: Db, o2: Owners, b: nat, b': nat)
    requires ListsOk(db, o) && b in o.used
    requires FreedBlock(db, o, db1, o1, b) && AllocatedBlock(db1, o1, db2, o2, b')
    ensures b' == b && o2.client == o.client && o2.used == o.used
    ensures ListsOk(db2, o2) && FreeBlocks(db2, o2) == FreeBlocks(db, o)
  {
    hide ListsOk, Free, FreeBlocks, Partition, TailSame;
    LastIs(FreeBlocks(db, o), b, FreeBlocks(db2, o2), b');
    assert o.used - {b} + {b} == o.used;
  }

  lemma LastIs(s: seq<nat>, x: nat, t: seq<nat>, y: nat)
    ensures s + [x] == t + [y] <==> s == t && x == y
    ensures s + [x] != []
  {
    if s + [x] == t + [y] {
      assert (s + [x])[|s|] == (t + [y])[|t|];
      assert s == (s + [x])[..|s|] == (t + [y])[..|t|] == t;
    }
  }

  // ---- Where it starts

  // A file without free lists: every page is the client's.
  lemma NoFreeLists(db: Db, client: set<nat>)
    requires 12 <= db.hdr.pgsz < U32 && PerBlock(db.hdr) >= 1 && db.hdr.nPg < U32
    requires forall q: nat :: q in db.pages && |db.pages[q]| == db.hdr.pgsz
    requires db.hdr.iFreePg == 0 && db.hdr.iFreeBlk == 0
    requires forall q: nat :: q in client <==> 1 <= q <= db.hdr.nPg
    ensures SpaceOk(db, Owners([], [], client, {}), db.hdr.nPg)
  {
    var o := Owners([], [], client, {});
    assert ListsOk(db, o);
    assert Free(db, o) == [] && FreeBlocks(db, o) == [];
    assert o.used + SetOf(FreeBlocks(db, o)) == {};
  }

  lemma PageKnown(db: Db, o: Owners, db': Db, o': Owners, q: nat)
    requires AllocatedPage(db, o, db', o', q)
    ensures SpaceOk(db', o', db'.hdr.nPg) && q !in o.client
    ensures TailSame(db, db', db'.hdr.nPg) && db.hdr.nPg <= db'.hdr.nPg
    ensures o'.client == o.client + {q} && o'.used == o.used
  {
  }

  lemma FreedKnown(db: Db, o: Owners, db': Db, o': Owners, b: nat)
    requires FreedBlock(db, o, db', o', b)
    ensures SpaceOk(db', o', db'.hdr.nPg) && o'.client == o.client && o'.used == o.used - {b}
    ensures TailSame(db, db', db'.hdr.nPg) && db.hdr.nPg <= db'.hdr.nPg
  {
  }
}

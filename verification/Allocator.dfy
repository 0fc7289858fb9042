// Page and block allocation of bt_pager.c, run against the pager itself, so
// that the free lists are part of what a savepoint restores.

module Allocator {
  import opened Basics
  import opened Division
  import opened PageTypes
  import opened FreeListPages
  import opened SnapshotStack
  import opened Space
  import opened PagerState
  import opened PagerAbs
  import opened Pager

  // A write transaction is open.
  ghost predicate Writing(p: BtPager)
    reads p
  {
    p.Valid() && p.iTransactionLevel >= 2
  }

  // Read page q and give the reference back.
  method Peek(p: BtPager, q: nat) returns (data: Bytes)
    requires Writing(p)
    modifies p
    ensures Writing(p) && p.Abs() == old(p.Abs()) && p.refs == old(p.refs)
    ensures q in p.Abs().cur.pages && data == p.Abs().cur.pages[q]
  {
    hide Inv, SameViews, Saved, StoreDb;
    ghost var s := p.State();
    p.PageGet(q);
    ghost var s1 := p.State();
    data := p.cache[q].aData;
    p.PageRelease(q);
    SameViewsTrans(s, s1, p.State());
    ViewsAbs(s, p.State(), p.iTransactionLevel, p.bDirtyHdr);
    assert data == CurDb(s).pages[q];
  }

  // The database with another head of the block list: while a block trunk is
  // on its way to the page list, the header still names it.
  ghost function WithBlk(db: Db, fb: nat): Db {
    db.(hdr := db.hdr.(iFreeBlk := fb))
  }

  // btFreelistAdd with bBlock == 0: give a page to the free list.
  method FreePage(p: BtPager, pgno: nat, ghost o: Owners, ghost top: nat, ghost fb: nat) returns (ghost o': Owners)
    requires Writing(p) && SpaceOk(WithBlk(p.Abs().cur, fb), o, top) && pgno in o.client
    modifies p
    ensures FlaggedOnly(old(p.Abs()), p.Abs())
    ensures Writing(p) && SameOuter(old(p.Abs()), p.Abs()) && p.refs == old(p.refs)
    ensures SameSizes(old(p.Abs().cur), p.Abs().cur)
    ensures SpaceOk(WithBlk(p.Abs().cur, fb), o', top)
    ensures o' == o.(pts := o'.pts, client := o.client - {pgno})
    ensures Free(WithBlk(p.Abs().cur, fb), o') == Free(WithBlk(old(p.Abs().cur), fb), o) + [pgno]
    ensures FreeBlocks(WithBlk(p.Abs().cur, fb), o') == FreeBlocks(WithBlk(old(p.Abs().cur), fb), o)
    ensures TailSame(old(p.Abs().cur), p.Abs().cur, top)
  {
    hide Inv, Content, Saved, StoreDb, SpaceOk, Free, FreeBlocks, GetU32, PutU32, ListsOk;
    ghost var db := p.Abs().cur;
    Listed(WithBlk(db, fb), o, top);
    var bDone := false;
    var iFirst := p.hdr.iFreePg;
    if iFirst != 0 {
      var aData := Peek(p, iFirst);
      var nMax := (p.hdr.pgsz - 8) / 4;
      var nFree := GetU32(aData, 0);
      if nFree < nMax {
        AddPageEntry(WithBlk(db, fb), o, top, pgno);
        aData := PutU32(aData, 8 + nFree * 4, pgno);
        aData := PutU32(aData, 0, nFree + 1);
        p.Write(iFirst, aData);
        bDone := true;
        o' := o.(client := o.client - {pgno});
        assert WithBlk(p.Abs().cur, fb) == Poke(WithBlk(db, fb), iFirst, aData);
      }
    }
    if !bDone {
      AddPageTrunk(WithBlk(db, fb), o, top, pgno);
      var aData := Peek(p, pgno);
      aData := PutU32(aData, 0, 0);
      aData := PutU32(aData, 4, iFirst);
      p.Write(pgno, aData);
      p.SetHdr(p.hdr.(iFreePg := pgno), true);
      o' := o.(client := o.client - {pgno}, pts := o.pts + [pgno]);
      assert WithBlk(p.Abs().cur, fb).pages == WithBlk(db, fb).pages[pgno := aData];
    }
  }

  // sqlite4BtPageTrimPgno: a client returns a page.
  method TrimPage(p: BtPager, pgno: nat, ghost o: Owners) returns (ghost o': Owners)
    requires Writing(p) && SpaceOk(p.Abs().cur, o, p.Abs().cur.hdr.nPg) && pgno in o.client
    modifies p
    ensures FlaggedOnly(old(p.Abs()), p.Abs())
    ensures Writing(p) && SameOuter(old(p.Abs()), p.Abs()) && p.refs == old(p.refs)
    ensures SameSizes(old(p.Abs().cur), p.Abs().cur)
    ensures SpaceOk(p.Abs().cur, o', p.Abs().cur.hdr.nPg)
    ensures o' == o.(pts := o'.pts, client := o.client - {pgno})
    ensures Free(p.Abs().cur, o') == Free(old(p.Abs().cur), o) + [pgno]
    ensures FreeBlocks(p.Abs().cur, o') == FreeBlocks(old(p.Abs().cur), o)
    ensures TailSame(old(p.Abs().cur), p.Abs().cur, p.Abs().cur.hdr.nPg)
  {
    hide Inv, CurDb, Saved, StoreDb, SpaceOk, Free, FreeBlocks;
    ghost var db := p.Abs().cur;
    assert WithBlk(db, db.hdr.iFreeBlk) == db;
    o' := FreePage(p, pgno, o, db.hdr.nPg, db.hdr.iFreeBlk);
    assert WithBlk(p.Abs().cur, db.hdr.iFreeBlk) == p.Abs().cur;
  }

  // One round of btFreelistAlloc with bBlock == 0: the last entry of the first
  // trunk, or the trunk itself.
  method TakeFromTrunk(p: BtPager, ghost o: Owners) returns (pgno: nat, ghost o': Owners)
    requires Writing(p) && SpaceOk(p.Abs().cur, o, p.Abs().cur.hdr.nPg) && p.hdr.iFreePg != 0
    modifies p
    ensures FlaggedOnly(old(p.Abs()), p.Abs())
    ensures Writing(p) && SameOuter(old(p.Abs()), p.Abs()) && p.refs == old(p.refs)
    ensures TookPage(old(p.Abs().cur), o, p.Abs().cur, o', pgno)
  {
    hide Inv, Content, Saved, StoreDb, SpaceOk, Free, FreeBlocks, GetU32, PutU32, ListsOk;
    ghost var db := p.Abs().cur;
    ghost var top := db.hdr.nPg;
    Listed(db, o, top);
    var iTrunk := p.hdr.iFreePg;
    var aData := Peek(p, iTrunk);
    var nFree := GetU32(aData, 0);
    if nFree > 0 {
      pgno := GetU32(aData, 8 + 4 * (nFree - 1));
      TakePageEntry(db, o, top, pgno);
      aData := PutU32(aData, 0, nFree - 1);
      p.Write(iTrunk, aData);
      o' := o.(client := o.client + {pgno});
      assert p.Abs().cur == Poke(db, iTrunk, aData);
    } else {
      TakePageTrunk(db, o, top);
      pgno := iTrunk;
      var iNext := GetU32(aData, 4);
      p.Write(iTrunk, aData);
      p.SetHdr(p.hdr.(iFreePg := iNext), true);
      o' := o.(client := o.client + {pgno}, pts := o.pts[..|o.pts| - 1]);
      assert p.Abs().cur.pages == db.pages;
    }
  }

  // btFreelistAlloc with bBlock == 0: 0 if the list is empty, else its last page.
  method TakePage(p: BtPager, ghost o: Owners) returns (pgno: nat, ghost o': Owners)
    requires Writing(p) && SpaceOk(p.Abs().cur, o, p.Abs().cur.hdr.nPg)
    modifies p
    ensures FlaggedOnly(old(p.Abs()), p.Abs())
    ensures Writing(p) && SameOuter(old(p.Abs()), p.Abs()) && p.refs == old(p.refs)
    ensures if Free(old(p.Abs().cur), o) == []
            then pgno == 0 && o' == o && p.Abs() == old(p.Abs())
            else TookPage(old(p.Abs().cur), o, p.Abs().cur, o', pgno)
  {
    hide Inv, Content, Saved, StoreDb, SpaceOk, Free, FreeBlocks, TookPage;
    ghost var db := p.Abs().cur;
    Listed(db, o, db.hdr.nPg);
    NonEmpty(db, o, db.hdr.nPg);
    pgno, o' := 0, o;
    while p.hdr.iFreePg != 0 && pgno == 0
      invariant Writing(p) && SameOuter(old(p.Abs()), p.Abs()) && p.refs == old(p.refs)
      invariant FlaggedOnly(old(p.Abs()), p.Abs())
      invariant pgno == 0 ==> o' == o && p.Abs() == old(p.Abs())
      invariant pgno != 0 ==> o.pts != [] && TookPage(db, o, p.Abs().cur, o', pgno)
      decreases pgno == 0
    {
      pgno, o' := TakeFromTrunk(p, o);
      TookNonZero(db, o, p.Abs().cur, o', pgno);
    }
  }

  // sqlite4BtPageAllocate: a page of the free list, or one past the end of the
  // file. The caller holds a writable reference to it.
  method PageAllocate(p: BtPager, ghost o: Owners) returns (pgno: nat, ghost o': Owners)
    requires Writing(p) && SpaceOk(p.Abs().cur, o, p.Abs().cur.hdr.nPg) && p.hdr.nPg + 1 < U32
    modifies p
    ensures FlaggedOnly(old(p.Abs()), p.Abs())
    ensures Writing(p) && SameOuter(old(p.Abs()), p.Abs())
    ensures p.refs == old(p.refs) + multiset{pgno} && PagerState.Writable(p.State(), pgno)
    ensures AllocatedPage(old(p.Abs().cur), o, p.Abs().cur, o', pgno)
  {
    hide Inv, Content, Saved, StoreDb, SpaceOk, Free, FreeBlocks, ListsOk, TookPage, SameSizes;
    ghost var db := p.Abs().cur;
    assert db.hdr == p.hdr;
    Listed(db, o, db.hdr.nPg);
    pgno, o' := TakePage(p, o);
    assert p.Abs().cur.hdr == p.hdr;
    TookNonZero(db, o, p.Abs().cur, o', pgno);
    if pgno == 0 {
      pgno := p.hdr.nPg + 1;
      GrowByPage(db, o, db.hdr.nPg, pgno);
      o' := o.(client := o.client + {pgno});
      SizeOnly(db, o', pgno, pgno);
    } else {
      TookSize(db, o, p.Abs().cur, o', pgno);
    }
    Acquire(p, pgno);
    if pgno > p.hdr.nPg {
      p.SetHdr(p.hdr.(nPg := pgno), false);
    }
  }

  // PageGet and PageWrite: a writable reference, nothing else changed.
  method Acquire(p: BtPager, pgno: nat)
    requires Writing(p)
    modifies p
    ensures FlaggedOnly(old(p.Abs()), p.Abs())
    ensures Writing(p) && SameOuter(old(p.Abs()), p.Abs()) && p.Abs().cur == old(p.Abs().cur)
    ensures p.hdr == old(p.hdr)
    ensures p.refs == old(p.refs) + multiset{pgno} && PagerState.Writable(p.State(), pgno)
  {
    hide Inv, SameViews, SameContent, Kept, Saved, StoreDb, OnlyMarked;
    ghost var s := p.State();
    p.PageGet(pgno);
    ghost var s1 := p.State();
    ViewsAbs(s, s1, p.iTransactionLevel, p.bDirtyHdr);
    p.PageWrite(pgno);
    MarkedPage(s1, p.State(), pgno);
    MarkedAbs(s1, p.State());
  }

  // PageRelease of a page the caller holds.
  method Release(p: BtPager, pgno: nat)
    requires Writing(p) && p.refs[pgno] > 0
    modifies p
    ensures Writing(p) && p.Abs() == old(p.Abs()) && p.refs == old(p.refs) - multiset{pgno}
  {
    hide Inv, SameViews, Saved, StoreDb, CurDb;
    ghost var s := p.State();
    RefsHeld(s, pgno);
    p.PageRelease(pgno);
    ViewsAbs(s, p.State(), p.iTransactionLevel, p.bDirtyHdr);
  }

  // btFreelistAdd with bBlock == 1: give a block to the free list. A full list
  // first gets a new trunk page, and the second attempt then finds room: this
  // is why a page must hold at least one entry (12 bytes).
  method FreeBlock(p: BtPager, iBlk: nat, ghost o: Owners) returns (ghost o': Owners)
    requires Writing(p) && SpaceOk(p.Abs().cur, o, p.Abs().cur.hdr.nPg) && iBlk in o.used
    requires HasRoom(p.Abs().cur) || p.hdr.nPg + 1 < U32
    modifies p
    ensures Writing(p) && SameOuter(old(p.Abs()), p.Abs()) && p.refs == old(p.refs)
    ensures FreedBlock(old(p.Abs().cur), o, p.Abs().cur, o', iBlk)
    ensures old(HasRoom(p.Abs().cur)) ==> o'.bts == o.bts
    decreases if HasRoom(p.Abs().cur) then 0 else 1
  {
    hide Inv, Content, Saved, StoreDb, SpaceOk, Free, FreeBlocks, GetU32, PutU32, ListsOk, FreedBlock, GotTrunk;
    ghost var db := p.Abs().cur;
    assert db.hdr == p.hdr;
    Listed(db, o, db.hdr.nPg);
    var iFirst := p.hdr.iFreeBlk;
    if iFirst != 0 {
      var aData := Peek(p, iFirst);
      var nMax := (p.hdr.pgsz - 8) / 4;
      var nFree := GetU32(aData, 0);
      if nFree < nMax {
        AddBlockEntry(db, o, db.hdr.nPg, iBlk);
        aData := PutU32(aData, 8 + nFree * 4, iBlk);
        aData := PutU32(aData, 0, nFree + 1);
        p.Write(iFirst, aData);
        o' := o.(used := o.used - {iBlk});
        assert p.Abs().cur == Poke(db, iFirst, aData);
        FreedEntry(db, o, iBlk);
        return;
      }
    }
    ghost var o1 := AddTrunkPage(p, o);
    ghost var db1 := p.Abs().cur;
    GotUsed(db, o, db1, o1);
    o' := FreeBlock(p, iBlk, o1);
    FreedAfterTrunk(db, o, db1, o1, p.Abs().cur, o', iBlk);
  }

  // The new trunk of a full block list.
  method AddTrunkPage(p: BtPager, ghost o: Owners) returns (ghost o': Owners)
    requires Writing(p) && SpaceOk(p.Abs().cur, o, p.Abs().cur.hdr.nPg) && p.hdr.nPg + 1 < U32
    requires !HasRoom(p.Abs().cur)
    modifies p
    ensures Writing(p) && SameOuter(old(p.Abs()), p.Abs()) && p.refs == old(p.refs)
    ensures GotTrunk(old(p.Abs().cur), o, p.Abs().cur, o') && HasRoom(p.Abs().cur)
  {
    hide Inv, Content, Saved, StoreDb, SpaceOk, Free, FreeBlocks, GetU32, PutU32, ListsOk, AllocatedPage, GotTrunk;
    ghost var db := p.Abs().cur;
    var pgno;
    ghost var o1;
    pgno, o1 := PageAllocate(p, o);
    ghost var db1 := p.Abs().cur;
    StillFull(db, o, db1, o1, pgno);
    o' := LinkTrunk(p, pgno, o1);
    Release(p, pgno);
    GotTrunkFrom(db, o, db1, o1, pgno, p.Abs().cur, o');
  }

  // Write the head of the new trunk and make it the first.
  method LinkTrunk(p: BtPager, pgno: nat, ghost o: Owners) returns (ghost o': Owners)
    requires Writing(p) && SpaceOk(p.Abs().cur, o, p.Abs().cur.hdr.nPg) && pgno in o.client
    requires var db := p.Abs().cur;
             o.bts != [] ==> TrunkOk(db.pages[Head(o.bts)], db.hdr.pgsz) && NFree(db.pages[Head(o.bts)]) == NMax(db.hdr.pgsz)
    modifies p
    ensures FlaggedOnly(old(p.Abs()), p.Abs())
    ensures Writing(p) && SameOuter(old(p.Abs()), p.Abs()) && p.refs == old(p.refs)
    ensures p.Abs().cur.hdr == old(p.Abs().cur.hdr).(iFreeBlk := pgno) && HasRoom(p.Abs().cur)
    ensures o' == o.(client := o.client - {pgno}, bts := o.bts + [pgno])
    ensures SpaceOk(p.Abs().cur, o', p.Abs().cur.hdr.nPg)
    ensures Free(p.Abs().cur, o') == Free(old(p.Abs().cur), o)
    ensures FreeBlocks(p.Abs().cur, o') == FreeBlocks(old(p.Abs().cur), o)
    ensures TailSame(old(p.Abs().cur), p.Abs().cur, p.Abs().cur.hdr.nPg)
  {
    hide Inv, Content, Saved, StoreDb, SpaceOk, Free, FreeBlocks, GetU32, PutU32, ListsOk;
    ghost var db1 := p.Abs().cur;
    assert db1.hdr == p.hdr;
    Listed(db1, o, db1.hdr.nPg);
    var iFirst := p.hdr.iFreeBlk;
    AddBlockTrunk(db1, o, db1.hdr.nPg, pgno);
    var aData := Peek(p, pgno);
    aData := PutU32(aData, 0, 0);
    aData := PutU32(aData, 4, iFirst);
    p.Write(pgno, aData);
    p.SetHdr(p.hdr.(iFreeBlk := pgno), true);
    o' := o.(client := o.client - {pgno}, bts := o.bts + [pgno]);
    assert p.Abs().cur.pages == db1.pages[pgno := aData];
  }

  // One round of btFreelistAlloc with bBlock == 1 on a trunk with entries.
  method TakeBlockFromTrunk(p: BtPager, ghost o: Owners) returns (iBlk: nat, ghost o': Owners)
    requires Writing(p) && SpaceOk(p.Abs().cur, o, p.Abs().cur.hdr.nPg)
    requires p.hdr.iFreeBlk != 0 && HeadCount(p.Abs().cur) > 0
    modifies p
    ensures FlaggedOnly(old(p.Abs()), p.Abs())
    ensures Writing(p) && SameOuter(old(p.Abs()), p.Abs()) && p.refs == old(p.refs)
    ensures TookBlock(old(p.Abs().cur), o, p.Abs().cur, o', iBlk)
    ensures Free(p.Abs().cur, o') == Free(old(p.Abs().cur), o)
  {
    hide Inv, Content, Saved, StoreDb, SpaceOk, Free, FreeBlocks, GetU32, PutU32, ListsOk;
    ghost var db := p.Abs().cur;
    assert db.hdr == p.hdr;
    Listed(db, o, db.hdr.nPg);
    var iTrunk := p.hdr.iFreeBlk;
    var aData := Peek(p, iTrunk);
    var nFree := GetU32(aData, 0);
    iBlk := GetU32(aData, 8 + 4 * (nFree - 1));
    TakeBlockEntry(db, o, db.hdr.nPg, iBlk);
    aData := PutU32(aData, 0, nFree - 1);
    p.Write(iTrunk, aData);
    o' := o.(used := o.used + {iBlk});
    assert p.Abs().cur == Poke(db, iTrunk, aData);
  }

  // The other round: an empty trunk goes to the list of free pages, and the
  // next one, which is full, takes its place.
  method DropTrunk(p: BtPager, ghost o: Owners) returns (ghost o': Owners)
    requires Writing(p) && SpaceOk(p.Abs().cur, o, p.Abs().cur.hdr.nPg)
    requires p.hdr.iFreeBlk != 0 && HeadCount(p.Abs().cur) == 0
    modifies p
    ensures FlaggedOnly(old(p.Abs()), p.Abs())
    ensures Writing(p) && SameOuter(old(p.Abs()), p.Abs()) && p.refs == old(p.refs)
    ensures DroppedTrunk(old(p.Abs().cur), o, p.Abs().cur, o')
  {
    hide Inv, Content, Saved, StoreDb, SpaceOk, Free, FreeBlocks, GetU32, PutU32, ListsOk, DroppedTrunk;
    ghost var db := p.Abs().cur;
    assert db.hdr == p.hdr;
    Listed(db, o, db.hdr.nPg);
    var iTrunk := p.hdr.iFreeBlk;
    var aData := Peek(p, iTrunk);
    var iNext := GetU32(aData, 4);
    p.Write(iTrunk, aData);
    assert p.Abs().cur.pages == db.pages;
    TakeBlockTrunk(db, o, db.hdr.nPg);
    ghost var o1 := o.(client := o.client + {iTrunk}, bts := o.bts[..|o.bts| - 1]);
    o' := FreePage(p, iTrunk, o1, db.hdr.nPg, iNext);
    ghost var db1 := p.Abs().cur;
    p.SetHdr(p.hdr.(iFreeBlk := iNext), true);
    assert p.Abs().cur == WithBlk(db1, iNext);
    Listed(WithBlk(db, iNext), o1, db.hdr.nPg);
    DroppedFrom(db, o, WithBlk(db, iNext), o1, p.Abs().cur, o', iTrunk);
  }

  // btFreelistAlloc with bBlock == 1: 0 if there is no free block, else the
  // last one. An empty trunk is turned into a free page on the way.
  method TakeBlock(p: BtPager, ghost o: Owners) returns (iBlk: nat, ghost o': Owners)
    requires Writing(p) && SpaceOk(p.Abs().cur, o, p.Abs().cur.hdr.nPg)
    modifies p
    ensures Writing(p) && SameOuter(old(p.Abs()), p.Abs()) && p.refs == old(p.refs)
    ensures if FreeBlocks(old(p.Abs().cur), o) == []
            then iBlk == 0 && NoBlock(old(p.Abs().cur), o, p.Abs().cur, o')
            else TookBlock(old(p.Abs().cur), o, p.Abs().cur, o', iBlk)
  {
    hide Inv, Content, Saved, StoreDb, SpaceOk, Free, FreeBlocks, GetU32, ListsOk, TookBlock, NoBlock, SearchOk;
    ghost var db := p.Abs().cur;
    SearchStart(db, o);
    iBlk, o' := 0, o;
    while p.hdr.iFreeBlk != 0 && iBlk == 0
      invariant Writing(p) && SameOuter(old(p.Abs()), p.Abs()) && p.refs == old(p.refs)
      invariant iBlk == 0 ==> SearchOk(db, o, p.Abs().cur, o')
      invariant iBlk != 0 ==> TookBlock(db, o, p.Abs().cur, o', iBlk) && FreeBlocks(db, o) != []
      decreases if iBlk == 0 then |o'.bts| + 1 else 0
    {
      ghost var db1, o1 := p.Abs().cur, o';
      assert db1.hdr == p.hdr;
      SearchHead(db, o, db1, o1);
      var aData := Peek(p, p.hdr.iFreeBlk);
      if GetU32(aData, 0) > 0 {
        iBlk, o' := TakeBlockFromTrunk(p, o1);
        SearchTook(db, o, db1, o1, p.Abs().cur, o', iBlk);
      } else {
        o' := DropTrunk(p, o1);
        SearchDropped(db, o, db1, o1, p.Abs().cur, o');
      }
    }
    if iBlk == 0 {
      SearchEnd(db, o, p.Abs().cur, o');
    }
  }

  // One block of sqlite4BtBlockAllocate.
  method BlockAllocateOne(p: BtPager, ghost o: Owners) returns (iBlk: nat, ghost o': Owners)
    requires Writing(p) && SpaceOk(p.Abs().cur, o, p.Abs().cur.hdr.nPg)
    requires p.hdr.pgsz > 0 && p.hdr.nPg + 2 * PerBlock(p.hdr) < U32
    modifies p
    ensures Writing(p) && SameOuter(old(p.Abs()), p.Abs()) && p.refs == old(p.refs)
    ensures AllocatedBlock(old(p.Abs().cur), o, p.Abs().cur, o', iBlk)
  {
    hide Inv, Content, Saved, StoreDb, SpaceOk, Free, FreeBlocks, ListsOk, TookBlock, NoBlock, AllocatedBlock, Filling;
    ghost var db0 := p.Abs().cur;
    assert db0.hdr == p.hdr;
    Listed(db0, o, db0.hdr.nPg);
    iBlk, o' := TakeBlock(p, o);
    ghost var db, o0 := p.Abs().cur, o';
    assert db.hdr == p.hdr;
    TookIsAllocated(db0, o, db, o', iBlk);
    if iBlk != 0 {
      return;
    }
    NoBlockKnown(db0, o, db, o0);
    iBlk, o' := CarveBlock(p, o0, db0, o);
  }

  // A new block from the end of the file.
  method CarveBlock(p: BtPager, ghost o: Owners, ghost db0: Db, ghost o0: Owners) returns (iBlk: nat, ghost o': Owners)
    requires Writing(p) && SpaceOk(p.Abs().cur, o, p.Abs().cur.hdr.nPg)
    requires FreeBlocksEmpty(db0, o0) && NoBlock(db0, o0, p.Abs().cur, o)
    requires p.hdr.pgsz > 0 && PerBlock(p.hdr) >= 1 && p.hdr.nPg + 2 * PerBlock(p.hdr) < U32
    modifies p
    ensures Writing(p) && SameOuter(old(p.Abs()), p.Abs()) && p.refs == old(p.refs)
    ensures AllocatedBlock(db0, o0, p.Abs().cur, o', iBlk)
  {
    hide Inv, Content, Saved, StoreDb, SpaceOk, Free, FreeBlocks, ListsOk, NoBlock, AllocatedBlock, Filling, FreeBlocksEmpty;
    ghost var db := p.Abs().cur;
    assert db.hdr == p.hdr;
    var nPgPerBlk := p.hdr.blksz / p.hdr.pgsz;
    NextBlock(p.hdr.nPg, nPgPerBlk);
    iBlk := 1 + (p.hdr.nPg + nPgPerBlk - 1) / nPgPerBlk;
    var iRoot := (iBlk - 1) * nPgPerBlk + 1;
    o' := FillGap(p, o, iRoot);
    ghost var db1 := p.Abs().cur;
    FillKnown(db, o, db1, o', iRoot);
    FillEnd(db0, o0, db, o, db1, o', iBlk, iRoot);
    p.SetHdr(p.hdr.(nPg := iBlk * nPgPerBlk), false);
    o' := o'.(used := o'.used + {iBlk});
  }

  // Free the pages between the end of the file and the root of the new block.
  method FillGap(p: BtPager, ghost o: Owners, iRoot: nat) returns (ghost o': Owners)
    requires Writing(p) && SpaceOk(p.Abs().cur, o, p.Abs().cur.hdr.nPg)
    requires p.hdr.nPg < iRoot < U32
    modifies p
    ensures Writing(p) && SameOuter(old(p.Abs()), p.Abs()) && p.refs == old(p.refs)
    ensures Filling(old(p.Abs().cur), o, p.Abs().cur, o', iRoot)
  {
    hide Inv, Content, Saved, StoreDb, SpaceOk, Free, FreeBlocks, ListsOk, Filling;
    ghost var db := p.Abs().cur;
    assert db.hdr == p.hdr;
    FillStart(db, o);
    o' := o;
    var iFree := p.hdr.nPg + 1;
    while iFree < iRoot
      invariant iFree <= iRoot
      invariant Writing(p) && SameOuter(old(p.Abs()), p.Abs()) && p.refs == old(p.refs)
      invariant Filling(db, o, p.Abs().cur, o', iFree)
    {
      ghost var db1, o1 := p.Abs().cur, o';
      FillClient(db, o, db1, o1, iFree);
      assert WithBlk(db1, db1.hdr.iFreeBlk) == db1;
      o' := FreePage(p, iFree, o1.(client := o1.client + {iFree}), iFree, db1.hdr.iFreeBlk);
      assert WithBlk(p.Abs().cur, db1.hdr.iFreeBlk) == p.Abs().cur;
      FillStep(db, o, db1, o1, p.Abs().cur, o', iFree);
      iFree := iFree + 1;
    }
  }

  // sqlite4BtBlockAllocate
  method BlockAllocate(p: BtPager, nBlk: nat, ghost o: Owners) returns (aiBlk: seq<nat>, ghost o': Owners)
    requires Writing(p) && SpaceOk(p.Abs().cur, o, p.Abs().cur.hdr.nPg)
    requires p.hdr.pgsz > 0 && p.hdr.nPg + nBlk * (2 * PerBlock(p.hdr)) < U32
    modifies p
    ensures Writing(p) && SameOuter(old(p.Abs()), p.Abs()) && p.refs == old(p.refs)
    ensures SpaceOk(p.Abs().cur, o', p.Abs().cur.hdr.nPg)
    ensures |aiBlk| == nBlk && NoDup(aiBlk)
    ensures o'.client == o.client && o'.used == o.used + SetOf(aiBlk) && o.used !! SetOf(aiBlk)
    ensures TailSame(old(p.Abs().cur), p.Abs().cur, p.Abs().cur.hdr.nPg)
    ensures old(p.Abs().cur.hdr.nPg) <= p.Abs().cur.hdr.nPg
  {
    hide Inv, Content, Saved, StoreDb, SpaceOk, Free, FreeBlocks, ListsOk, AllocatedBlock, TailSame;
    TailStart(p.Abs().cur);
    ghost var db := p.Abs().cur;
    assert db.hdr == p.hdr;
    ghost var n := 2 * PerBlock(p.hdr);
    aiBlk, o' := [], o;
    var i := 0;
    while i < nBlk
      invariant i == |aiBlk| <= nBlk
      invariant Writing(p) && SameOuter(old(p.Abs()), p.Abs()) && p.refs == old(p.refs)
      invariant SpaceOk(p.Abs().cur, o', p.Abs().cur.hdr.nPg)
      invariant p.hdr.pgsz == db.hdr.pgsz && p.hdr.blksz == db.hdr.blksz
      invariant db.hdr.nPg <= p.hdr.nPg <= db.hdr.nPg + i * n
      invariant TailSame(db, p.Abs().cur, p.hdr.nPg)
      invariant NoDup(aiBlk) && o'.client == o.client
      invariant o'.used == o.used + SetOf(aiBlk) && o.used !! SetOf(aiBlk)
    {
      ghost var db1, o1 := p.Abs().cur, o';
      assert db1.hdr == p.hdr;
      RoomFor(i, nBlk, n);
      var iBlk;
      iBlk, o' := BlockAllocateOne(p, o1);
      assert p.Abs().cur.hdr == p.hdr;
      BlockKnown(db1, o1, p.Abs().cur, o', iBlk);
      TailTrans(db, db1, p.Abs().cur, db1.hdr.nPg, p.hdr.nPg);
      NoDupAppend(aiBlk, iBlk);
      assert SetOf(aiBlk + [iBlk]) == SetOf(aiBlk) + {iBlk};
      aiBlk := aiBlk + [iBlk];
      i := i + 1;
    }
  }

  // sqlite4BtBlockTrim
  method BlockTrim(p: BtPager, iBlk: nat, ghost o: Owners) returns (ghost o': Owners)
    requires Writing(p) && SpaceOk(p.Abs().cur, o, p.Abs().cur.hdr.nPg) && iBlk in o.used
    requires p.hdr.nPg + 1 < U32
    modifies p
    ensures Writing(p) && SameOuter(old(p.Abs()), p.Abs()) && p.refs == old(p.refs)
    ensures FreedBlock(old(p.Abs().cur), o, p.Abs().cur, o', iBlk)
  {
    o' := FreeBlock(p, iBlk, o);
  }

  // The free lists are pages like any other: rolling back a savepoint takes
  // back the blocks that were allocated inside it.
  method RollbackReturnsBlocks(p: BtPager, nBlk: nat, ghost o: Owners)
    requires Writing(p) && p.Tidy() && SpaceOk(p.Abs().cur, o, p.Abs().cur.hdr.nPg)
    requires p.hdr.pgsz > 0 && p.hdr.nPg + nBlk * (2 * PerBlock(p.hdr)) < U32
    modifies p
    ensures Writing(p) && p.Abs().cur == old(p.Abs().cur) && p.Abs().committed == old(p.Abs().committed)
    ensures SpaceOk(p.Abs().cur, o, p.Abs().cur.hdr.nPg) && p.refs == old(p.refs)
  {
    hide Inv, Content, Saved, StoreDb, SpaceOk, TailSame, ZeroTail;
    ghost var t := p.Abs();
    var l := p.iTransactionLevel + 1;
    p.Begin(l);
    ghost var t1 := p.Abs();
    assert t1 == Begin(t, l);
    assert t.cur.hdr == old(p.hdr) && t1.cur.hdr == p.hdr;
    var aiBlk;
    ghost var o';
    aiBlk, o' := BlockAllocate(p, nBlk, o);
    TailTidy(t1.cur, p.Abs().cur, p.pgsz);
    p.Rollback(l);
  }

  // A page given back is the next one allocated, and a block likewise; the
  // lists end up as they were.
  method TrimThenAllocate(p: BtPager, pgno: nat, ghost o: Owners) returns (again: nat, ghost o': Owners)
    requires Writing(p) && SpaceOk(p.Abs().cur, o, p.Abs().cur.hdr.nPg) && pgno in o.client
    requires p.hdr.nPg + 1 < U32
    modifies p
    ensures Writing(p) && SameOuter(old(p.Abs()), p.Abs())
    ensures again == pgno && o'.client == o.client && o'.used == o.used && o'.bts == o.bts
    ensures ListsOk(p.Abs().cur, o') && Free(p.Abs().cur, o') == Free(old(p.Abs().cur), o)
    ensures FreeBlocks(p.Abs().cur, o') == FreeBlocks(old(p.Abs().cur), o)
  {
    hide Inv, Content, Saved, StoreDb, Free, FreeBlocks, ListsOk, AllocatedPage, Partition;
    ghost var db := p.Abs().cur;
    assert db.hdr == p.hdr;
    ghost var o1 := TrimPage(p, pgno, o);
    ghost var db1 := p.Abs().cur;
    assert db1.hdr == p.hdr;
    again, o' := PageAllocate(p, o1);
    PageComesBack(db, o, db1, o1, p.Abs().cur, o', pgno, again);
  }

  method TrimThenAllocateBlock(p: BtPager, iBlk: nat, ghost o: Owners) returns (again: nat, ghost o': Owners)
    requires Writing(p) && SpaceOk(p.Abs().cur, o, p.Abs().cur.hdr.nPg) && iBlk in o.used
    requires p.hdr.pgsz > 0 && p.hdr.nPg + 1 + 2 * PerBlock(p.hdr) < U32
    modifies p
    ensures Writing(p) && SameOuter(old(p.Abs()), p.Abs()) && p.refs == old(p.refs)
    ensures again == iBlk && o'.client == o.client && o'.used == o.used
    ensures ListsOk(p.Abs().cur, o') && FreeBlocks(p.Abs().cur, o') == FreeBlocks(old(p.Abs().cur), o)
  {
    hide Inv, Content, Saved, StoreDb, Free, FreeBlocks, ListsOk, AllocatedBlock, Partition;
    ghost var db := p.Abs().cur;
    assert db.hdr == p.hdr;
    ghost var o1 := BlockTrim(p, iBlk, o);
    ghost var db1 := p.Abs().cur;
    assert db1.hdr == p.hdr;
    again, o' := BlockAllocateOne(p, o1);
    BlockComesBack(db, o, db1, o1, p.Abs().cur, o', iBlk, again);
  }
}

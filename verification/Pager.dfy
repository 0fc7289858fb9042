// The pager of bt_pager.c: page cache, LRU list, dirty list, undo lists and
// nested transactions, on top of an append-only log of page frames.

module Pager {
  import opened PageTypes
  import opened UndoList
  import opened PagerState
  import opened PageHash
  import opened PagerAbs
  import S = SnapshotStack

  // The frames one commit writes: the dirty pages in list order, the page
  // count on the last frame only.
  function CommitFrames(dirty: seq<nat>, c: Cache, nPg: nat): (r: seq<Frame>)
    requires forall k | 0 <= k < |dirty| :: dirty[k] in c
    ensures |r| == |dirty|
  {
    seq(|dirty|, k requires 0 <= k < |dirty| =>
      Frame(dirty[k], c[dirty[k]].aData, if k == |dirty| - 1 then nPg else 0))
  }

  // Every dirty page is logged once, with its bytes, and the last frame alone
  // carries the page count.
  lemma FramesOfCommit(dirty: seq<nat>, c: Cache, nPg: nat)
    requires (forall k | 0 <= k < |dirty| :: dirty[k] in c) && NoDup(dirty) && nPg > 0
    ensures var fs := CommitFrames(dirty, c, nPg);
            && (forall q | q in dirty :: exists k :: 0 <= k < |fs| && fs[k].pgno == q && fs[k].aData == c[q].aData)
            && (forall k | 0 <= k < |fs| :: fs[k].pgno in dirty)
            && (forall j, k | 0 <= j < k < |fs| :: fs[j].pgno != fs[k].pgno)
            && (forall k | 0 <= k < |fs| :: fs[k].nPg != 0 <==> k == |fs| - 1)
            && (fs != [] ==> fs[|fs| - 1].nPg == nPg)
  {
    var fs := CommitFrames(dirty, c, nPg);
    forall q | q in dirty ensures exists k :: 0 <= k < |fs| && fs[k].pgno == q && fs[k].aData == c[q].aData {
      var k :| 0 <= k < |dirty| && dirty[k] == q;
      assert fs[k].pgno == q;
    }
  }

  class BtPager {
    const file: map<nat, Bytes>              // the database file
    const pgsz: nat
    const nPageLimit: nat
    const enc: (Bytes, DbHdr) -> Bytes       // btLogUpdateDbhdr

    // The log module: frames, and the header of the last commit frame.
    var frames: seq<Frame>
    var committedHdr: DbHdr

    var iTransactionLevel: nat
    var hash: BtPageHash
    var cache: Cache                         // the BtPage objects, by number
    var pDirty: seq<nat>
    var pLru: seq<nat>                       // head first
    var nTotalRef: nat
    var aSavepoint: seq<Savepoint>
    var hdr: DbHdr                           // *pHdr
    var bDirtyHdr: bool

    ghost var refs: multiset<nat>            // the outstanding page references

    ghost function State(): St
      reads this
    {
      St(file, pgsz, frames, committedHdr, hash, cache, pLru, pDirty, nTotalRef, refs, aSavepoint, hdr)
    }

    // The invariant between calls.
    ghost predicate Valid()
      reads this
    {
      && Inv(State())
      && |aSavepoint| == S.Depth(iTransactionLevel)
      && (iTransactionLevel < 2 ==> pDirty == [])
    }

    constructor (file: map<nat, Bytes>, pgsz: nat, limit: nat, enc: (Bytes, DbHdr) -> Bytes, h: DbHdr)
      requires h.nPg >= 1 && forall q | q in file :: q <= h.nPg
      ensures Valid() && S.AllTrimmed(Abs(), pgsz) && iTransactionLevel == 0 && refs == multiset{}
    {
      this.file, this.pgsz, this.nPageLimit, this.enc := file, pgsz, limit, enc;
      frames, committedHdr, iTransactionLevel := [], h, 0;
      hash, cache := BtPageHash(0, []), map[];
      pDirty, pLru, nTotalRef, aSavepoint := [], [], 0, [];
      hdr, bDirtyHdr, refs := h, false, multiset{};
    }

    // ---- The hash table

    // btHashSearch
    method HashSearch(pgno: nat, ghost k: set<nat>) returns (found: bool)
      requires Files(hash, k)
      ensures found <==> pgno in k
    {
      found := false;
      if |hash.aHash| > 0 {
        var c := hash.aHash[pgno % |hash.aHash|];
        var i := 0;
        while i < |c| && c[i] != pgno
          invariant 0 <= i <= |c|
          invariant pgno !in c[..i]
        {
          i := i + 1;
        }
        assert c == c[..i] + c[i..];
        found := i < |c|;
      }
      assert pgno in k <==> Holds(hash.aHash, pgno);
    }

    // The resize of btHashAdd: move every page to a table with more chains.
    method HashGrow(ghost k: set<nat>)
      requires Files(hash, k)
      modifies `hash
      ensures Files(hash, k) && hash.nEntry == old(hash.nEntry)
      ensures |hash.aHash| == if old(|hash.aHash|) == 0 then 256 else 2 * old(|hash.aHash|)
    {
      var n := if |hash.aHash| > 0 then 2 * |hash.aHash| else 256;
      var aNew: seq<seq<nat>> := seq(n, _ => []);
      var aOld := hash.aHash;
      var i := 0;
      hide Between;
      GrowStart(aOld, aNew, k);
      while i < |aOld|
        invariant hash == old(hash) && 0 <= i <= |aOld| == |hash.aHash| && |aNew| == n
        invariant forall h | 0 <= h < i :: aOld[h] == []
        invariant Between(aOld, aNew, k)
      {
        while aOld[i] != []
          invariant hash == old(hash) && |aOld| == |hash.aHash| && |aNew| == n
          invariant forall h | 0 <= h < i :: aOld[h] == []
          invariant Between(aOld, aNew, k)
          decreases |aOld[i]|
        {
          ShiftKeeps(aOld, aNew, i, k);
          var pShift := aOld[i][0];
          aOld := aOld[i := aOld[i][1..]];
          var h := pShift % n;
          aNew := aNew[h := [pShift] + aNew[h]];
        }
        i := i + 1;
      }
      GrowDone(aOld, aNew, k);
      hash := hash.(aHash := aNew);
    }

    // btHashAdd
    method HashAdd(pgno: nat, ghost k: set<nat>)
      requires Files(hash, k) && pgno !in k
      modifies `hash
      ensures Files(hash, k + {pgno})
    {
      if hash.nEntry >= |hash.aHash| / 2 {
        HashGrow(k);
      }
      PushKeepsTable(hash.aHash, pgno);
      var h := pgno % |hash.aHash|;
      hash := BtPageHash(hash.nEntry + 1, hash.aHash[h := [pgno] + hash.aHash[h]]);
    }

    // btHashRemove
    method HashRemove(pgno: nat, ghost k: set<nat>)
      requires Files(hash, k) && pgno in k
      modifies `hash
      ensures Files(hash, k - {pgno})
    {
      assert Holds(hash.aHash, pgno);
      var h := pgno % |hash.aHash|;
      var c := hash.aHash[h];
      var i := 0;
      while c[i] != pgno
        invariant 0 <= i < |c|
        invariant pgno in c[i..]
        decreases |c| - i
      {
        i := i + 1;
      }
      DropKeepsTable(hash.aHash, h, i);
      hash := BtPageHash(hash.nEntry - 1, hash.aHash[h := c[..i] + c[i+1..]]);
    }

    // ---- Page references

    // btAllocatePage: when the cache is full, recycle the page at the head of
    // the LRU list.
    method AllocatePage()
      requires Inv(State())
      modifies `cache, `pLru, `hash
      ensures Inv(State()) && SameViews(old(State()), State())
      ensures if old(hash.nEntry >= nPageLimit && pLru != [])
              then cache.Keys == old(cache.Keys) - {old(pLru)[0]} && pLru == old(pLru)[1..]
              else cache == old(cache) && pLru == old(pLru)
      ensures forall q | q in cache :: cache[q] == old(cache)[q]
      ensures forall q | q in old(cache) && (old(cache)[q].nRef > 0 || old(cache)[q].dirty) :: q in cache
    {
      hide TailsOk, SameViews, Files;
      if hash.nEntry >= nPageLimit && pLru != [] {
        LruHead(State());
        var pRet := pLru[0];
        pLru := pLru[1..];
        HashRemove(pRet, cache.Keys);
        cache := cache - {pRet};
        assert cache.Keys == old(cache.Keys) - {pRet};
        EvictKeeps(old(State()), State());
      } else {
        NoChange(State());
      }
    }

    // btLruRemove
    method LruRemove(q: nat)
      requires q in pLru && NoDup(pLru)
      modifies `pLru
      ensures LruWithout(old(pLru), q, pLru)
      ensures exists k | 0 <= k < |old(pLru)| :: old(pLru)[k] == q && pLru == old(pLru)[..k] + old(pLru)[k+1..]
    {
      var k := 0;
      while pLru[k] != q
        invariant 0 <= k < |pLru|
        invariant q in pLru[k..]
        decreases |pLru| - k
      {
        k := k + 1;
      }
      pLru := pLru[..k] + pLru[k+1..];
    }

    // The cache miss of sqlite4BtPageGet.
    method LoadPage(pgno: nat)
      requires Inv(State()) && pgno !in cache
      modifies `cache, `pLru, `hash, `nTotalRef, `refs
      ensures Inv(State()) && SameViews(old(State()), State())
      ensures pgno in cache && refs == old(refs) + multiset{pgno}
      ensures cache[pgno].nRef >= 1 && cache[pgno].aData == Store(State(), pgno)
      ensures forall q | q in old(cache) && (old(cache)[q].nRef > 0 || old(cache)[q].dirty) ::
                q in cache && cache[q] == old(cache)[q]
    {
      hide LruOk, RefsOk, CleanOk, DirtyOk, SavesOk, AllLinked, TailsOk, SameViews, Files;
      AllocatePage();
      ghost var s := State();
      var data := if pgno <= hdr.nPg then Stored(frames, file, pgsz, pgno) else Zeros(pgsz);
      PastEnd(s, pgno);
      HashAdd(pgno, cache.Keys);
      cache := cache[pgno := BtPage(data, 1, false, [])];
      assert cache.Keys == s.cache.Keys + {pgno};
      nTotalRef, refs := nTotalRef + 1, refs + multiset{pgno};
      LoadKeeps(s, State(), pgno);
      SameViewsTrans(old(State()), s, State());
    }

    // sqlite4BtPageGet
    method PageGet(pgno: nat)
      requires Inv(State()) && iTransactionLevel >= 1
      requires pgno > hdr.nPg ==> iTransactionLevel >= 2
      modifies `cache, `pLru, `hash, `nTotalRef, `refs
      ensures Inv(State()) && SameViews(old(State()), State())
      ensures pgno in cache && refs == old(refs) + multiset{pgno}
      ensures cache[pgno].nRef >= 1 && cache[pgno].aData == old(Content(State(), pgno))
      ensures forall q | q in old(cache) && (old(cache)[q].nRef > 0 || old(cache)[q].dirty) ::
                q in cache && cache[q] == old(cache)[q].(nRef := cache[q].nRef)
    {
      hide LruOk, RefsOk, CleanOk, DirtyOk, SavesOk, AllLinked, TailsOk, SameViews, Files, NoDup, LruWithout;
      var found := HashSearch(pgno, cache.Keys);
      if !found {
        LoadPage(pgno);
      } else {
        if cache[pgno].nRef == 0 && !cache[pgno].dirty {
          LruHolds(State(), pgno);
          LruRemove(pgno);
        }
        cache := cache[pgno := cache[pgno].(nRef := cache[pgno].nRef + 1)];
        nTotalRef, refs := nTotalRef + 1, refs + multiset{pgno};
        AcquireKeeps(old(State()), State(), pgno);
      }
    }

    // sqlite4BtPageRelease
    method PageRelease(q: nat)
      requires Inv(State()) && q in cache && cache[q].nRef >= 1
      modifies `cache, `pLru, `nTotalRef, `refs
      ensures Inv(State()) && SameViews(old(State()), State())
      ensures cache == old(cache)[q := old(cache)[q].(nRef := old(cache)[q].nRef - 1)]
      ensures refs == old(refs) - multiset{q}
      ensures pLru == if cache[q].nRef == 0 && !cache[q].dirty then old(pLru) + [q] else old(pLru)
    {
      hide HashOk, LruOk, RefsOk, CleanOk, DirtyOk, SavesOk, AllLinked, TailsOk, SameViews;
      RefCounted(State(), q);
      cache := cache[q := cache[q].(nRef := cache[q].nRef - 1)];
      nTotalRef, refs := nTotalRef - 1, refs - multiset{q};
      if cache[q].nRef == 0 && !cache[q].dirty {
        pLru := pLru + [q];
      }
      ReleaseKeeps(old(State()), State(), q);
    }

    // sqlite4BtPageReference
    method PageReference(q: nat)
      requires Inv(State()) && q in cache && cache[q].nRef >= 1
      modifies `cache, `nTotalRef, `refs
      ensures Inv(State()) && SameViews(old(State()), State())
      ensures cache == old(cache)[q := old(cache)[q].(nRef := old(cache)[q].nRef + 1)]
      ensures refs == old(refs) + multiset{q}
    {
      hide HashOk, LruOk, RefsOk, CleanOk, DirtyOk, SavesOk, AllLinked, TailsOk, SameViews;
      cache := cache[q := cache[q].(nRef := cache[q].nRef + 1)];
      nTotalRef, refs := nTotalRef + 1, refs + multiset{q};
      AcquireKeeps(old(State()), State(), q);
    }

    // btAddToSavepoint
    method AddToSavepoint(q: nat)
      requires q in cache && aSavepoint != [] && iTransactionLevel == |aSavepoint| + 2
      modifies `cache, `aSavepoint
      ensures State() == PagerState.AddToSavepoint(old(State()), q)
    {
      var iLevel := iTransactionLevel;
      var pPg := cache[q];
      if pPg.saves == [] || pPg.saves[0].iSavepoint != iLevel {
        cache := cache[q := pPg.(saves := [Savepage(iLevel, pPg.aData)] + pPg.saves)];
        var sp := aSavepoint[iLevel - 3];
        aSavepoint := aSavepoint[iLevel - 3 := sp.(pages := [q] + sp.pages)];
      } else {
        assert cache == cache[q := pPg];
      }
    }

    // sqlite4BtPageWrite
    method PageWrite(q: nat)
      requires Inv(State()) && q in cache && cache[q].nRef >= 1 && iTransactionLevel >= 2
      requires aSavepoint != [] ==> iTransactionLevel == |aSavepoint| + 2
      modifies `cache, `pDirty, `aSavepoint
      ensures Inv(State()) && Writable(State(), q)
      ensures SameContent(old(State()), State()) && Kept(old(State()), State(), |aSavepoint| + 2)
      ensures pDirty != [] && OnlyMarked(old(State()), State())
      ensures forall r | r in old(cache) && r != q :: cache[r] == old(cache)[r]
    {
      hide HashOk, LruOk, RefsOk, CleanOk, DirtyOk, SavesOk, AllLinked, TailsOk, SameContent, Kept, OnlyMarked;
      if aSavepoint != [] {
        AddToSavepoint(q);
      }
      if !cache[q].dirty {
        cache := cache[q := cache[q].(dirty := true)];
        pDirty := [q] + pDirty;
      }
      PageWriteKeeps(old(State()), State(), q);
    }

    // A client overwrites the page it holds (through sqlite4BtPageData).
    method SetData(q: nat, data: Bytes)
      requires Inv(State()) && Writable(State(), q)
      modifies `cache
      ensures Inv(State()) && Writable(State(), q) && Kept(old(State()), State(), |aSavepoint| + 2)
      ensures forall r: nat :: Content(State(), r) == if r == q then data else Content(old(State()), r)
      ensures cache == old(cache)[q := old(cache)[q].(aData := data)]
    {
      hide Inv, Kept;
      SetDataKeeps(State(), q, data);
      cache := cache[q := cache[q].(aData := data)];
      assert State() == PagerState.SetData(old(State()), q, data);
    }

    // Get a page and make it writable at the current level.
    method GetForWrite(q: nat)
      requires Inv(State()) && iTransactionLevel >= 2
      requires aSavepoint != [] ==> iTransactionLevel == |aSavepoint| + 2
      modifies `cache, `pLru, `hash, `nTotalRef, `refs, `pDirty, `aSavepoint
      ensures Inv(State()) && Writable(State(), q) && q in cache && cache[q].nRef >= 1 && pDirty != []
      ensures refs == old(refs) + multiset{q} && cache[q].aData == old(Content(State(), q))
      ensures SameContent(old(State()), State()) && Kept(old(State()), State(), |aSavepoint| + 2)
      ensures |aSavepoint| == old(|aSavepoint|)
      ensures forall j | 0 <= j < |aSavepoint| :: aSavepoint[j].hdr == old(aSavepoint)[j].hdr
    {
      hide Inv, SameViews, SameContent, Kept, Content, OnlyMarked;
      ghost var s := State();
      PageGet(q);
      ghost var s1 := State();
      SameViewsWeaken(s, s1, |aSavepoint| + 2);
      PageWrite(q);
      MarkedPage(s1, State(), q);
      KeptTrans(s, s1, State(), |aSavepoint| + 2);
    }

    // How a client changes a page: get it, make it writable at the current
    // level, change its bytes, release it.
    method UpdatePage(q: nat, f: Bytes -> Bytes)
      requires Inv(State()) && iTransactionLevel >= 2
      requires aSavepoint != [] ==> iTransactionLevel == |aSavepoint| + 2
      modifies `cache, `pLru, `hash, `nTotalRef, `refs, `pDirty, `aSavepoint
      ensures Inv(State()) && refs == old(refs) && pDirty != []
      ensures Kept(old(State()), State(), |aSavepoint| + 2)
      ensures CurDb(State()).pages == old(CurDb(State())).pages[q := f(old(CurDb(State())).pages[q])]
      ensures |aSavepoint| == old(|aSavepoint|)
      ensures forall j | 0 <= j < |aSavepoint| :: aSavepoint[j].hdr == old(aSavepoint)[j].hdr
    {
      hide Inv, SameViews, SameContent, Kept, Writable, Content, CurDb;
      ghost var s := State();
      GetForWrite(q);
      ghost var s2 := State();
      var data := f(cache[q].aData);
      SetData(q, data);
      ghost var s3 := State();
      PageRelease(q);
      UpdateKeeps(s, s2, s3, State(), q, data);
    }

    // ---- Savepoints

    // btOpenSavepoints
    method OpenSavepoints(iLevel: nat)
      requires Inv(State()) && CurTailOk(State())
      modifies `aSavepoint
      ensures Inv(State()) && SameViews(old(State()), State())
      ensures |aSavepoint| == if S.Depth(iLevel) > old(|aSavepoint|) then S.Depth(iLevel) else old(|aSavepoint|)
      ensures aSavepoint[..old(|aSavepoint|)] == old(aSavepoint)
      ensures forall j | old(|aSavepoint|) <= j < |aSavepoint| :: aSavepoint[j].hdr == hdr
      ensures forall l: nat, q: nat | old(|aSavepoint|) + 2 < l <= |aSavepoint| + 2 ::
                Snap(State(), l, q) == Content(old(State()), q)
    {
      hide Inv, SameViews, CurTailOk;
      var nReq := iLevel - 2;
      if nReq > |aSavepoint| {
        var n := nReq - |aSavepoint|;
        var aNew := aSavepoint;
        var i := |aSavepoint|;
        while i < nReq
          invariant old(|aSavepoint|) <= i <= nReq && aSavepoint == old(aSavepoint)
          invariant aNew == PagerState.OpenSavepoints(State(), i - |aSavepoint|).sps
        {
          aNew := aNew + [Savepoint(i + 3, [], hdr)];
          i := i + 1;
        }
        OpenSavepointsKeeps(State(), n);
        aSavepoint := aNew;
        assert State() == PagerState.OpenSavepoints(old(State()), n);
      } else {
        NoChange(State());
      }
    }

    // The inner loop of btCloseSavepoints: undo or re-level the images of
    // savepoint i, innermost of those that remain.
    method CloseSavepoint(i: nat, iLevel: nat, bRollback: bool, ghost s0: St, ghost s1: St) returns (ghost s: St)
      requires i < |aSavepoint| && iLevel < i + 3
      requires Closing(s0, s1, i + 1, iLevel, bRollback)
      requires s1 == State().(sps := aSavepoint[..i + 1])
      modifies `cache, `aSavepoint, `hdr
      ensures Closing(s0, s, i, iLevel, bRollback)
      ensures |aSavepoint| == old(|aSavepoint|) && s == State().(sps := aSavepoint[..i])
    {
      hide Closing, HalfClosed, SavesOk, AllLinked, Core;
      if bRollback {
        hdr := aSavepoint[i].hdr;
      }
      ClosingHdr(s0, s1, i, iLevel, bRollback);
      s := s1.(hdr := hdr);
      SavepointBegins(s0, s1, s, i, iLevel, bRollback);
      var list := aSavepoint[i].pages;
      assert s.sps == aSavepoint[..i] + [aSavepoint[i].(pages := list)];
      while list != []
        invariant |aSavepoint| == old(|aSavepoint|)
        invariant s == State().(sps := aSavepoint[..i] + [aSavepoint[i].(pages := list)])
        invariant HalfClosed(s0, s, i, iLevel, bRollback)
        decreases |list|
      {
        HalfHead(s0, s, i, iLevel, bRollback);
        SavepointStep(s0, s, i, iLevel, bRollback);
        s := CloseStep(s, iLevel, bRollback);
        if Relevels(cache[list[0]], iLevel) {
          PushBelow(aSavepoint, i, iLevel - 3, list[0], list[1..]);
        }
        CloseOne(list[0], i, iLevel, bRollback);
        list := list[1..];
      }
      SavepointEnds(s0, s, i, iLevel, bRollback);
      s := PopSavepoint(s);
      aSavepoint := aSavepoint[i := aSavepoint[i].(pages := [])];
    }

    // One image: restore the page from it, give it to savepoint iLevel, or
    // drop it.
    method CloseOne(q: nat, i: nat, iLevel: nat, bRollback: bool)
      requires q in cache && cache[q].saves != [] && NextLevel(cache[q].saves) >= 2
      requires i < |aSavepoint| && iLevel < i + 3
      modifies `cache, `aSavepoint
      ensures |aSavepoint| == old(|aSavepoint|)
      ensures cache == old(cache)[q := CloseImage(old(cache)[q], iLevel, bRollback)]
      ensures aSavepoint == if !bRollback && Relevels(old(cache)[q], iLevel)
                            then PushPage(old(aSavepoint), iLevel - 3, q) else old(aSavepoint)
    {
      var pPg := cache[q];
      var pSavepg := pPg.saves[0];
      if bRollback {
        cache := cache[q := pPg.(aData := pSavepg.aData, saves := pPg.saves[1..])];
      } else {
        var iNextSaved := if |pPg.saves| > 1 then pPg.saves[1].iSavepoint else 2;
        if iLevel > iNextSaved {
          var sp := aSavepoint[iLevel - 3];
          aSavepoint := aSavepoint[iLevel - 3 := sp.(pages := [q] + sp.pages)];
          cache := cache[q := pPg.(saves := [pSavepg.(iSavepoint := iLevel)] + pPg.saves[1..])];
        } else {
          cache := cache[q := pPg.(saves := pPg.saves[1..])];
        }
      }
    }

    // Pushing onto a list below savepoint i commutes with taking its own list.
    static lemma PushBelow(a: seq<Savepoint>, i: nat, j: nat, q: nat, list: seq<nat>)
      requires j < i < |a|
      ensures var a' := PushPage(a, j, q);
              PushPage(a[..i] + [a[i].(pages := list)], j, q) == a'[..i] + [a'[i].(pages := list)]
    {
    }

    // btCloseSavepoints
    method CloseSavepoints(iLevel: nat, bRollback: bool)
      requires Inv(State()) && S.Depth(iLevel) <= |aSavepoint|
      modifies `cache, `aSavepoint, `hdr
      ensures Inv(State()) && Closing(old(State()), State(), S.Depth(iLevel), iLevel, bRollback)
    {
      hide Closing, Inv;
      var nReq := S.Depth(iLevel);
      ghost var s := State();
      InvCore(s);
      CloseBegins(s);
      var i := |aSavepoint|;
      assert aSavepoint[..i] == aSavepoint;
      while i > nReq
        invariant nReq <= i <= |aSavepoint|
        invariant s == State().(sps := aSavepoint[..i])
        invariant Closing(old(State()), s, i, iLevel, bRollback)
      {
        i := i - 1;
        s := CloseSavepoint(i, iLevel, bRollback, old(State()), s);
      }
      aSavepoint := aSavepoint[..nReq];
      CloseEnds(old(State()), State(), nReq, iLevel, bRollback);
    }

    // ---- Transactions

    // What the client sees: a stack of database snapshots.
    ghost function Abs(): S.Tx
      reads this
    {
      AbsOf(State(), iTransactionLevel, bDirtyHdr)
    }

    // The database the client sees ends where its header says.
    ghost predicate Tidy()
      reads this
    {
      S.ZeroTail(Abs().cur, pgsz)
    }

    // sqlite4BtPagerBegin
    method Begin(iLevel: nat)
      requires Valid() && Tidy()
      modifies this
      ensures Valid() && Abs() == S.Begin(old(Abs()), iLevel)
      ensures iTransactionLevel == if old(iTransactionLevel) < iLevel then iLevel else old(iTransactionLevel)
      ensures refs == old(refs)
    {
      hide Inv, SameViews;
      if iTransactionLevel < iLevel {
        if iTransactionLevel == 0 {
          // btOpenReadTransaction
          iTransactionLevel := 1;
          hdr := committedHdr;
          ReadBegins(old(State()), State());
        }
        ghost var s := State();
        TailIsTidy(s);
        OpenSavepoints(iLevel);
        iTransactionLevel := iLevel;
        SameViewsWeaken(s, State(), |s.sps| + 2);
        OpenedIsCur(s, State());
        SameStore(old(State()), State());
      }
    }

    lemma ReadBegins(s: St, s': St)
      requires Inv(s) && s.sps == [] && s.dirty == [] && s' == s.(hdr := s.committedHdr)
      ensures Inv(s') && CurDb(s') == StoreDb(s) && Saved(s') == Saved(s)
    {
      hide Files;
      CoreHdr(s, s');
      SameSaved(s, s', 0);
      CleanIsStore(s');
      SameStore(s, s');
      assert forall q: nat :: Store(s', q) == Store(s, q);
    }

    // sqlite4BtLogWrite: a frame with a page count commits the header too.
    method LogWrite(pgno: nat, aData: Bytes, nPg: nat)
      modifies `frames, `committedHdr
      ensures frames == old(frames) + [Frame(pgno, aData, nPg)]
      ensures committedHdr == if nPg > 0 then hdr else old(committedHdr)
    {
      frames := frames + [Frame(pgno, aData, nPg)];
      if nPg > 0 {
        committedHdr := hdr;
      }
    }

    // btPagerDbhdrFlush
    method DbhdrFlush()
      requires Inv(State()) && CurTailOk(State()) && iTransactionLevel >= 2 && aSavepoint == []
      modifies `cache, `pLru, `hash, `nTotalRef, `refs, `pDirty, `aSavepoint, `bDirtyHdr
      ensures Inv(State()) && CurTailOk(State()) && aSavepoint == [] && refs == old(refs) && !bDirtyHdr
      ensures pDirty != [] <==> old(pDirty != [] || bDirtyHdr)
      ensures CurDb(State()) == if old(bDirtyHdr) then S.Flush(CurDb(old(State())), enc) else CurDb(old(State()))
    {
      hide Inv, CurTailOk;
      if bDirtyHdr {
        ghost var s := State();
        HdrCovers(s);
        var h := hdr;
        UpdatePage(1, b => enc(b, h));
        bDirtyHdr := false;
        FlushTail(s, State(), enc);
      }
    }

    // One frame of a commit.
    method LogDirtyPage(pgno: nat, nPg: nat)
      requires pgno in cache
      modifies `frames, `committedHdr, `cache, `pLru
      ensures frames == old(frames) + [Frame(pgno, old(cache)[pgno].aData, nPg)]
      ensures committedHdr == if nPg > 0 then hdr else old(committedHdr)
      ensures cache == old(cache)[pgno := old(cache)[pgno].(dirty := false)]
      ensures pLru == if old(cache)[pgno].nRef == 0 then old(pLru) + [pgno] else old(pLru)
    {
      LogWrite(pgno, cache[pgno].aData, nPg);
      cache := cache[pgno := cache[pgno].(dirty := false)];
      if cache[pgno].nRef == 0 {
        pLru := pLru + [pgno];
      }
    }

    // The loop of btCommitTransaction: log every dirty page.
    method LogDirtyPages()
      requires Inv(State()) && CurTailOk(State()) && aSavepoint == []
      requires forall k | 0 <= k < |pDirty| :: pDirty[k] in cache
      modifies `frames, `committedHdr, `cache, `pLru, `pDirty
      ensures Inv(State()) && pDirty == []
      ensures frames == old(frames) + CommitFrames(old(pDirty), old(cache), hdr.nPg)
      ensures CurDb(State()) == CurDb(old(State()))
      ensures StoreDb(State()) == if old(pDirty) != [] then CurDb(State()) else StoreDb(old(State()))
    {
      hide Inv, Core, SameContent, CurTailOk, NoDup;
      ghost var s0, s := State(), State();
      ghost var fs := CommitFrames(pDirty, cache, hdr.nPg);
      CommitBegins(s0);
      HdrCovers(s0);
      var list := pDirty;
      while list != []
        invariant |list| <= |s0.dirty| && list == s0.dirty[|s0.dirty| - |list|..]
        invariant s == State().(dirty := list, committedHdr := s0.committedHdr)
        invariant CommitRuns(s0, s)
        invariant frames == s0.frames + fs[..|s0.dirty| - |list|]
        invariant committedHdr == if |list| < |s0.dirty| && list == [] then hdr else s0.committedHdr
      {
        ghost var k := |s0.dirty| - |list|;
        CommitRound(s0, s);
        var pgno := list[0];
        assert pgno == s0.dirty[k] && cache[pgno].aData == s0.cache[pgno].aData;
        var nPg := if |list| == 1 then hdr.nPg else 0;
        LogDirtyPage(pgno, nPg);
        assert fs[..k] + [fs[k]] == fs[..k + 1];
        list := list[1..];
        s := CommitStep(s);
      }
      assert fs[..|s0.dirty|] == fs;
      pDirty := list;
      CommitEnds(s0, s, State());
    }

    // btCommitTransaction, less the statistics it keeps.
    method CommitTransaction()
      requires Inv(State()) && CurTailOk(State()) && iTransactionLevel >= 2 && aSavepoint == []
      modifies this
      ensures Inv(State()) && iTransactionLevel == old(iTransactionLevel)
      ensures aSavepoint == [] && pDirty == [] && !bDirtyHdr && refs == old(refs)
      ensures CurDb(State()) == if old(bDirtyHdr) then S.Flush(CurDb(old(State())), enc) else CurDb(old(State()))
      ensures StoreDb(State()) == if old(bDirtyHdr || pDirty != []) then CurDb(State()) else StoreDb(old(State()))
    {
      hide Inv, CurDb, CurTailOk, Closing;
      ghost var s := State();
      DbhdrFlush();
      SameStore(s, State());
      ghost var s1 := State();
      CloseSavepoints(2, false);
      ClosedCommit(s1, State(), 0, 2);
      AllClosed(s1, State(), 2);
      DirtyCached(State());
      LogDirtyPages();
    }

    // sqlite4BtPagerCommit
    method Commit(iLevel: nat)
      requires Valid() && Tidy() && (iLevel == 0 ==> iTransactionLevel >= 1)
      modifies this
      ensures Valid() && S.WellFormed(old(Abs())) && Abs() == S.Commit(old(Abs()), iLevel, enc)
      ensures iTransactionLevel == if old(iTransactionLevel) < iLevel then old(iTransactionLevel) else iLevel
      ensures refs == old(refs)
    {
      hide Inv, CurDb, StoreDb, Closing, CurTailOk;
      AbsWellFormed(State(), iTransactionLevel, bDirtyHdr);
      if iTransactionLevel >= iLevel {
        ghost var s := State();
        CloseSavepoints(iLevel, false);
        ghost var s1 := State();
        ClosedCommit(s, s1, S.Depth(iLevel), iLevel);
        if iTransactionLevel >= 2 && iLevel < 2 {
          AllClosed(s, s1, iLevel);
          TailIsTidy(s);
          CommitTransaction();
        }
        iTransactionLevel := iLevel;
      }
    }

    // The loop of btRollbackTransaction: forget or reload every dirty page.
    method DropDirtyPages()
      requires Inv(State()) && CurTailOk(State()) && aSavepoint == []
      modifies `cache, `hash, `pDirty
      ensures Inv(State()) && pDirty == []
      ensures StoreDb(State()) == StoreDb(old(State()))
    {
      hide Inv, Core, CurTailOk, NoDup;
      ghost var s := State();
      var list := pDirty;
      while list != []
        invariant s == State().(dirty := list)
        invariant Inv(s) && CurTailOk(s) && s.sps == []
      {
        DropDirtyHead(s);
        DropDirtyPage(list[0]);
        list := list[1..];
        RollbackStepKeeps(s, hash);
        s := RollbackStep(s, hash);
      }
      pDirty := list;
      SameStore(old(State()), State());
    }

    method DropDirtyPage(q: nat)
      requires q in cache && Files(hash, cache.Keys)
      modifies `cache, `hash
      ensures Files(hash, cache.Keys)
      ensures cache == if old(cache)[q].nRef == 0 then old(cache) - {q}
                       else old(cache)[q := old(cache)[q].(dirty := false,
                              aData := if q <= hdr.nPg then Store(State(), q) else old(cache)[q].aData)]
      ensures old(cache)[q].nRef > 0 ==> hash == old(hash)
    {
      hide Files;
      cache := cache[q := cache[q].(dirty := false)];
      assert cache.Keys == old(cache).Keys;
      if cache[q].nRef == 0 {
        HashRemove(q, cache.Keys);
        cache := cache - {q};
        assert cache.Keys == old(cache).Keys - {q};
        assert cache == old(cache) - {q};
      } else if q <= hdr.nPg {
        cache := cache[q := cache[q].(aData := Stored(frames, file, pgsz, q))];
        assert cache.Keys == old(cache).Keys;
      }
    }

    // btRollbackTransaction
    method RollbackTransaction()
      requires Inv(State()) && CurTailOk(State()) && iTransactionLevel >= 2
      modifies this
      ensures Inv(State()) && iTransactionLevel == old(iTransactionLevel) && bDirtyHdr == old(bDirtyHdr)
      ensures aSavepoint == [] && pDirty == [] && refs == old(refs)
      ensures CurDb(State()) == StoreDb(State()) == StoreDb(old(State()))
    {
      hide Inv, CurDb, StoreDb, CurTailOk, Closing;
      ghost var s := State();
      CloseSavepoints(2, false);
      ClosedCommit(s, State(), 0, 2);
      AllClosed(s, State(), 2);
      DropDirtyPages();
      ghost var s1 := State();
      hdr := committedHdr;
      ReadBegins(s1, State());
      SameStore(s1, State());
    }

    // sqlite4BtPagerRollback
    method Rollback(iLevel: nat)
      requires Valid() && Tidy()
      modifies this
      ensures Valid() && S.WellFormed(old(Abs())) && Abs() == S.Rollback(old(Abs()), iLevel)
      ensures iTransactionLevel == if old(iTransactionLevel) < iLevel then old(iTransactionLevel) else iLevel
      ensures refs == old(refs)
    {
      hide Inv, CurDb, StoreDb, Closing, CurTailOk;
      AbsWellFormed(State(), iTransactionLevel, bDirtyHdr);
      if iTransactionLevel >= iLevel {
        if iTransactionLevel >= 2 {
          if iLevel <= 2 {
            TailIsTidy(State());
            RollbackTransaction();
          } else {
            RollbackSavepoint(iLevel);
          }
        }
        if iTransactionLevel > iLevel {
          iTransactionLevel := iLevel;
        }
      }
    }

    // Rolling back to level 3 or above closes the savepoint and opens it anew:
    // its entry in aSavepoint is still there, with an empty list.
    method RollbackSavepoint(iLevel: nat)
      requires Valid() && 3 <= iLevel <= iTransactionLevel
      modifies `cache, `aSavepoint, `hdr
      ensures Inv(State()) && |aSavepoint| == S.Depth(iLevel) && pDirty == old(pDirty)
      ensures CurDb(State()) == Saved(old(State()))[iLevel - 3]
      ensures Saved(State()) == Saved(old(State()))[..iLevel - 2]
      ensures StoreDb(State()) == StoreDb(old(State()))
    {
      hide Inv, CurDb, StoreDb, Closing, CurTailOk;
      ghost var s := State();
      var sp := aSavepoint[iLevel - 3];
      CloseSavepoints(iLevel - 1, true);
      ghost var s1 := State();
      ClosedRollback(s, s1, iLevel - 3, iLevel - 1);
      RollbackTail(s, s1, iLevel - 3, iLevel - 1);
      aSavepoint := aSavepoint + [sp.(pages := [])];
      Reopened(s1, State());
      assert Saved(s)[..iLevel - 3] + [Saved(s)[iLevel - 3]] == Saved(s)[..iLevel - 2];
    }

    // A client changes the header through sqlite4BtPagerDbhdr, and may flag
    // the change with sqlite4BtPagerDbhdrDirty.
    method SetHdr(h: DbHdr, flag: bool)
      requires Valid() && iTransactionLevel >= 2 && h.nPg >= hdr.nPg
      modifies `hdr, `bDirtyHdr
      ensures Valid() && Abs() == S.SetHdr(old(Abs()), h, flag)
    {
      hide Inv, CurDb, Saved, StoreDb;
      hdr := h;
      bDirtyHdr := bDirtyHdr || flag;
      HdrChanges(old(State()), State());
    }

    // One page write of a client, all references returned.
    method Write(q: nat, data: Bytes)
      requires Valid() && iTransactionLevel >= 2
      modifies this
      ensures Valid() && Abs() == S.Write(old(Abs()), q, data) && refs == old(refs)
      ensures iTransactionLevel == old(iTransactionLevel)
    {
      hide Inv, CurDb, Saved, StoreDb, Kept;
      ghost var s := State();
      UpdatePage(q, _ => data);
      UpdatedDb(s, State(), q, data);
    }

    // ---- Every run

    // A page made writable and released again.
    method Mark(q: nat)
      requires Valid() && iTransactionLevel >= 2
      modifies this
      ensures Valid() && Abs() == S.Mark(old(Abs())) && refs == old(refs)
      ensures iTransactionLevel == old(iTransactionLevel)
    {
      hide Inv, Saved, StoreDb, Kept, Content;
      ghost var s := State();
      UpdatePage(q, d => d);
      UpdatedDb(s, State(), q, CurDb(s).pages[q]);
      assert CurDb(s).pages[q := CurDb(s).pages[q]] == CurDb(s).pages;
    }

    method Perform(op: S.Op)
      requires Valid() && S.AllTrimmed(Abs(), pgsz) && S.Enabled(Abs(), op, pgsz)
      modifies this
      ensures Valid() && S.WellFormed(old(Abs())) && Abs() == S.Step(old(Abs()), op, enc)
      ensures S.AllTrimmed(Abs(), pgsz) && refs == old(refs)
    {
      hide Inv, Saved, StoreDb;
      AbsWellFormed(State(), iTransactionLevel, bDirtyHdr);
      S.StepTrimmed(Abs(), op, pgsz, enc);
      match op {
        case OpBegin(l) => Begin(l);
        case OpCommit(l) => Commit(l);
        case OpRollback(l) => Rollback(l);
        case OpMark(q) => Mark(q);
        case OpWrite(q, data) => Write(q, data);
        case OpSetHdr(h, flag) => SetHdr(h, flag);
      }
    }

    // Any run of the pager is a run of the snapshot stack.
    method Run(ops: seq<S.Op>)
      requires Valid() && S.AllTrimmed(Abs(), pgsz)
      requires S.WellFormed(Abs()) && S.AllEnabled(Abs(), ops, pgsz, enc)
      modifies this
      ensures Valid() && Abs() == S.Run(old(Abs()), ops, pgsz, enc)
      ensures S.AllTrimmed(Abs(), pgsz) && refs == old(refs)
      decreases |ops|
    {
      hide Inv, CurDb, Saved, StoreDb;
      if ops != [] {
        Perform(ops[0]);
        Run(ops[1..]);
      }
    }
  }
}

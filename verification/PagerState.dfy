// The invariant of the pager, and why each kind of change keeps it. All on
// values: Pager.dfy applies these lemmas to the fields it updates in place.

module PagerState {
  import opened PageTypes
  import opened UndoList
  import opened PageHash

  // One sqlite4BtLogWrite() call; nPg > 0 marks a commit frame.
  datatype Frame = Frame(pgno: nat, aData: Bytes, nPg: nat)

  // struct BtSavepoint: pages lists the pages with an image at level iLevel.
  datatype Savepoint = Savepoint(iLevel: nat, pages: seq<nat>, hdr: DbHdr)

  type Cache = map<nat, BtPage>

  // The fields of a BtPager and of the log below it; refs are the page
  // references clients hold.
  datatype St = St(
    file: map<nat, Bytes>, pgsz: nat,
    frames: seq<Frame>, committedHdr: DbHdr,
    hash: BtPageHash, cache: Cache, lru: seq<nat>, dirty: seq<nat>,
    nTotalRef: nat, refs: multiset<nat>,
    sps: seq<Savepoint>, hdr: DbHdr)

  // btLoadPageData: the newest frame of the page, else the database file, else
  // (past the end of the file) zeros.
  function Stored(frames: seq<Frame>, file: map<nat, Bytes>, pgsz: nat, q: nat): Bytes {
    if frames == [] then (if q in file then file[q] else Zeros(pgsz))
    else if frames[|frames| - 1].pgno == q then frames[|frames| - 1].aData
    else Stored(frames[..|frames| - 1], file, pgsz, q)
  }

  function Store(s: St, q: nat): Bytes {
    Stored(s.frames, s.file, s.pgsz, q)
  }

  // The content of page q that a PageGet returns.
  function Content(s: St, q: nat): Bytes {
    if q in s.cache then s.cache[q].aData else Store(s, q)
  }

  // Content of page q when savepoint level l was opened.
  function Snap(s: St, l: nat, q: nat): Bytes {
    if q in s.cache then ViewAt(s.cache[q].aData, s.cache[q].saves, l) else Store(s, q)
  }

  // ---- Invariant

  ghost predicate HashOk(s: St) {
    Files(s.hash, s.cache.Keys)
  }

  ghost predicate LruOk(s: St) {
    && NoDup(s.lru)
    && (forall q: nat :: q in s.lru <==> q in s.cache && s.cache[q].nRef == 0 && !s.cache[q].dirty)
  }

  ghost predicate RefsOk(s: St) {
    && s.nTotalRef == |s.refs|
    && (forall q: nat :: s.refs[q] == if q in s.cache then s.cache[q].nRef else 0)
  }

  ghost predicate CleanOk(s: St) {
    forall q: nat | q in s.cache && !s.cache[q].dirty :: s.cache[q].aData == Store(s, q)
  }

  ghost predicate DirtyOk(s: St) {
    && NoDup(s.dirty)
    && (forall q: nat :: q in s.dirty <==> q in s.cache && s.cache[q].dirty)
  }

  function Top(s: St): nat {
    |s.sps| + 2
  }

  ghost predicate SavesOk(s: St) {
    forall q: nat | q in s.cache ::
      Desc(s.cache[q].saves, Top(s)) && (s.cache[q].saves != [] ==> s.cache[q].dirty)
  }

  // Savepoint j lists exactly the pages that own an image of its level.
  ghost predicate Linked(c: Cache, sp: Savepoint, l: nat) {
    && sp.iLevel == l
    && NoDup(sp.pages)
    && (forall q: nat :: q in sp.pages <==> q in c && HasLevel(c[q].saves, l))
  }

  ghost predicate AllLinked(s: St) {
    forall j | 0 <= j < |s.sps| :: Linked(s.cache, s.sps[j], j + 3)
  }

  // Nothing but zeros past the end of the file in the saved snapshots.
  ghost predicate TailOk(s: St, l: nat, nPg: nat) {
    forall q: nat | q > nPg :: Snap(s, l, q) == Zeros(s.pgsz)
  }

  ghost predicate TailsOk(s: St) {
    && s.committedHdr.nPg >= 1
    && (forall q: nat | q > s.committedHdr.nPg :: Store(s, q) == Zeros(s.pgsz))
    && (forall j | 0 <= j < |s.sps| ::
          TailOk(s, j + 3, s.sps[j].hdr.nPg) && s.sps[j].hdr.nPg >= s.committedHdr.nPg)
    && s.hdr.nPg >= s.committedHdr.nPg
  }

  ghost predicate Core(s: St) {
    HashOk(s) && LruOk(s) && RefsOk(s) && CleanOk(s) && DirtyOk(s) && SavesOk(s) && AllLinked(s)
  }

  ghost predicate Inv(s: St) {
    Core(s) && TailsOk(s)
  }

  // The same content in every page and in every snapshot.
  ghost predicate SameViews(s: St, s': St) {
    && (forall q: nat :: Content(s', q) == Content(s, q))
    && (forall l: nat, q: nat :: Snap(s', l, q) == Snap(s, l, q))
  }

  lemma NoChange(s: St)
    ensures SameViews(s, s)
  {
  }

  lemma SameViewsTrans(s: St, t: St, u: St)
    requires SameViews(s, t) && SameViews(t, u)
    ensures SameViews(s, u)
  {
  }

  // A page past the end of the file is all zeros in the store as well, and a
  // page that is not cached shows what the store holds.
  lemma PastEnd(s: St, q: nat)
    requires Inv(s)
    ensures q > s.hdr.nPg ==> Store(s, q) == Zeros(s.pgsz)
  {
  }

  // ---- Cached pages come and go and change their reference counts, no more

  ghost predicate Moves(s: St, s': St) {
    && s' == s.(hash := s'.hash, cache := s'.cache, lru := s'.lru, nTotalRef := s'.nTotalRef, refs := s'.refs)
    && (forall q | q in s.cache && q in s'.cache :: s'.cache[q] == s.cache[q].(nRef := s'.cache[q].nRef))
    && (forall q | q in s.cache && q !in s'.cache :: !s.cache[q].dirty)
    && (forall q | q !in s.cache && q in s'.cache :: s'.cache[q] == BtPage(Store(s, q), s'.cache[q].nRef, false, []))
  }

  lemma MoveViews(s: St, s': St)
    requires Moves(s, s') && CleanOk(s) && SavesOk(s)
    ensures SameViews(s, s') && CleanOk(s') && SavesOk(s')
  {
  }

  lemma MoveLists(s: St, s': St)
    requires Moves(s, s') && SavesOk(s) && DirtyOk(s) && AllLinked(s)
    ensures DirtyOk(s') && AllLinked(s')
  {
    forall j | 0 <= j < |s'.sps|
      ensures Linked(s'.cache, s'.sps[j], j + 3)
    {
      assert Linked(s.cache, s.sps[j], j + 3);
    }
  }

  lemma SameTails(s: St, s': St)
    requires SameViews(s, s') && TailsOk(s)
    requires s'.frames == s.frames && s'.file == s.file && s'.pgsz == s.pgsz
    requires s'.committedHdr == s.committedHdr && s'.hdr.nPg >= s.hdr.nPg
    requires |s'.sps| == |s.sps| && forall j | 0 <= j < |s.sps| :: s'.sps[j].hdr == s.sps[j].hdr
    ensures TailsOk(s')
  {
    assert forall q: nat :: Store(s', q) == Store(s, q);
    forall j | 0 <= j < |s.sps|
      ensures TailOk(s', j + 3, s'.sps[j].hdr.nPg)
    {
      assert TailOk(s, j + 3, s.sps[j].hdr.nPg);
    }
  }

  lemma MoveKeeps(s: St, s': St)
    requires Moves(s, s') && Inv(s) && HashOk(s') && LruOk(s') && RefsOk(s')
    ensures Inv(s') && SameViews(s, s')
  {
    hide HashOk, LruOk, RefsOk, CleanOk, DirtyOk, SavesOk, AllLinked, TailsOk, SameViews;
    MoveViews(s, s');
    MoveLists(s, s');
    SameTails(s, s');
  }

  // The same list without q.
  ghost predicate LruWithout(lru: seq<nat>, q: nat, lru': seq<nat>) {
    NoDup(lru') && forall r: nat :: r in lru' <==> r in lru && r != q
  }

  lemma DropFirst(d: seq<nat>)
    requires NoDup(d) && d != []
    ensures LruWithout(d, d[0], d[1..])
  {
  }

  lemma LruHead(s: St)
    requires Inv(s) && s.lru != []
    ensures s.lru[0] in s.cache && s.cache[s.lru[0]].nRef == 0 && !s.cache[s.lru[0]].dirty
  {
    assert s.lru[0] in s.lru;
  }

  lemma LruHolds(s: St, q: nat)
    requires Inv(s) && q in s.cache && s.cache[q].nRef == 0 && !s.cache[q].dirty
    ensures q in s.lru && NoDup(s.lru)
  {
  }

  lemma RefCounted(s: St, q: nat)
    requires RefsOk(s) && q in s.cache && s.cache[q].nRef >= 1
    ensures s.refs[q] > 0 && s.nTotalRef >= 1
  {
    assert s.refs[q] > 0;
  }

  // Eviction of the head of the LRU list.
  lemma EvictLists(s: St, s': St)
    requires LruOk(s) && RefsOk(s) && s.lru != []
    requires s'.cache == s.cache - {s.lru[0]} && s'.lru == s.lru[1..]
    requires s'.refs == s.refs && s'.nTotalRef == s.nTotalRef
    ensures LruOk(s') && RefsOk(s')
  {
    assert s.lru[0] in s.lru;
    DropFirst(s.lru);
  }

  lemma EvictKeeps(s: St, s': St)
    requires Inv(s) && s.lru != []
    requires s' == s.(hash := s'.hash, cache := s.cache - {s.lru[0]}, lru := s.lru[1..]) && HashOk(s')
    ensures Inv(s') && SameViews(s, s')
  {
    hide HashOk, LruOk, RefsOk, CleanOk, DirtyOk, SavesOk, AllLinked, TailsOk, SameViews;
    LruHead(s);
    EvictLists(s, s');
    MoveKeeps(s, s');
  }

  // A reference to a page that is not cached yet.
  lemma LoadLists(s: St, s': St, q: nat)
    requires LruOk(s) && RefsOk(s) && q !in s.cache
    requires exists d: Bytes :: s'.cache == s.cache[q := BtPage(d, 1, false, [])]
    requires s'.lru == s.lru && s'.refs == s.refs + multiset{q} && s'.nTotalRef == s.nTotalRef + 1
    ensures LruOk(s') && RefsOk(s')
  {
  }

  lemma LoadKeeps(s: St, s': St, q: nat)
    requires Inv(s) && q !in s.cache && HashOk(s')
    requires s' == s.(hash := s'.hash, cache := s.cache[q := BtPage(Store(s, q), 1, false, [])],
                      nTotalRef := s.nTotalRef + 1, refs := s.refs + multiset{q})
    ensures Inv(s') && SameViews(s, s')
  {
    hide HashOk, LruOk, RefsOk, CleanOk, DirtyOk, SavesOk, AllLinked, TailsOk, SameViews;
    LoadLists(s, s', q);
    MoveKeeps(s, s');
  }

  lemma SameKeys(s: St, s': St)
    requires HashOk(s) && s'.hash == s.hash && s'.cache.Keys == s.cache.Keys
    ensures HashOk(s')
  {
  }

  // One more reference to a cached page.
  lemma AcquireLists(s: St, s': St, q: nat)
    requires LruOk(s) && RefsOk(s) && q in s.cache
    requires if s.cache[q].nRef == 0 && !s.cache[q].dirty then LruWithout(s.lru, q, s'.lru) else s'.lru == s.lru
    requires s'.cache == s.cache[q := s.cache[q].(nRef := s.cache[q].nRef + 1)]
    requires s'.nTotalRef == s.nTotalRef + 1 && s'.refs == s.refs + multiset{q}
    ensures LruOk(s') && RefsOk(s')
  {
  }

  lemma AcquireKeeps(s: St, s': St, q: nat)
    requires Inv(s) && q in s.cache
    requires if s.cache[q].nRef == 0 && !s.cache[q].dirty then LruWithout(s.lru, q, s'.lru) else s'.lru == s.lru
    requires s' == s.(cache := s.cache[q := s.cache[q].(nRef := s.cache[q].nRef + 1)],
                      lru := s'.lru, nTotalRef := s.nTotalRef + 1, refs := s.refs + multiset{q})
    ensures Inv(s') && SameViews(s, s')
  {
    hide HashOk, LruOk, RefsOk, CleanOk, DirtyOk, SavesOk, AllLinked, TailsOk, SameViews;
    hide LruWithout;
    AcquireLists(s, s', q);
    SameKeys(s, s');
    MoveKeeps(s, s');
  }

  // One reference less; the last one puts a clean page on the LRU list.
  lemma ReleaseLists(s: St, s': St, q: nat)
    requires LruOk(s) && RefsOk(s) && q in s.cache && s.cache[q].nRef >= 1
    requires s'.lru == if s.cache[q].nRef == 1 && !s.cache[q].dirty then s.lru + [q] else s.lru
    requires s'.cache == s.cache[q := s.cache[q].(nRef := s.cache[q].nRef - 1)]
    requires s'.nTotalRef == s.nTotalRef - 1 && s'.refs == s.refs - multiset{q}
    ensures LruOk(s') && RefsOk(s')
  {
    assert s.refs[q] > 0;
  }

  lemma ReleaseKeeps(s: St, s': St, q: nat)
    requires Inv(s) && q in s.cache && s.cache[q].nRef >= 1 && s.nTotalRef >= 1
    requires s'.lru == if s.cache[q].nRef == 1 && !s.cache[q].dirty then s.lru + [q] else s.lru
    requires s' == s.(cache := s.cache[q := s.cache[q].(nRef := s.cache[q].nRef - 1)],
                      lru := s'.lru, nTotalRef := s.nTotalRef - 1, refs := s.refs - multiset{q})
    ensures Inv(s') && SameViews(s, s')
  {
    hide HashOk, LruOk, RefsOk, CleanOk, DirtyOk, SavesOk, AllLinked, TailsOk, SameViews;
    ReleaseLists(s, s', q);
    SameKeys(s, s');
    MoveKeeps(s, s');
  }

  // ---- Undo lists

  // The snapshots of savepoint levels up to l are the same.
  ghost predicate Kept(s: St, s': St, l: nat) {
    forall m: nat, q: nat | 3 <= m <= l :: Snap(s', m, q) == Snap(s, m, q)
  }

  // A client may change page q: PageWrite has run at the current level.
  predicate Writable(s: St, q: nat) {
    && q in s.cache && s.cache[q].dirty
    && (s.sps != [] ==> s.cache[q].saves != [] && s.cache[q].saves[0].iSavepoint == Top(s))
  }

  function PushPage(sps: seq<Savepoint>, j: nat, q: nat): seq<Savepoint>
    requires j < |sps|
  {
    sps[j := sps[j].(pages := [q] + sps[j].pages)]
  }

  // btAddToSavepoint
  function AddToSavepoint(s: St, q: nat): St
    requires q in s.cache && s.sps != []
  {
    var pg := s.cache[q];
    var pg' := AddImage(pg, Top(s));
    s.(cache := s.cache[q := pg'],
       sps := if pg' == pg then s.sps else PushPage(s.sps, |s.sps| - 1, q))
  }

  lemma AddToSavepointLinks(s: St, q: nat)
    requires SavesOk(s) && AllLinked(s) && q in s.cache && s.sps != []
    ensures AllLinked(AddToSavepoint(s, q))
  {
    var s' := AddToSavepoint(s, q);
    var pg := s.cache[q];
    AddImageOk(pg, Top(s), pg.aData);
    forall j | 0 <= j < |s'.sps|
      ensures Linked(s'.cache, s'.sps[j], j + 3)
    {
      assert Linked(s.cache, s.sps[j], j + 3);
      if j == |s.sps| - 1 && s' != s && HasLevel(pg.saves, j + 3) {
        DescBounds(pg.saves[1..], pg.saves[0].iSavepoint - 1, j + 3);
      }
    }
  }

  lemma AddToSavepointViews(s: St, q: nat)
    requires SavesOk(s) && CleanOk(s) && q in s.cache && s.cache[q].dirty && s.sps != []
    ensures var s' := AddToSavepoint(s, q);
            CleanOk(s') &&
            SameContent(s, s') && Kept(s, s', Top(s)) && SavesOk(s')
  {
    AddImageOk(s.cache[q], Top(s), s.cache[q].aData);
  }

  ghost predicate SameContent(s: St, s': St) {
    forall q: nat :: Content(s', q) == Content(s, q)
  }

  lemma SameViewsWeaken(s: St, s': St, l: nat)
    requires SameViews(s, s')
    ensures SameContent(s, s') && Kept(s, s', l)
  {
  }

  lemma KeptTrans(s: St, t: St, u: St, l: nat)
    requires Kept(s, t, l) && Kept(t, u, l)
    ensures Kept(s, u, l)
    ensures SameContent(s, t) && SameContent(t, u) ==> SameContent(s, u)
  {
  }

  lemma DirtyListed(s: St, q: nat)
    requires DirtyOk(s) && q in s.cache && s.cache[q].dirty
    ensures s.dirty != []
  {
    assert q in s.dirty;
  }

  // The dirty half of sqlite4BtPageWrite.
  function MarkDirty(s: St, q: nat): St
    requires q in s.cache
  {
    if s.cache[q].dirty then s
    else s.(cache := s.cache[q := s.cache[q].(dirty := true)], dirty := [q] + s.dirty)
  }

  lemma MarkDirtyKeeps(s: St, q: nat)
    requires Inv(s) && q in s.cache && s.cache[q].nRef >= 1
    ensures Inv(MarkDirty(s, q)) && SameViews(s, MarkDirty(s, q))
  {
    hide HashOk, LruOk, RefsOk, CleanOk, DirtyOk, SavesOk, AllLinked, TailsOk, SameViews;
    var s' := MarkDirty(s, q);
    MarkDirtyViews(s, q);
    MarkDirtyLists(s, q);
    SameKeys(s, s');
    SameSaves(s, s');
    SameTails(s, s');
  }

  lemma MarkDirtyViews(s: St, q: nat)
    requires CleanOk(s) && SavesOk(s) && RefsOk(s) && q in s.cache
    ensures var s' := MarkDirty(s, q);
            CleanOk(s') && SavesOk(s') && RefsOk(s') && SameViews(s, s')
  {
  }

  lemma MarkDirtyLists(s: St, q: nat)
    requires LruOk(s) && DirtyOk(s) && q in s.cache && s.cache[q].nRef >= 1
    ensures LruOk(MarkDirty(s, q)) && DirtyOk(MarkDirty(s, q))
  {
    var d := MarkDirty(s, q).dirty;
    if !s.cache[q].dirty {
      assert q !in s.dirty;
      assert forall r: nat :: r in d <==> r == q || r in s.dirty;
    }
  }

  // Links depend only on the undo lists.
  lemma SameSaves(s: St, s': St)
    requires AllLinked(s) && s'.sps == s.sps && s'.cache.Keys == s.cache.Keys
    requires forall q | q in s.cache :: s'.cache[q].saves == s.cache[q].saves
    ensures AllLinked(s')
  {
    forall j | 0 <= j < |s'.sps|
      ensures Linked(s'.cache, s'.sps[j], j + 3)
    {
      assert Linked(s.cache, s.sps[j], j + 3);
    }
  }

  lemma AddToSavepointKeeps(s: St, q: nat)
    requires Inv(s) && q in s.cache && s.cache[q].dirty && s.sps != []
    ensures var s' := AddToSavepoint(s, q);
            Inv(s') && Writable(s', q) && SameContent(s, s') && Kept(s, s', Top(s))
  {
    hide HashOk, LruOk, RefsOk, CleanOk, DirtyOk, SavesOk, AllLinked, TailsOk, SameContent, Kept;
    var s' := AddToSavepoint(s, q);
    AddToSavepointLinks(s, q);
    AddToSavepointViews(s, q);
    SameKeys(s, s');
    SameLists(s, s');
    KeptTails(s, s', Top(s));
  }

  lemma KeptTails(s: St, s': St, l: nat)
    requires TailsOk(s) && Kept(s, s', l)
    requires s'.frames == s.frames && s'.file == s.file && s'.pgsz == s.pgsz
    requires s'.committedHdr == s.committedHdr
    requires s'.hdr.nPg >= s.hdr.nPg || s'.hdr.nPg >= s.committedHdr.nPg
    requires Top(s') <= l && |s'.sps| <= |s.sps|
    requires forall j | 0 <= j < |s'.sps| :: s'.sps[j].hdr == s.sps[j].hdr
    ensures TailsOk(s')
  {
    assert forall q: nat :: Store(s', q) == Store(s, q);
    forall j | 0 <= j < |s'.sps|
      ensures TailOk(s', j + 3, s'.sps[j].hdr.nPg)
    {
      assert TailOk(s, j + 3, s.sps[j].hdr.nPg);
    }
  }

  // Flags and undo lists change, but no content, reference or header.
  ghost predicate OnlyMarked(s: St, s': St) {
    && s' == s.(cache := s'.cache, dirty := s'.dirty, sps := s'.sps)
    && s'.cache.Keys == s.cache.Keys
    && (forall r | r in s.cache ::
          s'.cache[r] == s.cache[r].(dirty := s'.cache[r].dirty, saves := s'.cache[r].saves))
    && |s'.sps| == |s.sps|
    && (forall j | 0 <= j < |s.sps| :: s'.sps[j].hdr == s.sps[j].hdr)
  }

  lemma MarkedPage(s: St, s': St, q: nat)
    requires OnlyMarked(s, s') && q in s.cache
    ensures q in s'.cache && s'.cache[q].nRef == s.cache[q].nRef && s'.cache[q].aData == s.cache[q].aData
    ensures |s'.sps| == |s.sps| && forall j | 0 <= j < |s.sps| :: s'.sps[j].hdr == s.sps[j].hdr
    ensures s'.refs == s.refs && s'.hdr == s.hdr && s'.frames == s.frames && s'.committedHdr == s.committedHdr
  {
  }

  // sqlite4BtPageWrite saves the image first and sets the flag second.
  lemma PageWriteKeeps(s: St, s': St, q: nat)
    requires Inv(s) && q in s.cache && s.cache[q].nRef >= 1
    requires s' == MarkDirty(if s.sps == [] then s else AddToSavepoint(s, q), q)
    ensures Inv(s') && Writable(s', q)
    ensures SameContent(s, s') && Kept(s, s', Top(s))
    ensures s'.dirty != [] && OnlyMarked(s, s')
  {
    hide HashOk, LruOk, RefsOk, CleanOk, DirtyOk, SavesOk, AllLinked, TailsOk, SameViews, SameContent, Kept;
    MarkDirtyKeeps(s, q);
    var m := MarkDirty(s, q);
    SameViewsWeaken(s, m, Top(s));
    if s.sps != [] {
      AddToSavepointKeeps(m, q);
      assert s' == AddToSavepoint(m, q);
      KeptTrans(s, m, s', Top(s));
    }
    DirtyListed(s', q);
  }

  // A client overwrites a page it may write.
  function SetData(s: St, q: nat, data: Bytes): St
    requires q in s.cache
  {
    s.(cache := s.cache[q := s.cache[q].(aData := data)])
  }

  lemma SetDataKeeps(s: St, q: nat, data: Bytes)
    requires Inv(s) && Writable(s, q)
    ensures var s' := SetData(s, q, data);
            && Inv(s') && Kept(s, s', Top(s)) && Writable(s', q)
            && (forall r: nat :: Content(s', r) == if r == q then data else Content(s, r))
  {
    hide HashOk, LruOk, RefsOk, DirtyOk, AllLinked, TailsOk;
    var s' := SetData(s, q, data);
    SameKeys(s, s');
    SameLists(s, s');
    SameSaves(s, s');
    forall m: nat, r: nat | 3 <= m <= Top(s)
      ensures Snap(s', m, r) == Snap(s, m, r)
    {
      if r == q && s.sps != [] {
        assert s.cache[q].saves[0].iSavepoint >= m;
      }
    }
    KeptTails(s, s', Top(s));
  }

  // ---- Opening and closing savepoints

  // btOpenSavepoints: levels Top + 1 to top, all with the current header.
  function OpenSavepoints(s: St, n: nat): St {
    s.(sps := s.sps + seq(n, i requires 0 <= i => Savepoint(|s.sps| + i + 3, [], s.hdr)))
  }

  ghost predicate CurTailOk(s: St) {
    forall q: nat | q > s.hdr.nPg :: Content(s, q) == Zeros(s.pgsz)
  }

  lemma NewTail(s: St, s': St, l: nat)
    requires CurTailOk(s) && s'.pgsz == s.pgsz
    requires forall q: nat :: Snap(s', l, q) == Content(s, q)
    ensures TailOk(s', l, s.hdr.nPg)
  {
  }

  lemma OpenSavepointsKeeps(s: St, n: nat)
    requires Inv(s) && CurTailOk(s)
    ensures var s' := OpenSavepoints(s, n);
            && Inv(s') && SameViews(s, s')
            && (forall l: nat, q: nat | Top(s) < l <= Top(s') :: Snap(s', l, q) == Content(s, q))
  {
    hide HashOk;
    var s' := OpenSavepoints(s, n);
    SameKeys(s, s');
    forall q: nat | q in s.cache
      ensures Desc(s.cache[q].saves, Top(s'))
      ensures forall l: nat | l > Top(s) :: ViewAt(s.cache[q].aData, s.cache[q].saves, l) == s.cache[q].aData
      ensures forall l: nat | l > Top(s) :: !HasLevel(s.cache[q].saves, l)
    {
      DescWiden(s.cache[q].saves, Top(s), Top(s'));
      forall l: nat | l > Top(s)
        ensures ViewAt(s.cache[q].aData, s.cache[q].saves, l) == s.cache[q].aData
        ensures !HasLevel(s.cache[q].saves, l)
      {
        NoImages(s.cache[q], Top(s), l);
        if HasLevel(s.cache[q].saves, l) {
          DescBounds(s.cache[q].saves, Top(s), l);
        }
      }
    }
    assert LruOk(s') && RefsOk(s') && DirtyOk(s');
    forall j | 0 <= j < |s'.sps|
      ensures Linked(s'.cache, s'.sps[j], j + 3)
    {
      if j < |s.sps| {
        assert Linked(s.cache, s.sps[j], j + 3);
      }
    }
    assert forall q: nat :: Store(s', q) == Store(s, q);
    assert forall l: nat, q: nat | Top(s) < l :: Snap(s', l, q) == Content(s, q);
    assert SameViews(s, s');
    forall j | 0 <= j < |s'.sps|
      ensures TailOk(s', j + 3, s'.sps[j].hdr.nPg)
    {
      if j < |s.sps| {
        assert TailOk(s, j + 3, s.sps[j].hdr.nPg);
      } else {
        NewTail(s, s', j + 3);
      }
    }
  }

  // One round of the inner loop of btCloseSavepoints: the first page on the
  // list of the innermost savepoint, on the way to level k.
  function CloseStep(s: St, k: nat, rollback: bool): St
    requires SavesOk(s) && AllLinked(s)
    requires s.sps != [] && s.sps[|s.sps| - 1].pages != [] && k < Top(s)
  {
    var n := |s.sps| - 1;
    var q := s.sps[n].pages[0];
    assert Linked(s.cache, s.sps[n], n + 3) && q in s.sps[n].pages;
    var pg := s.cache[q];
    var sps1 := s.sps[n := s.sps[n].(pages := s.sps[n].pages[1..])];
    assert pg.saves[1..] != [] && Desc(pg.saves, Top(s)) ==> Desc(pg.saves[1..], pg.saves[0].iSavepoint - 1);
    s.(cache := s.cache[q := CloseImage(pg, k, rollback)],
       sps := if !rollback && Relevels(pg, k) then PushPage(sps1, k - 3, q) else sps1)
  }

  // Its image heads the list of the page (the assert at line 446).
  lemma HeadImage(s: St, q: nat)
    requires SavesOk(s) && AllLinked(s)
    requires s.sps != [] && q in s.sps[|s.sps| - 1].pages
    ensures q in s.cache && s.cache[q].saves != [] && s.cache[q].saves[0].iSavepoint == Top(s)
    ensures NextLevel(s.cache[q].saves) >= 2
  {
    var n := |s.sps| - 1;
    assert Linked(s.cache, s.sps[n], n + 3);
    var v := s.cache[q].saves;
    assert |v| > 1 ==> Desc(v[1..], v[0].iSavepoint - 1);
    if v[0].iSavepoint != Top(s) {
      DescBounds(v[1..], v[0].iSavepoint - 1, Top(s));
    }
  }

  lemma CloseStepLinks(s: St, k: nat, rollback: bool)
    requires SavesOk(s) && AllLinked(s)
    requires s.sps != [] && s.sps[|s.sps| - 1].pages != [] && k < Top(s)
    ensures AllLinked(CloseStep(s, k, rollback))
  {
    var s' := CloseStep(s, k, rollback);
    var n := |s.sps| - 1;
    var q := s.sps[n].pages[0];
    HeadImage(s, q);
    CloseImageOk(s.cache[q], Top(s), k, rollback);
    forall j | 0 <= j < |s'.sps|
      ensures Linked(s'.cache, s'.sps[j], j + 3)
    {
      assert Linked(s.cache, s.sps[j], j + 3);
    }
  }

  lemma CloseStepKeeps(s: St, k: nat, rollback: bool)
    requires Core(s)
    requires s.sps != [] && s.sps[|s.sps| - 1].pages != [] && k < Top(s)
    ensures var s' := CloseStep(s, k, rollback);
            && Core(s')
            && Kept(s, s', if rollback then Top(s) else k)
            && (!rollback ==> SameContent(s, s'))
  {
    var s' := CloseStep(s, k, rollback);
    var q := s.sps[|s.sps| - 1].pages[0];
    hide HashOk, LruOk, RefsOk, CleanOk, DirtyOk, SavesOk, AllLinked, SameContent, Kept;
    HeadImage(s, q);
    CloseStepViews(s, k, rollback);
    CloseStepLinks(s, k, rollback);
    SameKeys(s, s');
    SameLists(s, s');
  }

  lemma CloseStepViews(s: St, k: nat, rollback: bool)
    requires SavesOk(s) && AllLinked(s) && CleanOk(s)
    requires s.sps != [] && s.sps[|s.sps| - 1].pages != [] && k < Top(s)
    ensures var s' := CloseStep(s, k, rollback);
            && SavesOk(s') && CleanOk(s')
            && Kept(s, s', if rollback then Top(s) else k)
            && (!rollback ==> SameContent(s, s'))
  {
    var s' := CloseStep(s, k, rollback);
    var q := s.sps[|s.sps| - 1].pages[0];
    HeadImage(s, q);
    CloseImageOk(s.cache[q], Top(s), k, rollback);
    DescWiden(s'.cache[q].saves, Top(s) - 1, Top(s));
  }

  // The LRU list, the dirty list and the counts depend only on flags and counts.
  lemma SameLists(s: St, s': St)
    requires LruOk(s) && RefsOk(s) && DirtyOk(s)
    requires s'.lru == s.lru && s'.dirty == s.dirty && s'.refs == s.refs && s'.nTotalRef == s.nTotalRef
    requires s'.cache.Keys == s.cache.Keys
    requires forall q | q in s.cache ::
               s'.cache[q].nRef == s.cache[q].nRef && s'.cache[q].dirty == s.cache[q].dirty
    ensures LruOk(s') && RefsOk(s') && DirtyOk(s')
  {
  }

  // The outer loop: a savepoint whose list is empty is gone.
  function PopSavepoint(s: St): St
    requires s.sps != []
  {
    s.(sps := s.sps[..|s.sps| - 1])
  }

  lemma PopSavepointKeeps(s: St)
    requires Core(s) && s.sps != [] && s.sps[|s.sps| - 1].pages == []
    ensures Core(PopSavepoint(s)) && SameViews(s, PopSavepoint(s))
    ensures forall q: nat :: Snap(s, Top(s), q) == Content(s, q)
  {
    hide HashOk;
    var s' := PopSavepoint(s);
    SameKeys(s, s');
    var n := |s.sps| - 1;
    assert Linked(s.cache, s.sps[n], n + 3);
    forall q: nat | q in s.cache
      ensures Desc(s.cache[q].saves, Top(s'))
      ensures ViewAt(s.cache[q].aData, s.cache[q].saves, Top(s)) == s.cache[q].aData
    {
      assert !HasLevel(s.cache[q].saves, n + 3);
      NoImages(s.cache[q], Top(s'), Top(s));
    }
    assert LruOk(s') && RefsOk(s') && DirtyOk(s');
    forall j | 0 <= j < |s'.sps|
      ensures Linked(s'.cache, s'.sps[j], j + 3)
    {
      assert Linked(s.cache, s.sps[j], j + 3);
    }
  }

  // ---- Committing and rolling back the write transaction, page by page

  // One round of the loop of btCommitTransaction.
  function CommitStep(s: St): St
    requires s.dirty != [] && s.dirty[0] in s.cache
  {
    var q := s.dirty[0];
    var pg := s.cache[q].(dirty := false);
    s.(frames := s.frames + [Frame(q, pg.aData, if |s.dirty| == 1 then s.hdr.nPg else 0)],
       cache := s.cache[q := pg], dirty := s.dirty[1..],
       lru := if pg.nRef == 0 then s.lru + [q] else s.lru)
  }

  lemma StoredAppend(f: seq<Frame>, x: Frame, file: map<nat, Bytes>, pgsz: nat, q: nat)
    ensures Stored(f + [x], file, pgsz, q) == if q == x.pgno then x.aData else Stored(f, file, pgsz, q)
  {
    assert (f + [x])[..|f|] == f;
  }

  lemma CommitStepViews(s: St)
    requires CleanOk(s) && SavesOk(s) && s.sps == [] && s.dirty != [] && s.dirty[0] in s.cache
    ensures var s' := CommitStep(s);
            CleanOk(s') && SavesOk(s') && SameContent(s, s')
  {
    var q := s.dirty[0];
    var s' := CommitStep(s);
    forall r: nat
      ensures Store(s', r) == if r == q then s.cache[q].aData else Store(s, r)
    {
      StoredAppend(s.frames, s'.frames[|s.frames|], s.file, s.pgsz, r);
    }
  }

  lemma CommitStepLists(s: St)
    requires LruOk(s) && RefsOk(s) && DirtyOk(s) && s.dirty != [] && s.dirty[0] in s.cache
    ensures var s' := CommitStep(s);
            LruOk(s') && RefsOk(s') && DirtyOk(s')
  {
    assert s.dirty[0] in s.dirty;
    DropFirst(s.dirty);
  }

  lemma CommitStepKeeps(s: St)
    requires Core(s) && s.sps == [] && s.dirty != [] && s.dirty[0] in s.cache
    ensures Core(CommitStep(s)) && SameContent(s, CommitStep(s))
  {
    hide HashOk, LruOk, RefsOk, CleanOk, DirtyOk, SavesOk, SameContent;
    CommitStepViews(s);
    CommitStepLists(s);
    SameKeys(s, CommitStep(s));
  }

  lemma DirtyHead(s: St)
    requires DirtyOk(s) && s.dirty != []
    ensures s.dirty[0] in s.cache && s.cache[s.dirty[0]].dirty
  {
    assert s.dirty[0] in s.dirty;
  }

  // One round of the loop of btRollbackTransaction.
  function RollbackStep(s: St, h: BtPageHash): St
    requires s.dirty != [] && s.dirty[0] in s.cache
  {
    var q := s.dirty[0];
    var pg := s.cache[q].(dirty := false);
    s.(hash := h, cache := if pg.nRef == 0 then s.cache - {q}
                else s.cache[q := if q <= s.hdr.nPg then pg.(aData := Store(s, q)) else pg],
       dirty := s.dirty[1..])
  }

  lemma RollbackStepLists(s: St, h: BtPageHash)
    requires LruOk(s) && RefsOk(s) && DirtyOk(s) && s.dirty != [] && s.dirty[0] in s.cache
    ensures var s' := RollbackStep(s, h);
            LruOk(s') && RefsOk(s') && DirtyOk(s')
  {
    assert s.dirty[0] in s.dirty;
    DropFirst(s.dirty);
  }

  lemma RollbackStepViews(s: St, h: BtPageHash)
    requires CleanOk(s) && SavesOk(s) && TailsOk(s) && CurTailOk(s)
    requires s.sps == [] && s.dirty != [] && s.dirty[0] in s.cache
    ensures var s' := RollbackStep(s, h);
            CleanOk(s') && CurTailOk(s') && SavesOk(s')
  {
    var q := s.dirty[0];
    var s' := RollbackStep(s, h);
    assert forall r: nat :: Store(s', r) == Store(s, r);
    assert Content(s, q) == s.cache[q].aData;
    forall r: nat | r > s'.hdr.nPg
      ensures Content(s', r) == Zeros(s.pgsz)
    {
      assert Content(s, r) == Zeros(s.pgsz) && Store(s, r) == Zeros(s.pgsz);
    }
  }

  lemma RollbackStepKeeps(s: St, h: BtPageHash)
    requires Inv(s) && CurTailOk(s) && s.sps == [] && s.dirty != [] && s.dirty[0] in s.cache
    requires HashOk(RollbackStep(s, h))
    ensures Inv(RollbackStep(s, h)) && CurTailOk(RollbackStep(s, h))
  {
    hide HashOk, LruOk, RefsOk, CleanOk, DirtyOk, SavesOk, CurTailOk;
    var s' := RollbackStep(s, h);
    RollbackStepLists(s, h);
    RollbackStepViews(s, h);
    assert forall r: nat :: Store(s', r) == Store(s, r);
  }

  // With no dirty page left, what clients see is what the log holds, and so is
  // what a rollback to any level would give.
  lemma AllClean(s: St)
    requires Core(s) && s.dirty == []
    ensures forall q: nat :: Content(s, q) == Store(s, q)
    ensures forall l: nat, q: nat :: Snap(s, l, q) == Store(s, q)
  {
    forall q: nat
      ensures Content(s, q) == Store(s, q)
      ensures forall l: nat :: Snap(s, l, q) == Store(s, q)
    {
      assert q !in s.dirty;
    }
  }

  // ---- btCloseSavepoints as a whole

  // What closing down to n savepoints has done while i of them remain: k is
  // the new transaction level.
  ghost predicate Closing(s0: St, s: St, i: nat, k: nat, rollback: bool) {
    && Core(s)
    && i == |s.sps| <= |s0.sps|
    && (forall j | 0 <= j < i :: s.sps[j].hdr == s0.sps[j].hdr)
    && s == s0.(cache := s.cache, sps := s.sps, hdr := s.hdr)
    && SameFlags(s0, s)
    && (if rollback
        then (i < |s0.sps| ==> s.hdr == s0.sps[i].hdr && Restored(s0, s, i + 3)) && Kept(s0, s, i + 2)
        else SameContent(s0, s) && Kept(s0, s, k))
    && (i == |s0.sps| || !rollback ==> s.hdr == s0.hdr)
  }

  // The content is back to what it was when level l was opened.
  ghost predicate Restored(s0: St, s: St, l: nat) {
    forall q: nat :: Content(s, q) == Snap(s0, l, q)
  }

  ghost predicate SameFlags(s: St, s': St) {
    && s'.cache.Keys == s.cache.Keys
    && (forall q | q in s.cache ::
          s'.cache[q].nRef == s.cache[q].nRef && s'.cache[q].dirty == s.cache[q].dirty)
  }

  // The same with savepoint i half closed: its list still holds the pages to do.
  ghost predicate HalfClosed(s0: St, s: St, i: nat, k: nat, rollback: bool) {
    && Core(s)
    && i + 1 == |s.sps| <= |s0.sps|
    && (forall j | 0 <= j <= i :: s.sps[j].hdr == s0.sps[j].hdr)
    && s == s0.(cache := s.cache, sps := s.sps, hdr := s.hdr)
    && SameFlags(s0, s)
    && s.hdr == (if rollback then s0.sps[i].hdr else s0.hdr)
    && Kept(s0, s, if rollback then i + 3 else k)
    && (!rollback ==> SameContent(s0, s))
  }

  lemma CloseBegins(s0: St)
    requires Core(s0)
    ensures forall k: nat, rb: bool :: Closing(s0, s0, |s0.sps|, k, rb)
  {
  }

  lemma SavepointBegins(s0: St, s: St, s': St, i: nat, k: nat, rollback: bool)
    requires Closing(s0, s, i + 1, k, rollback)
    requires s' == s.(hdr := if rollback then s0.sps[i].hdr else s.hdr)
    ensures HalfClosed(s0, s', i, k, rollback)
  {
    hide LruOk, HashOk, RefsOk, DirtyOk, Core;
    CoreHdr(s, s');
    assert SameContent(s, s') && Kept(s, s', i + 3);
  }

  lemma CoreHdr(s: St, s': St)
    requires Core(s) && s' == s.(hdr := s'.hdr)
    ensures Core(s')
  {
    hide Files;
  }

  lemma ClosingHdr(s0: St, s: St, i: nat, k: nat, rollback: bool)
    requires Closing(s0, s, i + 1, k, rollback)
    ensures i + 1 == |s.sps| <= |s0.sps| && s.sps[i].hdr == s0.sps[i].hdr
  {
  }

  lemma HalfHead(s0: St, s: St, i: nat, k: nat, rollback: bool)
    requires HalfClosed(s0, s, i, k, rollback) && s.sps[i].pages != []
    ensures SavesOk(s) && AllLinked(s) && i + 1 == |s.sps|
    ensures var q := s.sps[i].pages[0];
            q in s.cache && s.cache[q].saves != [] && NextLevel(s.cache[q].saves) >= 2
  {
    hide HashOk, LruOk, RefsOk, CleanOk, DirtyOk, SavesOk, AllLinked, Kept, SameContent, SameFlags;
    HeadImage(s, s.sps[i].pages[0]);
  }

  lemma InvCore(s: St)
    requires Inv(s)
    ensures Core(s) && TailsOk(s)
  {
  }

  lemma CloseStepFrame(s: St, k: nat, rollback: bool)
    requires SavesOk(s) && AllLinked(s)
    requires s.sps != [] && s.sps[|s.sps| - 1].pages != [] && k < Top(s)
    ensures var s' := CloseStep(s, k, rollback);
            && s' == s.(cache := s'.cache, sps := s'.sps)
            && |s'.sps| == |s.sps| && SameFlags(s, s')
            && (forall j | 0 <= j < |s.sps| :: s'.sps[j].hdr == s.sps[j].hdr)
  {
    var q := s.sps[|s.sps| - 1].pages[0];
    HeadImage(s, q);
    var s' := CloseStep(s, k, rollback);
    assert s'.cache == s.cache[q := CloseImage(s.cache[q], k, rollback)];
    assert |s'.sps| == |s.sps|;
    assert SameFlags(s, s');
  }

  lemma SavepointStep(s0: St, s: St, i: nat, k: nat, rollback: bool)
    requires HalfClosed(s0, s, i, k, rollback) && s.sps[i].pages != [] && k < i + 3
    ensures HalfClosed(s0, CloseStep(s, k, rollback), i, k, rollback)
  {
    hide HashOk, LruOk, RefsOk, CleanOk, DirtyOk, SavesOk, AllLinked, SameContent, Kept;
    var s' := CloseStep(s, k, rollback);
    CloseStepKeeps(s, k, rollback);
    CloseStepFrame(s, k, rollback);
    KeptTrans(s0, s, s', if rollback then i + 3 else k);
  }

  lemma SavepointEnds(s0: St, s: St, i: nat, k: nat, rollback: bool)
    requires HalfClosed(s0, s, i, k, rollback) && s.sps[i].pages == []
    ensures Closing(s0, PopSavepoint(s), i, k, rollback)
  {
    hide HashOk, LruOk, RefsOk, CleanOk, DirtyOk, SavesOk, AllLinked;
    var s' := PopSavepoint(s);
    PopSavepointKeeps(s);
    SameViewsWeaken(s, s', i + 3);
    if rollback {
      forall q: nat
        ensures Content(s', q) == Snap(s0, i + 3, q)
      {
        assert Content(s', q) == Content(s, q) == Snap(s, i + 3, q) == Snap(s0, i + 3, q);
      }
    }
  }

  lemma CloseEnds(s0: St, s: St, n: nat, k: nat, rollback: bool)
    requires Inv(s0) && Closing(s0, s, n, k, rollback) && (rollback || n + 2 <= k || n == 0)
    ensures Inv(s)
  {
    KeptTails(s0, s, n + 2);
  }
}

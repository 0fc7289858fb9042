// The snapshot stack a pager state stands for.

module PagerAbs {
  import opened PageTypes
  import opened PageHash
  import opened PagerState
  import opened SnapshotStack

  ghost function CurDb(s: St): Db {
    Db(s.hdr, imap q: nat :: Content(s, q))
  }

  ghost function LevelDb(s: St, h: DbHdr, l: nat): Db {
    Db(h, imap q: nat :: Snap(s, l, q))
  }

  ghost function SavedDb(s: St, j: nat): Db
    requires j < |s.sps|
  {
    LevelDb(s, s.sps[j].hdr, j + 3)
  }

  ghost function StoreDb(s: St): Db {
    Db(s.committedHdr, imap q: nat :: Store(s, q))
  }

  ghost function Saved(s: St): (r: seq<Db>)
    ensures |r| == |s.sps|
  {
    seq(|s.sps|, j requires 0 <= j < |s.sps| => SavedDb(s, j))
  }

  ghost function AbsOf(s: St, level: nat, dirtyHdr: bool): Tx {
    Tx(level, if level == 0 then StoreDb(s) else CurDb(s), Saved(s), StoreDb(s), dirtyHdr, s.dirty != [])
  }

  lemma SameCur(s: St, s': St)
    requires SameContent(s, s') && s'.hdr == s.hdr
    ensures CurDb(s') == CurDb(s)
  {
    assert CurDb(s').pages == CurDb(s).pages;
  }

  lemma SameStore(s: St, s': St)
    requires s'.frames == s.frames && s'.file == s.file && s'.pgsz == s.pgsz && s'.committedHdr == s.committedHdr
    ensures StoreDb(s') == StoreDb(s)
  {
    assert forall q: nat :: Store(s', q) == Store(s, q);
    assert StoreDb(s').pages == StoreDb(s).pages;
  }

  lemma SameSaved(s: St, s': St, n: nat)
    requires n <= |s.sps| && n <= |s'.sps| && Kept(s, s', n + 2)
    requires forall j | 0 <= j < n :: s'.sps[j].hdr == s.sps[j].hdr
    ensures Saved(s')[..n] == Saved(s)[..n]
  {
    forall j | 0 <= j < n
      ensures SavedDb(s', j) == SavedDb(s, j)
    {
      assert SavedDb(s', j).pages == SavedDb(s, j).pages;
    }
  }

  lemma CleanIsStore(s: St)
    requires Core(s) && s.dirty == []
    ensures CurDb(s).pages == StoreDb(s).pages
  {
    AllClean(s);
  }

  lemma RestoredIsSaved(s: St, s': St, j: nat)
    requires j < |s.sps| && Restored(s, s', j + 3) && s'.hdr == s.sps[j].hdr
    ensures CurDb(s') == Saved(s)[j]
  {
    assert CurDb(s').pages == SavedDb(s, j).pages;
  }

  // A snapshot opened now shows the current database.
  lemma OpenedIsCur(s: St, s': St)
    requires |s.sps| <= |s'.sps| && s'.hdr == s.hdr
    requires SameContent(s, s') && Kept(s, s', |s.sps| + 2)
    requires forall j | 0 <= j < |s.sps| :: s'.sps[j].hdr == s.sps[j].hdr
    requires forall j | |s.sps| <= j < |s'.sps| :: s'.sps[j].hdr == s.hdr
    requires forall l: nat, q: nat | |s.sps| + 2 < l <= |s'.sps| + 2 :: Snap(s', l, q) == Content(s, q)
    ensures CurDb(s') == CurDb(s)
    ensures Saved(s') == Saved(s) + seq(|s'.sps| - |s.sps|, _ => CurDb(s))
  {
    SameCur(s, s');
    SameSaved(s, s', |s.sps|);
    assert Saved(s)[..|s.sps|] == Saved(s);
    forall j | |s.sps| <= j < |s'.sps|
      ensures SavedDb(s', j) == CurDb(s)
    {
      assert SavedDb(s', j).pages == CurDb(s).pages;
    }
    assert Saved(s') == Saved(s')[..|s.sps|] + Saved(s')[|s.sps|..];
  }

  lemma TailIsTidy(s: St)
    requires ZeroTail(CurDb(s), s.pgsz)
    ensures CurTailOk(s)
  {
    forall q: nat | q > s.hdr.nPg
      ensures Content(s, q) == Zeros(s.pgsz)
    {
      assert CurDb(s).pages[q] == Content(s, q);
    }
  }

  // What a commit to level n + 2 of the savepoints leaves.
  lemma ClosedCommit(s: St, s': St, n: nat, k: nat)
    requires Closing(s, s', n, k, false) && (n + 2 <= k || n == 0)
    ensures CurDb(s') == CurDb(s) && Saved(s') == Saved(s)[..n] && StoreDb(s') == StoreDb(s)
    ensures s'.dirty == s.dirty && s'.hdr == s.hdr && s'.refs == s.refs
  {
    hide HashOk, LruOk, RefsOk, CleanOk, DirtyOk, SavesOk, AllLinked, SameContent, Kept, SameFlags;
    SameCur(s, s');
    SameStore(s, s');
    KeptDown(s, s', k, n + 2);
    SameSaved(s, s', n);
    assert Saved(s')[..n] == Saved(s');
  }

  lemma KeptDown(s: St, s': St, k: nat, l: nat)
    requires Kept(s, s', k) && (l <= k || l <= 2)
    ensures Kept(s, s', l)
  {
  }

  // What a rollback of savepoint n leaves.
  lemma ClosedRollback(s: St, s': St, n: nat, k: nat)
    requires Closing(s, s', n, k, true) && n < |s.sps|
    ensures CurDb(s') == Saved(s)[n] && Saved(s') == Saved(s)[..n] && StoreDb(s') == StoreDb(s)
    ensures s'.dirty == s.dirty && s'.refs == s.refs && s'.hdr == s.sps[n].hdr
  {
    hide HashOk, LruOk, RefsOk, CleanOk, DirtyOk, SavesOk, AllLinked, SameContent, Kept, SameFlags, Restored;
    RestoredIsSaved(s, s', n);
    SameStore(s, s');
    SameSaved(s, s', n);
    assert Saved(s')[..n] == Saved(s');
  }

  lemma HdrCovers(s: St)
    requires Inv(s)
    ensures s.hdr.nPg >= s.committedHdr.nPg >= 1
  {
  }

  lemma FlushTail(s: St, s': St, enc: (Bytes, DbHdr) -> Bytes)
    requires CurTailOk(s) && s.hdr.nPg >= 1 && s'.pgsz == s.pgsz
    requires CurDb(s') == Flush(CurDb(s), enc)
    ensures CurTailOk(s')
  {
    forall q: nat | q > s'.hdr.nPg
      ensures Content(s', q) == Zeros(s.pgsz)
    {
      assert CurDb(s').pages[q] == CurDb(s).pages[q];
    }
  }

  // ---- The loop of btCommitTransaction

  ghost predicate CommitRuns(s0: St, s: St) {
    && Core(s) && s.sps == [] && SameContent(s0, s)
    && s == s0.(frames := s.frames, cache := s.cache, lru := s.lru, dirty := s.dirty)
  }

  lemma CommitBegins(s: St)
    requires Inv(s) && s.sps == []
    ensures CommitRuns(s, s)
  {
  }

  lemma CommitRound(s0: St, s: St)
    requires CommitRuns(s0, s) && s.dirty != []
    ensures s.dirty[0] in s.cache && CommitRuns(s0, CommitStep(s))
    ensures forall q | q in s.cache && q in s0.cache :: s.cache[q].aData == s0.cache[q].aData
  {
    hide HashOk, LruOk, RefsOk, CleanOk, SavesOk, AllLinked;
    DirtyHead(s);
    CommitStepKeeps(s);
    forall q | q in s.cache && q in s0.cache
      ensures s.cache[q].aData == s0.cache[q].aData
    {
      assert Content(s, q) == Content(s0, q);
    }
  }

  lemma CommitEnds(s0: St, s: St, s': St)
    requires Inv(s0) && CurTailOk(s0) && CommitRuns(s0, s) && s.dirty == []
    requires s' == s.(committedHdr := if s0.dirty == [] then s0.committedHdr else s0.hdr)
    requires s0.dirty == [] ==> s.frames == s0.frames
    ensures Inv(s') && CurDb(s') == CurDb(s0)
    ensures StoreDb(s') == if s0.dirty != [] then CurDb(s') else StoreDb(s0)
  {
    hide Files;
    HdrCovers(s0);
    AllClean(s);
    assert forall q: nat :: Store(s', q) == Store(s, q) == Content(s0, q);
    assert Core(s');
    SameCur(s0, s');
    if s0.dirty != [] {
      assert StoreDb(s').pages == CurDb(s').pages;
    } else {
      SameStore(s0, s');
      assert forall q: nat :: Store(s0, q) == Store(s', q);
    }
  }

  lemma DirtyCached(s: St)
    requires Inv(s)
    ensures forall k | 0 <= k < |s.dirty| :: s.dirty[k] in s.cache
  {
    forall k | 0 <= k < |s.dirty|
      ensures s.dirty[k] in s.cache
    {
      assert s.dirty[k] in s.dirty;
    }
  }

  lemma AllClosed(s: St, s': St, k: nat)
    requires Closing(s, s', 0, k, false)
    ensures s'.sps == [] && (CurTailOk(s) ==> CurTailOk(s'))
  {
    hide HashOk, LruOk, RefsOk, CleanOk, DirtyOk, SavesOk, AllLinked;
  }

  // A page made writable, changed, and released.
  lemma UpdateKeeps(s: St, s2: St, s3: St, s4: St, q: nat, data: Bytes)
    requires SameContent(s, s2) && Kept(s, s2, Top(s)) && Kept(s2, s3, Top(s))
    requires SameViews(s3, s4)
    requires forall r: nat :: Content(s3, r) == if r == q then data else Content(s2, r)
    ensures q in CurDb(s).pages && CurDb(s).pages[q] == Content(s, q)
    ensures CurDb(s4).pages == CurDb(s).pages[q := data]
    ensures Kept(s, s4, Top(s))
  {
    assert CurDb(s4).pages == CurDb(s).pages[q := data];
  }

  lemma DropDirtyHead(s: St)
    requires Inv(s) && s.dirty != []
    ensures s.dirty[0] in s.cache && Files(s.hash, s.cache.Keys)
  {
    hide Files;
    DirtyHead(s);
  }

  lemma RollbackTail(s: St, s': St, n: nat, k: nat)
    requires Inv(s) && Closing(s, s', n, k, true) && n < |s.sps|
    ensures CurTailOk(s') && s.sps[n].iLevel == n + 3
  {
    hide HashOk, LruOk, RefsOk, CleanOk, DirtyOk, SavesOk, Core, SameContent, Kept, SameFlags;
    InvCore(s);
    LinkedLevel(s, n);
    assert TailOk(s, n + 3, s.sps[n].hdr.nPg);
    forall q: nat | q > s'.hdr.nPg
      ensures Content(s', q) == Zeros(s'.pgsz)
    {
      assert Content(s', q) == Snap(s, n + 3, q);
    }
  }

  lemma LinkedLevel(s: St, n: nat)
    requires Core(s) && n < |s.sps|
    ensures s.sps[n].iLevel == n + 3
  {
    hide HashOk, LruOk, RefsOk, CleanOk, DirtyOk, SavesOk;
    assert Linked(s.cache, s.sps[n], n + 3);
  }

  // A savepoint opened over a state shows that state.
  lemma Reopened(s: St, s': St)
    requires Inv(s) && CurTailOk(s)
    requires s' == s.(sps := s.sps + [Savepoint(|s.sps| + 3, [], s.hdr)])
    ensures Inv(s') && CurDb(s') == CurDb(s) && Saved(s') == Saved(s) + [CurDb(s)]
    ensures StoreDb(s') == StoreDb(s)
  {
    hide Inv, CurTailOk;
    OpenSavepointsKeeps(s, 1);
    assert s' == OpenSavepoints(s, 1);
    SameViewsWeaken(s, s', |s.sps| + 2);
    OpenedIsCur(s, s');
    SameStore(s, s');
  }

  lemma HdrChanges(s: St, s': St)
    requires Inv(s) && s' == s.(hdr := s'.hdr) && s'.hdr.nPg >= s.hdr.nPg
    ensures Inv(s') && CurDb(s') == CurDb(s).(hdr := s'.hdr)
    ensures Saved(s') == Saved(s) && StoreDb(s') == StoreDb(s)
  {
    hide Core, TailsOk;
    InvCore(s);
    CoreHdr(s, s');
    assert SameContent(s, s') && Kept(s, s', |s.sps| + 2);
    KeptTails(s, s', |s.sps| + 2);
    SameSaved(s, s', |s.sps|);
    assert Saved(s)[..|s.sps|] == Saved(s) && Saved(s')[..|s.sps|] == Saved(s');
    SameStore(s, s');
    assert CurDb(s').pages == CurDb(s).pages;
  }

  lemma UpdatedDb(s: St, s': St, q: nat, data: Bytes)
    requires |s'.sps| == |s.sps| && Kept(s, s', |s.sps| + 2) && s'.hdr == s.hdr
    requires forall j | 0 <= j < |s.sps| :: s'.sps[j].hdr == s.sps[j].hdr
    requires CurDb(s').pages == CurDb(s).pages[q := data]
    requires s'.frames == s.frames && s'.file == s.file && s'.pgsz == s.pgsz && s'.committedHdr == s.committedHdr
    ensures CurDb(s') == CurDb(s).(pages := CurDb(s).pages[q := data])
    ensures Saved(s') == Saved(s) && StoreDb(s') == StoreDb(s)
  {
    SameSaved(s, s', |s.sps|);
    assert Saved(s)[..|s.sps|] == Saved(s) && Saved(s')[..|s.sps|] == Saved(s');
    SameStore(s, s');
  }

  lemma AbsWellFormed(s: St, level: nat, dirtyHdr: bool)
    requires Inv(s) && |s.sps| == Depth(level) && (level < 2 ==> s.dirty == [])
    ensures WellFormed(AbsOf(s, level, dirtyHdr))
  {
    hide HashOk, LruOk, RefsOk, AllLinked, TailsOk;
    if s.dirty == [] {
      CleanIsStore(s);
      forall j | 0 <= j < |s.sps|
        ensures SavedDb(s, j).pages == StoreDb(s).pages
      {
        forall q: nat
          ensures Snap(s, j + 3, q) == Store(s, q)
        {
          assert q !in s.dirty;
        }
      }
    }
  }

  lemma ViewsAbs(s: St, s': St, level: nat, dirtyHdr: bool)
    requires SameViews(s, s') && s'.hdr == s.hdr && s'.dirty == s.dirty && s'.sps == s.sps
    requires s'.frames == s.frames && s'.file == s.file && s'.pgsz == s.pgsz && s'.committedHdr == s.committedHdr
    ensures AbsOf(s', level, dirtyHdr) == AbsOf(s, level, dirtyHdr)
  {
    SameViewsWeaken(s, s', |s.sps| + 2);
    SameCur(s, s');
    SameSaved(s, s', |s.sps|);
    assert Saved(s)[..|s.sps|] == Saved(s) && Saved(s')[..|s.sps|] == Saved(s');
    SameStore(s, s');
  }

  lemma RefsHeld(s: St, q: nat)
    requires Inv(s) && s.refs[q] > 0
    ensures q in s.cache && s.cache[q].nRef >= 1
  {
  }

  lemma MarkedAbs(s: St, s': St)
    requires OnlyMarked(s, s') && SameContent(s, s') && Kept(s, s', Top(s))
    ensures CurDb(s') == CurDb(s) && Saved(s') == Saved(s) && StoreDb(s') == StoreDb(s)
  {
    SameCur(s, s');
    SameSaved(s, s', |s.sps|);
    assert Saved(s)[..|s.sps|] == Saved(s) && Saved(s')[..|s.sps|] == Saved(s');
    SameStore(s, s');
  }
}

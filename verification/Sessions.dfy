// Clients that allocate, write and free pages and blocks inside nested
// transactions. Whatever they do, each page of the file has one owner, in the
// present database and in every snapshot a rollback may return to.

module Sessions {
  import opened Basics
  import opened PageTypes
  import opened Space
  import opened PagerState
  import opened PagerAbs
  import opened Pager
  import opened Allocator
  import S = SnapshotStack

  // The pages and blocks a client was given and has not returned.
  datatype Held = Held(pages: set<nat>, blocks: set<nat>)

  datatype Request =
    | GetPage
    | PutPage(pgno: nat)
    | Fill(pgno: nat, data: Bytes)
    | GetBlocks(nBlk: nat)
    | PutBlock(iBlk: nat)
    | Open                          // one more savepoint
    | Commit(iLevel: nat)
    | Rollback(iLevel: nat)

  predicate IsSpace(r: Request) {
    !r.Open? && !r.Commit? && !r.Rollback?
  }

  predicate Owns(h: Held, hdr: DbHdr, q: nat) {
    q in h.pages || (q >= 1 && hdr.pgsz > 0 && PerBlock(hdr) >= 1 && BlockOf(q, PerBlock(hdr)) in h.blocks)
  }

  // A client gives back and writes only what it owns, and page numbers stay
  // below 2^32.
  predicate CanServe(r: Request, h: Held, hdr: DbHdr) {
    match r
    case GetPage => hdr.nPg + 1 < U32
    case PutPage(q) => q in h.pages
    case Fill(q, data) => |data| == hdr.pgsz && Owns(h, hdr, q)
    case GetBlocks(n) => hdr.pgsz > 0 && hdr.nPg + n * (2 * PerBlock(hdr)) < U32
    case PutBlock(b) => b in h.blocks && hdr.nPg + 1 < U32
    case _ => false
  }

  // What the client holds afterwards.
  ghost predicate Serves(r: Request, h: Held, h': Held) {
    match r
    case GetPage => exists q :: q !in h.pages && h' == h.(pages := h.pages + {q})
    case PutPage(q) => h' == h.(pages := h.pages - {q})
    case Fill(_, _) => h' == h
    case GetBlocks(n) => exists got: set<nat> :: |got| == n && got !! h.blocks && h' == h.(blocks := h.blocks + got)
    case PutBlock(b) => h' == h.(blocks := h.blocks - {b})
    case _ => false
  }

  // The client owns what it holds, and each other page has one other owner.
  ghost predicate Owned(db: S.Db, o: Owners, h: Held) {
    SpaceOk(db, o, db.hdr.nPg) && o.client == h.pages && o.used == h.blocks
  }

  lemma {:induction false} NoDupSize(s: seq<nat>)
    requires NoDup(s)
    ensures |SetOf(s)| == |s|
  {
    if s != [] {
      var n := |s| - 1;
      NoDupSize(s[..n]);
      assert SetOf(s) == SetOf(s[..n]) + {s[n]};
    }
  }

  // A request for space or to write.
  method Serve(p: BtPager, r: Request, h: Held, ghost o: Owners) returns (h': Held, done: bool, ghost o': Owners)
    requires Writing(p) && Owned(p.Abs().cur, o, h) && IsSpace(r)
    modifies p
    ensures Writing(p) && SameOuter(old(p.Abs()), p.Abs()) && p.refs == old(p.refs)
    ensures Owned(p.Abs().cur, o', h')
    ensures TailSame(old(p.Abs().cur), p.Abs().cur, p.Abs().cur.hdr.nPg)
    ensures old(p.Abs().cur.hdr.nPg) <= p.Abs().cur.hdr.nPg
    ensures done <==> CanServe(r, h, old(p.hdr))
    ensures if done then Serves(r, h, h') else h' == h && p.Abs() == old(p.Abs())
  {
    hide Inv, Content, Saved, StoreDb, SpaceOk, Free, FreeBlocks, ListsOk, AllocatedPage, FreedBlock, TailSame, Owns;
    ghost var db := p.Abs().cur;
    assert db.hdr == p.hdr;
    TailStart(db);
    h', o' := h, o;
    done := CanServe(r, h, p.hdr);
    if done {
      match r {
        case GetPage =>
          h', o' := ServeGetPage(p, h, o);
        case PutPage(q) =>
          o' := TrimPage(p, q, o);
          h' := h.(pages := h.pages - {q});
        case Fill(q, data) =>
          ServeFill(p, q, data, h, o);
        case GetBlocks(nBlk) =>
          h', o' := ServeGetBlocks(p, nBlk, h, o);
        case PutBlock(b) =>
          o' := BlockTrim(p, b, o);
          FreedKnown(db, o, p.Abs().cur, o', b);
          h' := h.(blocks := h.blocks - {b});
      }
    }
  }

  method ServeGetPage(p: BtPager, h: Held, ghost o: Owners) returns (h': Held, ghost o': Owners)
    requires Writing(p) && Owned(p.Abs().cur, o, h) && p.hdr.nPg + 1 < U32
    modifies p
    ensures Writing(p) && SameOuter(old(p.Abs()), p.Abs()) && p.refs == old(p.refs)
    ensures Owned(p.Abs().cur, o', h') && Serves(GetPage, h, h')
    ensures TailSame(old(p.Abs().cur), p.Abs().cur, p.Abs().cur.hdr.nPg)
    ensures old(p.Abs().cur.hdr.nPg) <= p.Abs().cur.hdr.nPg
  {
    hide Inv, Content, Saved, StoreDb, SpaceOk, Free, FreeBlocks, ListsOk, AllocatedPage, TailSame;
    ghost var db := p.Abs().cur;
    var pgno;
    pgno, o' := PageAllocate(p, o);
    PageKnown(db, o, p.Abs().cur, o', pgno);
    Release(p, pgno);
    h' := h.(pages := h.pages + {pgno});
  }

  method ServeFill(p: BtPager, q: nat, data: Bytes, h: Held, ghost o: Owners)
    requires Writing(p) && Owned(p.Abs().cur, o, h) && CanServe(Fill(q, data), h, p.hdr)
    modifies p
    ensures Writing(p) && SameOuter(old(p.Abs()), p.Abs()) && p.refs == old(p.refs)
    ensures Owned(p.Abs().cur, o, h) && p.Abs().cur == Poke(old(p.Abs().cur), q, data)
    ensures TailSame(old(p.Abs().cur), p.Abs().cur, p.Abs().cur.hdr.nPg)
  {
    hide Inv, Content, Saved, StoreDb, SpaceOk, Free, FreeBlocks, ListsOk;
    ghost var db := p.Abs().cur;
    assert db.hdr == p.hdr;
    ClientWrite(db, o, db.hdr.nPg, q, data);
    ClientPage(db, o, db.hdr.nPg, q);
    p.Write(q, data);
  }

  method ServeGetBlocks(p: BtPager, nBlk: nat, h: Held, ghost o: Owners) returns (h': Held, ghost o': Owners)
    requires Writing(p) && Owned(p.Abs().cur, o, h) && CanServe(GetBlocks(nBlk), h, p.hdr)
    modifies p
    ensures Writing(p) && SameOuter(old(p.Abs()), p.Abs()) && p.refs == old(p.refs)
    ensures Owned(p.Abs().cur, o', h') && Serves(GetBlocks(nBlk), h, h')
    ensures TailSame(old(p.Abs().cur), p.Abs().cur, p.Abs().cur.hdr.nPg)
    ensures old(p.Abs().cur.hdr.nPg) <= p.Abs().cur.hdr.nPg
  {
    hide Inv, Content, Saved, StoreDb, SpaceOk, Free, FreeBlocks, ListsOk, TailSame, NoDup;
    var aiBlk;
    aiBlk, o' := BlockAllocate(p, nBlk, o);
    NoDupSize(aiBlk);
    h' := h.(blocks := h.blocks + (set b | b in aiBlk));
    assert (set b | b in aiBlk) == SetOf(aiBlk);
  }

  // ---- Nested transactions

  // What the client holds now, held when each savepoint was opened, and held
  // when the write transaction began.
  datatype Book = Book(now: Held, saved: seq<Held>, base: Held)

  predicate LevelOk(b: Book, l: nat) {
    2 <= l <= |b.saved| + 2
  }

  ghost predicate NextBook(b: Book, r: Request, hdr: DbHdr, b': Book) {
    match r
    case Open => b' == b.(saved := b.saved + [b.now])
    case Commit(l) => b' == if LevelOk(b, l) then b.(saved := b.saved[..l - 2]) else b
    case Rollback(l) =>
      b' == if !LevelOk(b, l) then b
            else if l == 2 then Book(b.base, [], b.base)
            else Book(b.saved[l - 3], b.saved[..l - 2], b.base)
    case _ =>
      if CanServe(r, b.now, hdr) then Serves(r, b.now, b'.now) && b' == b.(now := b'.now) else b' == b
  }

  // The books of a client over its requests.
  ghost predicate IsHistory(books: seq<Book>, rs: seq<Request>, hdrs: seq<DbHdr>) {
    && |books| == |rs| + 1 && |hdrs| == |rs|
    && forall i | 0 <= i < |rs| :: NextBook(books[i], rs[i], hdrs[i], books[i + 1])
  }

  lemma {:induction false} OuterBooks(books: seq<Book>, rs: seq<Request>, hdrs: seq<DbHdr>, i: nat, j: nat, l: nat)
    requires IsHistory(books, rs, hdrs) && i <= j < |books| && l >= 2
    requires forall t | i <= t <= j :: |books[t].saved| >= l - 2
    ensures books[j].saved[..l - 2] == books[i].saved[..l - 2] && books[j].base == books[i].base
    decreases j
  {
    if i < j {
      OuterBooks(books, rs, hdrs, i, j - 1, l);
      assert NextBook(books[j - 1], rs[j - 1], hdrs[j - 1], books[j - 1 + 1]);
    }
  }

  // What a client is granted and gives back inside a savepoint is as if it had
  // never been, once the savepoint is rolled back.
  lemma RollbackReturnsHoldings(books: seq<Book>, rs: seq<Request>, hdrs: seq<DbHdr>, i: nat, j: nat)
    requires IsHistory(books, rs, hdrs) && i < j < |rs| && rs[i].Open?
    requires forall t | i < t <= j :: |books[t].saved| > |books[i].saved|
    requires rs[j] == Rollback(|books[i].saved| + 3)
    ensures books[j + 1].now == books[i].now && books[j + 1].saved == books[i].saved + [books[i].now]
  {
    var n := |books[i].saved|;
    OuterBooks(books, rs, hdrs, i + 1, j, n + 3);
    assert NextBook(books[i], rs[i], hdrs[i], books[i + 1]);
    assert NextBook(books[j], rs[j], hdrs[j], books[j + 1]);
    assert books[i + 1].saved[..n + 1] == books[i].saved + [books[i].now];
    assert books[j].saved[n] == books[j].saved[..n + 1][n];
  }

  class Session {
    const p: BtPager
    var book: Book
    ghost var o: Owners
    ghost var saved: seq<Owners>
    ghost var base: Owners

    ghost predicate Valid()
      reads this, p
    {
      && Writing(p) && S.AllTrimmed(p.Abs(), p.pgsz) && HeadsFlagged(p.Abs())
      && AllOwned(p.Abs(), o, saved, base, book)
    }

    // A write transaction is open, without savepoints, and nothing has changed.
    constructor (p: BtPager, h: Held, ghost o: Owners)
      requires Writing(p) && S.AllTrimmed(p.Abs(), p.pgsz) && p.Abs().saved == [] && p.Abs().committed == p.Abs().cur
      requires Owned(p.Abs().cur, o, h)
      ensures Valid() && this.p == p && book == Book(h, [], h)
    {
      this.p, book := p, Book(h, [], h);
      this.o, saved, base := o, [], o;
    }

    method SpaceRequest(r: Request)
      requires Valid() && IsSpace(r)
      modifies this, p
      ensures Valid() && NextBook(old(book), r, old(p.hdr), book)
      ensures p.Abs().committed == old(p.Abs().committed)
    {
      hide S.AllTrimmed, HeadsFlagged, Inv, CurDb, Saved, StoreDb, Owned, TailSame, Serves, CanServe;
      ghost var t := p.Abs();
      var h, done;
      ghost var o1;
      assert Owned(p.Abs().cur, o, book.now);
      h, done, o1 := Serve(p, r, book.now, o);
      o := o1;
      book := book.(now := h);
      OwnedTotal(p.Abs().cur, o, h);
      TrimmedGrows(t, p.Abs(), p.pgsz);
      FlagsKept(t, p.Abs());
    }

    method OpenLevel()
      requires Valid()
      modifies this, p
      ensures Valid() && NextBook(old(book), Open, old(p.hdr), book)
      ensures p.Abs().committed == old(p.Abs().committed)
    {
      hide S.AllTrimmed, Inv, CurDb, Saved, StoreDb, Owned;
      ghost var t := p.Abs();
      TrimmedTail(t, p.pgsz);
      p.Begin(p.iTransactionLevel + 1);
      assert p.Abs().saved == t.saved + [t.cur];
      saved := saved + [o];
      book := book.(saved := book.saved + [book.now]);
      OpenTrimmed(t, p.Abs(), p.pgsz);
    }

    method CommitLevel(iLevel: nat)
      requires Valid()
      modifies this, p
      ensures Valid() && NextBook(old(book), Commit(iLevel), old(p.hdr), book)
      ensures p.Abs().committed == old(p.Abs().committed)
    {
      hide S.AllTrimmed, Inv, CurDb, Saved, StoreDb, Owned;
      if 2 <= iLevel <= |book.saved| + 2 {
        ghost var t := p.Abs();
        TrimmedTail(t, p.pgsz);
        p.Commit(iLevel);
        saved := saved[..iLevel - 2];
        book := book.(saved := book.saved[..iLevel - 2]);
        CommitTrimmed(t, p.Abs(), iLevel, p.pgsz);
      }
    }

    method RollbackLevel(iLevel: nat)
      requires Valid()
      modifies this, p
      ensures Valid() && NextBook(old(book), Rollback(iLevel), old(p.hdr), book)
      ensures p.Abs().committed == old(p.Abs().committed)
    {
      hide S.AllTrimmed, Inv, CurDb, Saved, StoreDb, Owned;
      if 2 <= iLevel <= |book.saved| + 2 {
        ghost var t := p.Abs();
        TrimmedTail(t, p.pgsz);
        p.Rollback(iLevel);
        if iLevel == 2 {
          o, saved := base, [];
          book := Book(book.base, [], book.base);
        } else {
          o, saved := saved[iLevel - 3], saved[..iLevel - 2];
          book := Book(book.saved[iLevel - 3], book.saved[..iLevel - 2], book.base);
        }
        RollbackTrimmed(t, p.Abs(), iLevel, p.pgsz);
      }
    }

    method Do(r: Request)
      requires Valid()
      modifies this, p
      ensures Valid() && NextBook(old(book), r, old(p.hdr), book)
      ensures p.Abs().committed == old(p.Abs().committed)
    {
      hide NextBook, S.AllTrimmed, Writing, AllOwned;
      match r {
        case Open => OpenLevel();
        case Commit(l) => CommitLevel(l);
        case Rollback(l) => RollbackLevel(l);
        case _ => SpaceRequest(r);
      }
    }

    // The outermost commit. If a list head is not what it was when the write
    // transaction began, page 1 now encodes the new header.
    method Finish(iLevel: nat)
      requires Valid() && iLevel < 2
      modifies this, p
      ensures p.Valid() && p.iTransactionLevel == iLevel
      ensures 1 in old(p.Abs().cur.pages) && 1 in p.Abs().committed.pages
      ensures old(HeadsMoved(p.Abs().committed.hdr, p.Abs().cur.hdr)) ==>
                && p.Abs().committed.hdr == old(p.Abs().cur.hdr)
                && p.Abs().committed.pages[1] == p.enc(old(p.Abs().cur.pages[1]), old(p.Abs().cur.hdr))
      ensures forall q: nat | q != 1 ::
                q in old(p.Abs().cur.pages) && q in p.Abs().committed.pages
                && p.Abs().committed.pages[q] == old(p.Abs().cur.pages[q])
    {
      hide S.AllTrimmed, Inv, CurDb, Saved, StoreDb, Owned;
      ghost var t := p.Abs();
      TrimmedTail(t, p.pgsz);
      p.Commit(iLevel);
      S.CommitPersists(t, iLevel, p.enc);
    }

    // Any sequence of requests, savepoints, commits and rollbacks: at its end
    // every page of the file has one owner, and so it has in each snapshot; the
    // client owns what it holds by its book.
    method DoAll(rs: seq<Request>) returns (ghost books: seq<Book>, ghost hdrs: seq<DbHdr>)
      requires Valid()
      modifies this, p
      ensures Valid() && IsHistory(books, rs, hdrs) && books[0] == old(book) && books[|rs|] == book
      ensures p.Abs().committed == old(p.Abs().committed)
    {
      hide NextBook, S.AllTrimmed, Writing, AllOwned;
      books, hdrs := [book], [];
      for i := 0 to |rs|
        invariant Valid() && |books| == i + 1 && |hdrs| == i && books[0] == old(book) && books[i] == book
        invariant forall j | 0 <= j < i :: NextBook(books[j], rs[j], hdrs[j], books[j + 1])
        invariant p.Abs().committed == old(p.Abs().committed)
      {
        ghost var hdr := p.hdr;
        Do(rs[i]);
        hdrs := hdrs + [hdr];
        books := books + [book];
      }
    }
  }

  ghost predicate AllOwned(t: S.Tx, o: Owners, saved: seq<Owners>, base: Owners, b: Book) {
    && |saved| == |b.saved| == |t.saved|
    && Owned(t.cur, o, b.now) && Owned(t.committed, base, b.base)
    && forall j | 0 <= j < |saved| :: Owned(t.saved[j], saved[j], b.saved[j])
  }

  // ---- Moved list heads stay flagged

  // A list head, now or in a snapshot, that is not the committed one is flagged.
  ghost predicate HeadsFlagged(t: S.Tx) {
    && (HeadsMoved(t.committed.hdr, t.cur.hdr) ==> t.hdrDirty)
    && (forall j | 0 <= j < |t.saved| :: HeadsMoved(t.committed.hdr, t.saved[j].hdr) ==> t.hdrDirty)
  }

  lemma FlagsKept(t: S.Tx, t': S.Tx)
    requires HeadsFlagged(t) && SameOuter(t, t')
    ensures HeadsFlagged(t')
  {
  }

  // ---- Snapshots stay trimmed

  lemma TrimmedTail(t: S.Tx, pgsz: nat)
    requires S.AllTrimmed(t, pgsz)
    ensures S.ZeroTail(t.cur, pgsz)
  {
  }

  lemma OwnedTotal(db: S.Db, o: Owners, h: Held)
    requires Owned(db, o, h)
    ensures forall q: nat :: q in db.pages
  {
    Listed(db, o, db.hdr.nPg);
  }

  lemma TrimmedGrows(t: S.Tx, t': S.Tx, pgsz: nat)
    requires S.AllTrimmed(t, pgsz) && SameOuter(t, t') && forall q: nat :: q in t'.cur.pages
    requires TailSame(t.cur, t'.cur, t'.cur.hdr.nPg) && t.cur.hdr.nPg <= t'.cur.hdr.nPg
    ensures S.AllTrimmed(t', pgsz)
  {
    TailTidy(t.cur, t'.cur, pgsz);
  }

  lemma OpenTrimmed(t: S.Tx, t': S.Tx, pgsz: nat)
    requires S.AllTrimmed(t, pgsz) && t'.cur == t.cur && t'.committed == t.committed && t'.saved == t.saved + [t.cur]
    ensures S.AllTrimmed(t', pgsz)
  {
  }

  lemma CommitTrimmed(t: S.Tx, t': S.Tx, l: nat, pgsz: nat)
    requires S.AllTrimmed(t, pgsz) && 2 <= l <= |t.saved| + 2
    requires t'.cur == t.cur && t'.committed == t.committed && t'.saved == t.saved[..l - 2]
    ensures S.AllTrimmed(t', pgsz)
  {
  }

  lemma RollbackTrimmed(t: S.Tx, t': S.Tx, l: nat, pgsz: nat)
    requires S.AllTrimmed(t, pgsz) && 2 <= l <= |t.saved| + 2 && t'.committed == t.committed
    requires if l == 2 then t'.cur == t.committed && t'.saved == []
             else t'.cur == t.saved[l - 3] && t'.saved == t.saved[..l - 2]
    ensures S.AllTrimmed(t', pgsz)
  {
  }
}

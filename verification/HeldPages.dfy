// Clients of the pager that hold page references across transaction calls. They
// may keep a reference over any Begin, Commit or Rollback, and change a page
// while they hold it, if PageWrite has been called since the last of these.

module HeldPages {
  import opened PageTypes
  import opened PagerState
  import opened PagerAbs
  import opened Pager
  import S = SnapshotStack

  // The references a client holds, and the pages it may change.
  datatype Client = Client(tx: S.Tx, refs: multiset<nat>, marked: set<nat>)

  datatype Op =
    | Get(q: nat)
    | Release(q: nat)
    | Mark(q: nat)                  // sqlite4BtPageWrite
    | Put(q: nat, data: Bytes)      // change the bytes in place
    | Call(op: S.Op)                // a transaction call, or a header change

  ghost predicate Enabled(c: Client, op: Op, pgsz: nat) {
    match op
    case Get(q) => c.tx.level >= 1 && (q > c.tx.cur.hdr.nPg ==> c.tx.level >= 2)
    case Release(q) => c.refs[q] > 0
    case Mark(q) => c.refs[q] > 0 && c.tx.level >= 2
    case Put(q, data) => c.refs[q] > 0 && q in c.marked && S.Enabled(c.tx, S.OpWrite(q, data), pgsz)
    case Call(op) => !op.OpWrite? && !op.OpMark? && S.Enabled(c.tx, op, pgsz)
  }

  ghost function Step(c: Client, op: Op, enc: (Bytes, DbHdr) -> Bytes): (r: Client)
    requires S.WellFormed(c.tx)
  {
    match op
    case Get(q) => c.(refs := c.refs + multiset{q})
    case Release(q) => c.(refs := c.refs - multiset{q})
    case Mark(q) => c.(tx := S.Mark(c.tx), marked := c.marked + {q})
    case Put(q, data) => c.(tx := S.Write(c.tx, q, data))
    case Call(op) => c.(tx := S.Step(c.tx, op, enc), marked := if op.OpSetHdr? then c.marked else {})
  }

  // The call of the snapshot stack an operation amounts to, if any.
  function Project(op: Op): seq<S.Op> {
    match op
    case Get(_) => []
    case Release(_) => []
    case Mark(q) => [S.OpMark(q)]
    case Put(q, data) => [S.OpWrite(q, data)]
    case Call(op) => [op]
  }

  lemma StepProjects(c: Client, op: Op, pgsz: nat, enc: (Bytes, DbHdr) -> Bytes)
    requires S.WellFormed(c.tx) && Enabled(c, op, pgsz)
    ensures S.WellFormed(Step(c, op, enc).tx)
    ensures S.AllEnabled(c.tx, Project(op), pgsz, enc) && S.Run(c.tx, Project(op), pgsz, enc) == Step(c, op, enc).tx
  {
    hide S.WellFormed, S.Step, S.Enabled;
    if Project(op) != [] {
      var o := Project(op)[0];
      ProjectsTo(c, op, pgsz, enc);
      S.StepWellFormed(c.tx, o, pgsz, enc);
      assert [o][1..] == [];
    }
  }

  lemma ProjectsTo(c: Client, op: Op, pgsz: nat, enc: (Bytes, DbHdr) -> Bytes)
    requires S.WellFormed(c.tx) && Enabled(c, op, pgsz) && Project(op) != []
    ensures S.Enabled(c.tx, Project(op)[0], pgsz) && S.Step(c.tx, Project(op)[0], enc) == Step(c, op, enc).tx
  {
  }

  ghost predicate AllEnabled(c: Client, ops: seq<Op>, pgsz: nat, enc: (Bytes, DbHdr) -> Bytes)
    requires S.WellFormed(c.tx)
    decreases |ops|
  {
    ops == [] || (
      && Enabled(c, ops[0], pgsz)
      && (StepProjects(c, ops[0], pgsz, enc); AllEnabled(Step(c, ops[0], enc), ops[1..], pgsz, enc)))
  }

  ghost function Run(c: Client, ops: seq<Op>, pgsz: nat, enc: (Bytes, DbHdr) -> Bytes): Client
    requires S.WellFormed(c.tx) && AllEnabled(c, ops, pgsz, enc)
    decreases |ops|
  {
    if ops == [] then c
    else
      StepProjects(c, ops[0], pgsz, enc);
      Run(Step(c, ops[0], enc), ops[1..], pgsz, enc)
  }

  function ProjectAll(ops: seq<Op>): seq<S.Op> {
    if ops == [] then [] else Project(ops[0]) + ProjectAll(ops[1..])
  }

  // What a client with references does to the database is a run of the snapshot
  // stack, so all that is proved of such runs holds for it.
  lemma {:induction false} RunProjects(c: Client, ops: seq<Op>, pgsz: nat, enc: (Bytes, DbHdr) -> Bytes)
    requires S.WellFormed(c.tx) && AllEnabled(c, ops, pgsz, enc)
    ensures S.AllEnabled(c.tx, ProjectAll(ops), pgsz, enc)
    ensures S.Run(c.tx, ProjectAll(ops), pgsz, enc) == Run(c, ops, pgsz, enc).tx
    decreases |ops|
  {
    hide S.WellFormed, S.Step, S.Enabled, Enabled, Step, Project;
    if ops != [] {
      var rest := ProjectAll(ops[1..]);
      StepProjects(c, ops[0], pgsz, enc);
      RunProjects(Step(c, ops[0], enc), ops[1..], pgsz, enc);
      OneOrNone(ops[0]);
      if Project(ops[0]) == [] {
        assert ProjectAll(ops) == rest;
      } else {
        assert ProjectAll(ops)[0] == Project(ops[0])[0] && ProjectAll(ops)[1..] == rest;
        assert Project(ops[0])[1..] == [];
      }
    }
  }

  lemma OneOrNone(op: Op)
    ensures |Project(op)| <= 1
  {
  }

  // ---- On the pager

  ghost predicate Represents(p: BtPager, c: Client)
    reads p
  {
    && p.Valid() && S.AllTrimmed(p.Abs(), p.pgsz) && S.WellFormed(p.Abs())
    && p.Abs() == c.tx && p.refs == c.refs
    && forall q | q in c.marked :: Writable(p.State(), q)
  }

  lemma CachedShows(s: St, q: nat)
    requires q in s.cache
    ensures q in CurDb(s).pages && CurDb(s).pages[q] == s.cache[q].aData
  {
  }

  // Whoever holds a reference sees the current content of the page.
  method Read(p: BtPager, q: nat, ghost c: Client) returns (data: Bytes)
    requires Represents(p, c) && c.refs[q] > 0 && c.tx.level >= 1
    ensures q in c.tx.cur.pages && data == c.tx.cur.pages[q]
  {
    hide S.AllTrimmed, S.WellFormed, Inv, Saved, StoreDb, CurDb;
    RefsHeld(p.State(), q);
    CachedShows(p.State(), q);
    assert p.Abs().cur == CurDb(p.State());
    data := p.cache[q].aData;
  }

  method DoGet(p: BtPager, q: nat, ghost c: Client)
    requires Represents(p, c) && Enabled(c, Get(q), p.pgsz)
    modifies p
    ensures Represents(p, Step(c, Get(q), p.enc))
  {
    hide Inv, SameViews, Saved, StoreDb, CurDb, S.AllTrimmed, S.WellFormed;
    ghost var s := p.State();
    assert c.tx.cur.hdr == p.hdr by { HdrOf(s); }
    p.PageGet(q);
    ViewsAbs(s, p.State(), p.iTransactionLevel, p.bDirtyHdr);
  }

  lemma HdrOf(s: St)
    ensures CurDb(s).hdr == s.hdr
  {
  }

  method DoRelease(p: BtPager, q: nat, ghost c: Client)
    requires Represents(p, c) && Enabled(c, Release(q), p.pgsz)
    modifies p
    ensures Represents(p, Step(c, Release(q), p.enc))
  {
    hide Inv, SameViews, Saved, StoreDb, CurDb, S.AllTrimmed, S.WellFormed;
    ghost var s := p.State();
    RefsHeld(s, q);
    p.PageRelease(q);
    ViewsAbs(s, p.State(), p.iTransactionLevel, p.bDirtyHdr);
  }

  method DoMark(p: BtPager, q: nat, ghost c: Client)
    requires Represents(p, c) && Enabled(c, Mark(q), p.pgsz)
    modifies p
    ensures Represents(p, Step(c, Mark(q), p.enc))
  {
    hide Inv, SameContent, Kept, Saved, StoreDb, CurDb, S.AllTrimmed, S.WellFormed;
    ghost var s := p.State();
    RefsHeld(s, q);
    Checked(c, Mark(q), p.pgsz, p.enc);
    p.PageWrite(q);
    MarkedPage(s, p.State(), q);
    MarkedAbs(s, p.State());
  }

  method DoPut(p: BtPager, q: nat, data: Bytes, ghost c: Client)
    requires Represents(p, c) && Enabled(c, Put(q, data), p.pgsz)
    modifies p
    ensures Represents(p, Step(c, Put(q, data), p.enc))
  {
    hide Inv, Kept, Saved, StoreDb, Content, S.AllTrimmed, S.WellFormed;
    ghost var s := p.State();
    Checked(c, Put(q, data), p.pgsz, p.enc);
    p.SetData(q, data);
    assert CurDb(p.State()).pages == CurDb(s).pages[q := data];
    UpdatedDb(s, p.State(), q, data);
    ListedDirty(s, q);
  }

  lemma ListedDirty(s: St, q: nat)
    requires Inv(s) && Writable(s, q)
    ensures s.dirty != []
  {
    DirtyListed(s, q);
  }

  // The new database is again well formed and trimmed.
  lemma Checked(c: Client, op: Op, pgsz: nat, enc: (Bytes, DbHdr) -> Bytes)
    requires S.WellFormed(c.tx) && S.AllTrimmed(c.tx, pgsz) && Enabled(c, op, pgsz)
    ensures S.WellFormed(Step(c, op, enc).tx) && S.AllTrimmed(Step(c, op, enc).tx, pgsz)
  {
    hide S.WellFormed, S.AllTrimmed, S.Enabled, S.Step;
    if Project(op) != [] {
      ProjectsTo(c, op, pgsz, enc);
      S.StepWellFormed(c.tx, Project(op)[0], pgsz, enc);
      S.StepTrimmed(c.tx, Project(op)[0], pgsz, enc);
    }
  }

  method DoCall(p: BtPager, op: S.Op, ghost c: Client)
    requires Represents(p, c) && Enabled(c, Call(op), p.pgsz)
    modifies p
    ensures Represents(p, Step(c, Call(op), p.enc))
  {
    hide Inv, Saved, StoreDb, CurDb, S.AllTrimmed, S.WellFormed;
    Checked(c, Call(op), p.pgsz, p.enc);
    HdrOf(p.State());
    if op.OpSetHdr? {
      p.SetHdr(op.h, op.flag);
    } else {
      p.Perform(op);
    }
  }

  method Do(p: BtPager, op: Op, ghost c: Client)
    requires Represents(p, c) && Enabled(c, op, p.pgsz)
    modifies p
    ensures Represents(p, Step(c, op, p.enc))
  {
    hide Represents, Enabled, Step;
    match op {
      case Get(q) => DoGet(p, q, c);
      case Release(q) => DoRelease(p, q, c);
      case Mark(q) => DoMark(p, q, c);
      case Put(q, data) => DoPut(p, q, data, c);
      case Call(o) => DoCall(p, o, c);
    }
  }

  // Any run of such a client is what Run says: references held across rollbacks
  // and commits stay valid, and the database is that of the snapshot stack.
  method DoAll(p: BtPager, ops: seq<Op>, ghost c: Client)
    requires Represents(p, c) && AllEnabled(c, ops, p.pgsz, p.enc)
    modifies p
    ensures Represents(p, Run(c, ops, p.pgsz, p.enc))
    decreases |ops|
  {
    hide Enabled, Step, S.AllTrimmed, S.WellFormed, Inv;
    if ops != [] {
      StepProjects(c, ops[0], p.pgsz, p.enc);
      Do(p, ops[0], c);
      DoAll(p, ops[1..], Step(c, ops[0], p.enc));
    }
  }
}

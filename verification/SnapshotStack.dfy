// What a nested transaction is for a client: a stack of whole-database
// snapshots. bt_pager.c never copies a database; Pager.dfy proves that its undo
// lists behave as if it did.

module SnapshotStack {
  import opened PageTypes

  // A database image: header and the content of every page number. Pages past
  // the end of the file are all zeros.
  datatype Db = Db(hdr: DbHdr, pages: imap<nat, Bytes>)

  // level     transaction level: 0 none, 1 read, 2 and up nested writes
  // saved[i]  the database as it was when level i + 3 was opened
  // committed the database as the log holds it (level 2 rolls back to this)
  // hdrDirty  the header must be flushed to page 1 at commit
  // touched   some page is on the dirty list
  datatype Tx = Tx(level: nat, cur: Db, saved: seq<Db>, committed: Db, hdrDirty: bool, touched: bool)

  ghost predicate ZeroTail(db: Db, pgsz: nat) {
    && (forall q: nat :: q in db.pages)
    && (forall q: nat | q > db.hdr.nPg :: db.pages[q] == Zeros(pgsz))
  }

  function Depth(level: nat): nat {
    if level <= 2 then 0 else level - 2
  }

  ghost predicate Total(db: Db) {
    forall q: nat :: q in db.pages
  }

  ghost predicate WellFormed(t: Tx) {
    && |t.saved| == Depth(t.level)
    && (t.level == 0 ==> t.cur == t.committed)
    && Total(t.cur) && Total(t.committed) && (forall j | 0 <= j < |t.saved| :: Total(t.saved[j]))
    // without a dirty page there is nothing to undo
    && (!t.touched ==>
          && t.cur.pages == t.committed.pages
          && (forall j | 0 <= j < |t.saved| :: t.saved[j].pages == t.committed.pages))
    && (t.level < 2 ==> !t.touched)
  }

  ghost function Begin(t: Tx, level: nat): (r: Tx)
    ensures WellFormed(t) ==> WellFormed(r)
  {
    if t.level >= level then t
    else
      t.(level := level,
         saved := if Depth(level) > |t.saved|
                  then t.saved + seq(Depth(level) - |t.saved|, _ => t.cur)
                  else t.saved)
  }

  // Header flush: page 1 carries an encoding of the header.
  ghost function Flush(db: Db, enc: (Bytes, DbHdr) -> Bytes): Db
    requires 1 in db.pages
  {
    db.(pages := db.pages[1 := enc(db.pages[1], db.hdr)])
  }

  ghost function Commit(t: Tx, level: nat, enc: (Bytes, DbHdr) -> Bytes): (r: Tx)
    requires WellFormed(t)
    ensures WellFormed(r)
  {
    if t.level < level then t
    else if level >= 2 then t.(level := level, saved := t.saved[..Depth(level)])
    else if t.level >= 2 then
      var cur := if t.hdrDirty then Flush(t.cur, enc) else t.cur;
      // Without a dirty page there is no commit frame, and the header is lost.
      var committed := if t.hdrDirty || t.touched then cur else t.committed;
      Tx(level, if level == 0 then committed else cur, [], committed, false, false)
    else t.(level := level, cur := if level == 0 then t.committed else t.cur)
  }

  ghost function Rollback(t: Tx, level: nat): Tx
    requires WellFormed(t)
  {
    if t.level < level then t
    else if t.level >= 2 then
      if level <= 2 then
        t.(level := level, cur := t.committed, saved := [], touched := false)
      else
        t.(level := level, cur := t.saved[level - 3], saved := t.saved[..level - 2])
    else t.(level := level, cur := if level == 0 then t.committed else t.cur)
  }

  // A page write by a client inside a write transaction.
  ghost function Write(t: Tx, q: nat, data: Bytes): Tx {
    t.(cur := t.cur.(pages := t.cur.pages[q := data]), touched := true)
  }

  // A page made writable and not changed.
  ghost function Mark(t: Tx): Tx {
    t.(touched := true)
  }

  ghost function SetHdr(t: Tx, h: DbHdr, flag: bool): Tx {
    t.(cur := t.cur.(hdr := h), hdrDirty := t.hdrDirty || flag)
  }

  datatype Op =
    | OpBegin(level: nat)
    | OpCommit(level: nat)
    | OpRollback(level: nat)
    | OpMark(q: nat)
    | OpWrite(q: nat, data: Bytes)
    | OpSetHdr(h: DbHdr, flag: bool)

  // What the pager asks of its caller for each operation.
  ghost predicate Enabled(t: Tx, op: Op, pgsz: nat) {
    match op
    case OpBegin(l) => true
    case OpCommit(l) => l == 0 ==> t.level >= 1
    case OpRollback(l) => true
    case OpMark(q) => t.level >= 2
    case OpWrite(q, data) => t.level >= 2 && 1 <= q <= t.cur.hdr.nPg && |data| == pgsz
    case OpSetHdr(h, _) => t.level >= 2 && h.pgsz == pgsz && h.nPg >= t.cur.hdr.nPg
  }

  ghost function Step(t: Tx, op: Op, enc: (Bytes, DbHdr) -> Bytes): Tx
    requires WellFormed(t)
  {
    match op
    case OpBegin(l) => Begin(t, l)
    case OpCommit(l) => Commit(t, l, enc)
    case OpRollback(l) => Rollback(t, l)
    case OpMark(q) => Mark(t)
    case OpWrite(q, data) => Write(t, q, data)
    case OpSetHdr(h, flag) => SetHdr(t, h, flag)
  }

  lemma StepWellFormed(t: Tx, op: Op, pgsz: nat, enc: (Bytes, DbHdr) -> Bytes)
    requires WellFormed(t) && Enabled(t, op, pgsz)
    ensures WellFormed(Step(t, op, enc))
  {
  }

  // Every image ends where its header says.
  ghost predicate Trimmed(db: Db, pgsz: nat) {
    db.hdr.nPg >= 1 && ZeroTail(db, pgsz)
  }

  ghost predicate AllTrimmed(t: Tx, pgsz: nat) {
    Trimmed(t.cur, pgsz) && Trimmed(t.committed, pgsz) && forall j | 0 <= j < |t.saved| :: Trimmed(t.saved[j], pgsz)
  }

  lemma StepTrimmed(t: Tx, op: Op, pgsz: nat, enc: (Bytes, DbHdr) -> Bytes)
    requires WellFormed(t) && Enabled(t, op, pgsz) && AllTrimmed(t, pgsz)
    ensures AllTrimmed(Step(t, op, enc), pgsz)
  {
  }

  ghost predicate AllEnabled(t: Tx, ops: seq<Op>, pgsz: nat, enc: (Bytes, DbHdr) -> Bytes)
    requires WellFormed(t)
    decreases |ops|
  {
    ops == [] || (
      && Enabled(t, ops[0], pgsz)
      && (StepWellFormed(t, ops[0], pgsz, enc); AllEnabled(Step(t, ops[0], enc), ops[1..], pgsz, enc)))
  }

  ghost function Run(t: Tx, ops: seq<Op>, pgsz: nat, enc: (Bytes, DbHdr) -> Bytes): Tx
    requires WellFormed(t) && AllEnabled(t, ops, pgsz, enc)
    decreases |ops|
  {
    if ops == [] then t
    else
      StepWellFormed(t, ops[0], pgsz, enc);
      Run(Step(t, ops[0], enc), ops[1..], pgsz, enc)
  }

  // The level never drops below l on the way.
  ghost predicate StaysAt(t: Tx, ops: seq<Op>, l: nat, pgsz: nat, enc: (Bytes, DbHdr) -> Bytes)
    requires WellFormed(t) && AllEnabled(t, ops, pgsz, enc)
    decreases |ops|
  {
    && t.level >= l
    && (ops == [] || (
          StepWellFormed(t, ops[0], pgsz, enc);
          StaysAt(Step(t, ops[0], enc), ops[1..], l, pgsz, enc)))
  }

  // While level l stays open nothing that happens reaches the snapshots of the
  // levels up to l, nor the committed database.
  lemma {:induction false} RunKeepsOuter(t: Tx, ops: seq<Op>, l: nat, pgsz: nat, enc: (Bytes, DbHdr) -> Bytes)
    requires WellFormed(t) && AllEnabled(t, ops, pgsz, enc)
    requires l >= 2 && StaysAt(t, ops, l, pgsz, enc)
    ensures var t' := Run(t, ops, pgsz, enc);
            && WellFormed(t') && t'.level >= l
            && t'.saved[..l - 2] == t.saved[..l - 2]
            && t'.committed == t.committed
    decreases |ops|
  {
    if ops != [] {
      var t1 := Step(t, ops[0], enc);
      StepWellFormed(t, ops[0], pgsz, enc);
      StepKeepsOuter(t, ops[0], l, pgsz, enc);
      RunKeepsOuter(t1, ops[1..], l, pgsz, enc);
    }
  }

  lemma StepKeepsOuter(t: Tx, op: Op, l: nat, pgsz: nat, enc: (Bytes, DbHdr) -> Bytes)
    requires WellFormed(t) && Enabled(t, op, pgsz) && WellFormed(Step(t, op, enc))
    requires t.level >= l >= 2 && Step(t, op, enc).level >= l
    ensures var t' := Step(t, op, enc);
            t'.saved[..l - 2] == t.saved[..l - 2] && t'.committed == t.committed
  {
  }

  // Rolling back to level l >= 3 undoes everything since Begin opened it, and
  // leaves it open: header, every page, and the outer snapshots.
  lemma RollbackUndoesRun(t: Tx, l: nat, ops: seq<Op>, pgsz: nat, enc: (Bytes, DbHdr) -> Bytes)
    requires WellFormed(t) && t.level < l && l >= 3
    requires AllEnabled(Begin(t, l), ops, pgsz, enc)
    requires StaysAt(Begin(t, l), ops, l, pgsz, enc)
    ensures var t' := Run(Begin(t, l), ops, pgsz, enc);
            && WellFormed(t')
            && Rollback(t', l).cur == t.cur
            && Rollback(t', l).level == l
            && Rollback(t', l).saved == Begin(t, l).saved
            && Rollback(t', l).committed == t.committed
  {
    var t0 := Begin(t, l);
    RunKeepsOuter(t0, ops, l, pgsz, enc);
    var t' := Run(t0, ops, pgsz, enc);
    assert t'.saved[..l - 2][l - 3] == t0.saved[..l - 2][l - 3] == t.cur;
  }

  // Rolling back the write transaction, however deep the nesting, leaves the
  // committed database, which no operation has changed meanwhile.
  lemma RollbackUndoesTransaction(t: Tx, l: nat, ops: seq<Op>, pgsz: nat, enc: (Bytes, DbHdr) -> Bytes)
    requires WellFormed(t) && AllEnabled(t, ops, pgsz, enc)
    requires l <= 2 <= t.level && StaysAt(t, ops, 2, pgsz, enc)
    ensures var t' := Run(t, ops, pgsz, enc);
            && WellFormed(t')
            && Rollback(t', l).cur == t.committed == Rollback(t', l).committed
            && Rollback(t', l).level == l
  {
    RunKeepsOuter(t, ops, 2, pgsz, enc);
  }

  // A nested commit gives its changes to the level that stays open: the
  // content is kept, and whatever happens then inside level j, rolling back to
  // it restores what a rollback instead of the commit would have restored.
  lemma CommitThenRollback(t: Tx, k: nat, j: nat, ops: seq<Op>, pgsz: nat, enc: (Bytes, DbHdr) -> Bytes)
    requires WellFormed(t) && 2 <= j <= k <= t.level
    requires AllEnabled(Commit(t, k, enc), ops, pgsz, enc)
    requires StaysAt(Commit(t, k, enc), ops, j, pgsz, enc)
    ensures Commit(t, k, enc).cur == t.cur
    ensures var t' := Run(Commit(t, k, enc), ops, pgsz, enc);
            && WellFormed(t')
            && Rollback(t', j) == Rollback(t, j).(hdrDirty := t'.hdrDirty, touched := Rollback(t', j).touched)
  {
    var t1 := Commit(t, k, enc);
    RunKeepsOuter(t1, ops, j, pgsz, enc);
    var t' := Run(t1, ops, pgsz, enc);
    assert t1.saved[..j - 2] == t.saved[..j - 2];
    assert j >= 3 ==> t'.saved[..j - 2][j - 3] == t.saved[..j - 2][j - 3];
  }

  // ---- What bt.h says of calls that leave the level as it is

  // Commit to the present level, or to a higher one, does nothing.
  lemma CommitNoOp(t: Tx, l: nat, enc: (Bytes, DbHdr) -> Bytes)
    requires WellFormed(t) && t.level <= l
    ensures Commit(t, l, enc) == t
  {
    if t.level == l >= 2 {
      assert t.saved[..Depth(l)] == t.saved;
    }
  }

  // Rollback to the present level does something: it does nothing exactly if
  // that level has no changes to undo.
  lemma RollbackNoOp(t: Tx, l: nat)
    requires WellFormed(t)
    ensures Rollback(t, l) == t <==>
            || t.level < l
            || (t.level == l && if l >= 3 then t.cur == t.saved[l - 3]
                                else l == 2 ==> t.cur == t.committed && !t.touched)
  {
    if t.level == l >= 3 {
      assert t.saved[..l - 2] == t.saved;
    }
  }

  // A page is changed at level 3, and rolling back to level 3 changes it back.
  lemma RollbackAtLevel(t: Tx, q: nat, data: Bytes)
    requires WellFormed(t) && t.level == 2 && q in t.cur.pages && data != t.cur.pages[q]
    ensures var t' := Write(Begin(t, 3), q, data);
            WellFormed(t') && t'.level == 3 && Rollback(t', 3) != t' && Rollback(t', 3).cur == t.cur
  {
    var t' := Write(Begin(t, 3), q, data);
    assert t'.saved[0] == t.cur && t'.cur.pages[q] == data;
    RollbackNoOp(t', 3);
  }

  // The outermost commit persists every page. It persists the header if and
  // only if some page is on the dirty list, or the header was flagged dirty,
  // or there was nothing to persist.
  lemma CommitPersists(t: Tx, l: nat, enc: (Bytes, DbHdr) -> Bytes)
    requires WellFormed(t) && l < 2 <= t.level
    ensures var t' := Commit(t, l, enc);
            && t'.committed.pages == (if t.hdrDirty then Flush(t.cur, enc).pages else t.cur.pages)
            && (t'.committed.hdr == t.cur.hdr <==>
                  t.touched || t.hdrDirty || t.cur.hdr == t.committed.hdr)
  {
  }

  // A header change alone, not flagged, does not survive.
  lemma HeaderLost(t: Tx, h: DbHdr, enc: (Bytes, DbHdr) -> Bytes)
    requires WellFormed(t) && t.level == 2 && !t.touched && !t.hdrDirty && t.cur == t.committed
    requires h != t.cur.hdr
    ensures WellFormed(SetHdr(t, h, false))
    ensures Commit(SetHdr(t, h, false), 0, enc).cur.hdr != h
  {
  }

  // ---- What each call does

  // Begin ends at the level asked for or above, Commit and Rollback at it or
  // below.
  lemma CallLevels(t: Tx, l: nat, enc: (Bytes, DbHdr) -> Bytes)
    requires WellFormed(t)
    ensures Begin(t, l).level == if t.level < l then l else t.level
    ensures Commit(t, l, enc).level == Rollback(t, l).level == if t.level < l then t.level else l
    ensures Rollback(t, l).hdrDirty == t.hdrDirty && Rollback(t, l).committed == t.committed
  {
  }

  // Begin changes nothing a reader sees; each level it opens is to be rolled
  // back to the present content.
  lemma BeginOpens(t: Tx, l: nat)
    requires WellFormed(t)
    ensures var r := Begin(t, l);
            && r.cur == t.cur && r.committed == t.committed && r.hdrDirty == t.hdrDirty && r.touched == t.touched
            && t.saved <= r.saved
            && (forall j | |t.saved| <= j < |r.saved| :: r.saved[j] == t.cur)
            && |r.saved| + 2 == if r.level < 2 then 2 else r.level
  {
  }

  // The outermost commit: what is committed is what was written, the flag is
  // cleared, and a later commit has nothing more to do.
  lemma CommitEndsWrites(t: Tx, l: nat, enc: (Bytes, DbHdr) -> Bytes)
    requires WellFormed(t) && l < 2 && l <= t.level
    ensures var r := Commit(t, l, enc);
            && !r.touched && r.saved == [] && (t.level >= 2 ==> !r.hdrDirty)
            && r.cur.pages == r.committed.pages
            && (l == 0 ==> r.cur == r.committed)
            && (l == 1 ==> r.cur.hdr == t.cur.hdr)
            && (t.level < 2 ==> r.committed == t.committed)
  {
  }

  // A write is read back; nothing else is different.
  lemma WriteReadsBack(t: Tx, q: nat, data: Bytes, pgsz: nat, enc: (Bytes, DbHdr) -> Bytes)
    requires WellFormed(t) && Enabled(t, OpWrite(q, data), pgsz)
    ensures var r := Step(t, OpWrite(q, data), enc);
            && (forall x: nat :: x in r.cur.pages && r.cur.pages[x] == if x == q then data else t.cur.pages[x])
            && r.cur.hdr == t.cur.hdr && r.saved == t.saved && r.committed == t.committed
            && r.level == t.level && r.hdrDirty == t.hdrDirty
  {
  }

  lemma {:induction false} FlagStays(t: Tx, ops: seq<Op>, pgsz: nat, enc: (Bytes, DbHdr) -> Bytes)
    requires WellFormed(t) && AllEnabled(t, ops, pgsz, enc) && StaysAt(t, ops, 2, pgsz, enc) && t.hdrDirty
    ensures WellFormed(Run(t, ops, pgsz, enc)) && Run(t, ops, pgsz, enc).hdrDirty && Run(t, ops, pgsz, enc).level >= 2
    decreases |ops|
  {
    if ops != [] {
      StepWellFormed(t, ops[0], pgsz, enc);
      FlagStays(Step(t, ops[0], enc), ops[1..], pgsz, enc);
    }
  }

  // Flag a header change, do anything inside the write transaction, commit it:
  // the header as it is then is committed, and page 1 encodes it.
  lemma FlaggedHeaderSurvives(t: Tx, h: DbHdr, ops: seq<Op>, l: nat, pgsz: nat, enc: (Bytes, DbHdr) -> Bytes)
    requires WellFormed(t) && Enabled(t, OpSetHdr(h, true), pgsz) && l < 2
    requires var t1 := Step(t, OpSetHdr(h, true), enc);
             WellFormed(t1) && AllEnabled(t1, ops, pgsz, enc) && StaysAt(t1, ops, 2, pgsz, enc)
    ensures Step(t, OpSetHdr(h, true), enc).cur.hdr == h
    ensures var t2 := Run(Step(t, OpSetHdr(h, true), enc), ops, pgsz, enc);
            && WellFormed(t2)
            && var r := Commit(t2, l, enc);
               && r.committed.hdr == t2.cur.hdr
               && 1 in t2.cur.pages && 1 in r.committed.pages && r.committed.pages[1] == enc(t2.cur.pages[1], t2.cur.hdr)
               && (forall q: nat | q != 1 :: q in t2.cur.pages && q in r.committed.pages && r.committed.pages[q] == t2.cur.pages[q])
  {
    FlagStays(Step(t, OpSetHdr(h, true), enc), ops, pgsz, enc);
  }
}

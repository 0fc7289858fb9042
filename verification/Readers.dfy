// The reader slots of bt_lock.c: LockReader, LockReaderUnlock and
// LockReaderQuery as interleaved steps of many connections in several
// processes. Every lock operation and every read or write of a slot field is
// one step; slots are read without a lock while they are searched.

module Readers {
  import opened Locks

  const NREADER := 4
  const READER_DBONLY := 5
  const READER0 := 6

  // struct BtReadSlot
  datatype Slot = Slot(iFirst: nat, iLast: nat)

  // sqlite4BtLogFrameToIdx: the position of a frame in the log, or -1. log
  // holds the first and last frames of three regions, 0 for an empty one.
  function FrameToIdx(log: seq<nat>, f: nat): int
    requires |log| == 6
  {
    if log[0] != 0 && log[0] <= f <= log[1] then f - log[0]
    else
      var n0 := if log[0] != 0 then log[1] as int - log[0] + 1 else 0;
      if log[2] != 0 && log[2] <= f <= log[3] then n0 + (f - log[2])
      else
        var n1 := if log[2] != 0 then n0 + (log[3] as int - log[2]) + 1 else n0;
        if log[4] != 0 && log[4] <= f <= log[5] then n1 + (f - log[4]) else -1
  }

  // The slot a connection holds while it runs a query, if any: first and last
  // frame requested, slot number.
  datatype Mine = NoSlot | MySlot(f: nat, l: nat, i: nat)

  // Where a connection is. R: LockReader(f, l), U: LockReaderUnlock, Q:
  // LockReaderQuery, last telling which of the two values it asks for.
  datatype Pc =
    | Idle
    | RSearch(f: nat, l: nat)
    | RExcl(f: nat, l: nat, i: nat)     // about to take slot i EXCL
    | RFirst(f: nat, l: nat, i: nat)    // holds it: about to write iFirst
    | RLast(f: nat, l: nat, i: nat)
    | RShare(f: nat, l: nat, i: nat)    // about to take slot i SHARED
    | RCheck(f: nat, l: nat, i: nat)    // holds it: about to check the values
    | RDrop(f: nat, l: nat, i: nat)     // they are unsuitable
    | RHeld(f: nat, l: nat, i: nat)     // success
    | URelease(j: nat)
    | QRead(last: bool, pass: nat, j: nat, out: nat, mine: Mine)
    | QExcl(last: bool, pass: nat, j: nat, val: nat, out: nat, mine: Mine)
    | QFirst(last: bool, pass: nat, j: nat, out: nat, mine: Mine)
    | QLast(last: bool, pass: nat, j: nat, out: nat, mine: Mine)
    | QUnlock(last: bool, pass: nat, j: nat, out: nat, mine: Mine)
    | QDone(last: bool, out: nat, mine: Mine)

  datatype G = G(sys: Sys, log: seq<nat>, slots: seq<Slot>, pc: map<nat, Pc>)

  // ---- Steps of connection c, which ends up at n

  // iFirst appears to be in the log.
  predicate InLog(log: seq<nat>, f: nat)
    requires |log| == 6
  {
    log[0] <= f <= log[1] || log[2] <= f <= log[3] || log[4] <= f <= log[5]
  }

  // The check of a slot against the request, lines 546-548.
  predicate Suits(log: seq<nat>, s: Slot, f: nat, l: nat)
    requires |log| == 6
  {
    && 0 <= FrameToIdx(log, s.iFirst) <= FrameToIdx(log, f)
    && 0 <= FrameToIdx(log, s.iLast) <= FrameToIdx(log, l)
  }

  function Asked(s: Slot, last: bool): nat {
    if last then s.iLast else s.iFirst
  }

  // Line 630: keep the earliest value seen on a busy slot.
  function Earliest(log: seq<nat>, val: nat, out: nat): nat
    requires |log| == 6
  {
    var i := FrameToIdx(log, val);
    if i >= 0 && (out == 0 || i < FrameToIdx(log, out)) then val else out
  }

  function WithoutSlot(mine: Mine, j: nat): Mine {
    if mine == NoSlot || mine.i == j then NoSlot else mine
  }

  // Steps without a lock operation: the slots afterwards, and where c is.
  ghost predicate LocalStep(log: seq<nat>, a: seq<Slot>, pc: Pc, a': seq<Slot>, n: Pc)
    requires |log| == 6 && |a| == NREADER
  {
    match pc
    case Idle =>
      && a' == a
      && ((n.RSearch? && n.l == log[5] != 0 && InLog(log, n.f)) || (n.QRead? && n == QRead(n.last, 0, 0, 0, NoSlot)))
    case RSearch(f, l) =>
      a' == a && (n == RExcl(f, l, 0) || (n.RShare? && n == RShare(f, l, n.i) && n.i < NREADER))
    case RFirst(f, l, i) => i < NREADER && a' == a[i := a[i].(iFirst := f)] && n == RLast(f, l, i)
    case RLast(f, l, i) => i < NREADER && a' == a[i := a[i].(iLast := l)] && n == RShare(f, l, i)
    case RCheck(f, l, i) =>
      a' == a && i < NREADER && n == (if Suits(log, a[i], f, l) then RHeld(f, l, i) else RDrop(f, l, i))
    case RHeld(f, l, i) =>
      a' == a && (n == URelease(0) || (n.QRead? && n == QRead(n.last, 0, 0, 0, MySlot(f, l, i))))
    case QRead(last, pass, j, out, mine) =>
      && a' == a
      && (if j < NREADER then
            n == (if Asked(a[j], last) != 0 then QExcl(last, pass, j, Asked(a[j], last), out, mine)
                  else QRead(last, pass, j + 1, out, mine))
          else n == (if pass < 2 && out == 0 then QRead(last, pass + 1, 0, out, mine) else QDone(last, out, mine)))
    case QFirst(last, pass, j, out, mine) =>
      j < NREADER && a' == a[j := a[j].(iFirst := 0)] && n == QLast(last, pass, j, out, mine)
    case QLast(last, pass, j, out, mine) =>
      j < NREADER && a' == a[j := a[j].(iLast := 0)] && n == QUnlock(last, pass, j, out, mine)
    case QDone(last, out, mine) =>
      a' == a && n == (if mine.MySlot? then RHeld(mine.f, mine.l, mine.i) else Idle)
    case _ => false
  }

  // The lock operation a step performs.
  function Wanted(pc: Pc): (Mode, nat) {
    match pc
    case RExcl(_, _, i) => (Excl, READER0 + i)
    case RShare(_, _, i) => (Shared, READER0 + i)
    case RDrop(_, _, i) => (Unlock, READER0 + i)
    case URelease(j) => (Unlock, READER_DBONLY + j)
    case QExcl(_, _, j, _, _, _) => (Excl, READER0 + j)
    case QUnlock(_, _, j, _, _) => (Unlock, READER0 + j)
    case _ => (Unlock, 0)
  }

  // Where c goes after a lock operation that answered rc. A reader may always
  // give up: the number of attempts is bounded.
  predicate AfterLock(log: seq<nat>, pc: Pc, rc: Rc, n: Pc)
    requires |log| == 6
  {
    match pc
    case RExcl(f, l, i) =>
      && i < NREADER
      && (match rc
          case Ok => n == RFirst(f, l, i)
          case Busy => if i + 1 < NREADER then n == RExcl(f, l, i + 1)
                       else n == RSearch(f, l) || n == Idle || (n.RShare? && n == RShare(f, l, n.i) && n.i < NREADER)
          case IoErr => n == Idle)
    case RShare(f, l, i) =>
      && i < NREADER
      && (match rc
          case Ok => n == RCheck(f, l, i)
          case Busy => n == RSearch(f, l) || n == Idle
          case IoErr => n == Idle)
    case RDrop(f, l, i) => i < NREADER && (n == RSearch(f, l) || n == Idle)
    case URelease(j) => j <= NREADER && n == (if j < NREADER then URelease(j + 1) else Idle)
    case QExcl(last, pass, j, val, out, mine) =>
      && j < NREADER
      && (match rc
          case Ok => n == QFirst(last, pass, j, out, WithoutSlot(mine, j))
          case Busy => n == QRead(last, pass, j + 1, Earliest(log, val, out), mine)
          case IoErr => n == (if mine.MySlot? then RHeld(mine.f, mine.l, mine.i) else Idle))
    case QUnlock(last, pass, j, out, mine) => j < NREADER && n == QRead(last, pass, j + 1, out, mine)
    case _ => false
  }

  ghost predicate Step(g: G, c: nat, g': G)
    requires |g.log| == 6 && |g.slots| == NREADER
  {
    && c in g.sys.listed && c in g.sys.conns && c in g.pc && c in g'.pc
    && g'.log == g.log
    && ((LocalStep(g.log, g.slots, g.pc[c], g'.slots, g'.pc[c])
         && g'.sys == g.sys && g'.pc == g.pc[c := g'.pc[c]])
        || LockStep(g, c, g', true) || LockStep(g, c, g', false)
        || OtherLock(g, c, g'))
  }

  ghost predicate LockStep(g: G, c: nat, g': G, err: bool)
    requires |g.log| == 6 && c in g.sys.conns && c in g.pc && c in g'.pc
  {
    var (op, k) := Wanted(g.pc[c]);
    var (s', rc) := Lockop(g.sys, c, k, op, err);
    && AfterLock(g.log, g.pc[c], rc, g'.pc[c])
    && g' == g.(sys := s', pc := g.pc[c := g'.pc[c]])
  }

  // A lock operation on a slot that is not a reader slot.
  ghost predicate OtherLock(g: G, c: nat, g': G)
    requires c in g.sys.conns
  {
    exists k: nat, op, err :: k < READER0 && g' == g.(sys := Lockop(g.sys, c, k, op, err).0)
  }

  // ---- Invariant

  // The slot c holds exclusively, and the one it holds shared, for certain.
  predicate MustExcl(pc: Pc, i: nat) {
    match pc
    case RFirst(_, _, j) => i == j
    case RLast(_, _, j) => i == j
    case QFirst(_, _, j, _, _) => i == j
    case QLast(_, _, j, _, _) => i == j
    case QUnlock(_, _, j, _, _) => i == j
    case _ => false
  }

  function MineOf(pc: Pc): Mine {
    match pc
    case RHeld(f, l, i) => MySlot(f, l, i)
    case QRead(_, _, _, _, mine) => mine
    case QExcl(_, _, _, _, _, mine) => mine
    case QFirst(_, _, _, _, mine) => mine
    case QLast(_, _, _, _, mine) => mine
    case QUnlock(_, _, _, _, mine) => mine
    case QDone(_, _, mine) => mine
    case _ => NoSlot
  }

  predicate MustShared(pc: Pc, i: nat) {
    (pc.RCheck? && pc.i == i) || (pc.RDrop? && pc.i == i) || (MineOf(pc).MySlot? && MineOf(pc).i == i)
  }

  predicate LocksFit(pc: Pc, a: Conn, i: nat) {
    && (READER0 + i in a.excl ==> MustExcl(pc, i) || (pc.RShare? && pc.i == i))
    && (READER0 + i in a.shared ==> MustShared(pc, i) || (pc.URelease? && pc.j <= i + 1))
    && (MustExcl(pc, i) ==> READER0 + i in a.excl)
    && (MustShared(pc, i) ==> READER0 + i in a.shared)
  }

  predicate PcOk(g: G, pc: Pc)
    requires |g.log| == 6 && |g.slots| == NREADER
  {
    && (MineOf(pc).MySlot? ==>
          MineOf(pc).i < NREADER && Suits(g.log, g.slots[MineOf(pc).i], MineOf(pc).f, MineOf(pc).l))
    && (pc.URelease? ==> pc.j <= NREADER)
    && ((pc.RExcl? || pc.RFirst? || pc.RLast? || pc.RShare? || pc.RCheck? || pc.RDrop?) ==> pc.i < NREADER)
    && ((pc.QFirst? || pc.QLast? || pc.QUnlock? || pc.QExcl?) ==> pc.j < NREADER)
    && ((pc.QFirst? || pc.QLast? || pc.QUnlock?) ==> pc.mine != NoSlot ==> pc.mine.i != pc.j)
    // what has been written to the slot held EXCL
    && (pc.RLast? ==> g.slots[pc.i].iFirst == pc.f)
    && (pc.QLast? ==> g.slots[pc.j].iFirst == 0)
    && (pc.QUnlock? ==> g.slots[pc.j] == Slot(0, 0))
  }

  ghost predicate GInv(g: G) {
    && |g.log| == 6 && |g.slots| == NREADER
    && Inv(g.sys)
    && (forall c | c in g.sys.listed :: c in g.pc && c in g.sys.conns)
    && (forall c, i: nat | c in g.sys.listed && i < NREADER :: LocksFit(g.pc[c], g.sys.conns[c], i))
    && (forall c | c in g.sys.listed :: PcOk(g, g.pc[c]))
  }

  ghost predicate Holds(g: G, d: nat, i: nat) {
    d in g.sys.listed && d in g.sys.conns && READER0 + i in g.sys.conns[d].shared
  }

  // While another connection holds a slot SHARED its values do not change.
  lemma SlotProtected(g: G, c: nat, g': G, d: nat, i: nat)
    requires GInv(g) && Step(g, c, g') && d != c && i < NREADER && Holds(g, d, i)
    ensures |g'.slots| == NREADER && g'.slots[i] == g.slots[i]
  {
    InvExclusive(g.sys);
    assert LocksFit(g.pc[c], g.sys.conns[c], i);
    assert Compatible(g.sys.conns[c], g.sys.conns[d], READER0 + i);
  }

  // Nor while another connection holds it EXCL.
  lemma ExclProtected(g: G, c: nat, g': G, d: nat, i: nat)
    requires GInv(g) && Step(g, c, g') && d != c && i < NREADER
    requires d in g.sys.listed && d in g.sys.conns && READER0 + i in g.sys.conns[d].excl
    ensures |g'.slots| == NREADER && g'.slots[i] == g.slots[i]
  {
    InvExclusive(g.sys);
    assert LocksFit(g.pc[c], g.sys.conns[c], i);
    assert Compatible(g.sys.conns[c], g.sys.conns[d], READER0 + i);
  }

  lemma StepKeepsSys(g: G, c: nat, g': G)
    requires GInv(g) && Step(g, c, g')
    ensures Inv(g'.sys) && g'.sys.listed == g.sys.listed && g'.log == g.log && |g'.slots| == NREADER
    ensures forall d | d in g.sys.listed :: d in g.sys.conns && d in g'.pc && d in g'.sys.conns
    ensures forall d | d in g.sys.listed && d != c :: g'.pc[d] == g.pc[d] && g'.sys.conns[d] == g.sys.conns[d]
  {
    hide Exclusive, LocalStep;
    var (op, k) := Wanted(g.pc[c]);
    LockopKeeps(g.sys, c, k, op, true);
    LockopKeeps(g.sys, c, k, op, false);
    if OtherLock(g, c, g') {
      var k: nat, op, err :| k < READER0 && g' == g.(sys := Lockop(g.sys, c, k, op, err).0);
      LockopKeeps(g.sys, c, k, op, err);
    }
    LocalSize(g, c, g');
  }

  lemma LocalSize(g: G, c: nat, g': G)
    requires |g.log| == 6 && |g.slots| == NREADER && Step(g, c, g')
    ensures |g'.slots| == NREADER
  {
    hide Lockop;
  }

  // The locks of c fit the place it moves to, and so do the slots.
  lemma LocalFits(g: G, c: nat, g': G, i: nat)
    requires GInv(g) && i < NREADER && c in g.sys.listed && c in g.sys.conns && c in g'.pc
    requires LocalStep(g.log, g.slots, g.pc[c], g'.slots, g'.pc[c]) && g'.sys == g.sys && g'.log == g.log
    ensures LocksFit(g'.pc[c], g'.sys.conns[c], i)
  {
    hide Inv, Exclusive, PcOk, Suits, Earliest, InLog;
    assert LocksFit(g.pc[c], g.sys.conns[c], i);
  }

  lemma LocalPlaced(g: G, c: nat, g': G)
    requires GInv(g) && c in g.sys.listed && c in g.sys.conns && c in g'.pc
    requires LocalStep(g.log, g.slots, g.pc[c], g'.slots, g'.pc[c]) && g'.sys == g.sys && g'.log == g.log
    ensures |g'.slots| == NREADER && PcOk(g', g'.pc[c])
  {
    hide Inv, Exclusive, LocksFit, FrameToIdx, Earliest;
    assert PcOk(g, g.pc[c]);
  }

  lemma LockFits(g: G, c: nat, g': G, err: bool, i: nat)
    requires GInv(g) && i < NREADER && c in g.sys.listed && c in g.sys.conns && c in g'.pc && LockStep(g, c, g', err)
    ensures c in g'.sys.conns && LocksFit(g'.pc[c], g'.sys.conns[c], i)
  {
    hide Inv, Exclusive, OtherExcl, OtherShared, XLock, Earliest;
    assert LocksFit(g.pc[c], g.sys.conns[c], i) && PcOk(g, g.pc[c]);
    HolderAlone(g.sys, c, Wanted(g.pc[c]).1);
    assert g.pc[c].RShare? ==> LocksFit(g.pc[c], g.sys.conns[c], g.pc[c].i);
  }

  lemma LockPlaced(g: G, c: nat, g': G, err: bool)
    requires GInv(g) && c in g.sys.listed && c in g.sys.conns && c in g'.pc && LockStep(g, c, g', err)
    ensures |g'.slots| == NREADER && |g'.log| == 6 && PcOk(g', g'.pc[c])
  {
    hide Inv, LocksFit, Lockop, FrameToIdx, Earliest;
    assert PcOk(g, g.pc[c]);
  }

  lemma StepFits(g: G, c: nat, g': G, i: nat)
    requires GInv(g) && Step(g, c, g') && i < NREADER
    ensures c in g'.pc && c in g'.sys.conns && |g'.slots| == NREADER && |g'.log| == 6
    ensures LocksFit(g'.pc[c], g'.sys.conns[c], i) && PcOk(g', g'.pc[c])
  {
    hide Inv, LocalStep, LockStep, LocksFit, PcOk;
    StepKeepsSys(g, c, g');
    if LocalStep(g.log, g.slots, g.pc[c], g'.slots, g'.pc[c]) && g'.sys == g.sys {
      LocalFits(g, c, g', i);
      LocalPlaced(g, c, g');
    } else if LockStep(g, c, g', true) {
      LockFits(g, c, g', true, i);
      LockPlaced(g, c, g', true);
    } else if LockStep(g, c, g', false) {
      LockFits(g, c, g', false, i);
      LockPlaced(g, c, g', false);
    } else {
      OtherFits(g, c, g', i);
    }
  }

  lemma OtherFits(g: G, c: nat, g': G, i: nat)
    requires GInv(g) && c in g.sys.listed && c in g.sys.conns && i < NREADER && OtherLock(g, c, g')
    ensures c in g'.pc && c in g'.sys.conns && |g'.slots| == NREADER && |g'.log| == 6
    ensures LocksFit(g'.pc[c], g'.sys.conns[c], i) && PcOk(g', g'.pc[c])
  {
    hide Inv, OtherExcl, OtherShared, XLock;
    assert LocksFit(g.pc[c], g.sys.conns[c], i) && PcOk(g, g.pc[c]);
  }

  // Every step of every connection keeps the invariant.
  lemma StepKeeps(g: G, c: nat, g': G)
    requires GInv(g) && Step(g, c, g')
    ensures GInv(g')
  {
    hide Inv, Step, LocksFit;
    StepKeepsSys(g, c, g');
    forall d | d in g'.sys.listed
      ensures PcOk(g', g'.pc[d])
    {
      if d == c {
        StepFits(g, c, g', 0);
      } else {
        StepOther(g, c, g', d);
      }
    }
    forall d, i: nat | d in g'.sys.listed && i < NREADER
      ensures LocksFit(g'.pc[d], g'.sys.conns[d], i)
    {
      if d == c {
        StepFits(g, c, g', i);
      } else {
        assert LocksFit(g.pc[d], g.sys.conns[d], i);
      }
    }
  }

  lemma StepOther(g: G, c: nat, g': G, d: nat)
    requires GInv(g) && Step(g, c, g') && d in g.sys.listed && d != c && d in g'.pc && g'.pc[d] == g.pc[d]
    requires d in g.sys.conns && |g'.slots| == NREADER && g'.log == g.log
    ensures PcOk(g', g'.pc[d])
  {
    hide Inv, Step;
    var m := MineOf(g.pc[d]);
    assert PcOk(g, g.pc[d]);
    if m.MySlot? {
      assert LocksFit(g.pc[d], g.sys.conns[d], m.i);
      SlotProtected(g, c, g', d, m.i);
    }
    forall i: nat | i < NREADER && MustExcl(g.pc[d], i)
      ensures g'.slots[i] == g.slots[i]
    {
      assert LocksFit(g.pc[d], g.sys.conns[d], i);
      ExclProtected(g, c, g', d, i);
    }
  }

  // ---- What a successful LockReader gives

  // The connection holds a slot SHARED whose values are in the log and no
  // later than the request.
  lemma ReaderHolds(g: G, r: nat)
    requires GInv(g) && r in g.sys.listed && g.pc[r].RHeld?
    ensures var pc := g.pc[r];
            && pc.i < NREADER && Holds(g, r, pc.i)
            && 0 <= FrameToIdx(g.log, g.slots[pc.i].iFirst) <= FrameToIdx(g.log, pc.f)
            && 0 <= FrameToIdx(g.log, g.slots[pc.i].iLast) <= FrameToIdx(g.log, pc.l)
  {
    hide FrameToIdx;
    var pc := g.pc[r];
    assert PcOk(g, pc);
    assert LocksFit(pc, g.sys.conns[r], pc.i);
  }

  // ---- What LockReaderQuery finds while a reader keeps its slot

  predicate InQuery(pc: Pc) {
    pc.QRead? || pc.QExcl? || pc.QFirst? || pc.QLast? || pc.QUnlock? || pc.QDone?
  }

  predicate AtOrBefore(log: seq<nat>, out: nat, t: nat)
    requires |log| == 6
  {
    out != 0 && 0 <= FrameToIdx(log, out) <= FrameToIdx(log, t)
  }

  // The query has passed slot i.
  predicate Passed(pc: Pc, i: nat)
    requires InQuery(pc)
  {
    pc.QDone? || pc.pass > 0 || pc.j > i
  }

  predicate Tracks(log: seq<nat>, s: Slot, pc: Pc, i: nat)
    requires |log| == 6
  {
    && InQuery(pc)
    && (pc.out != 0 ==> FrameToIdx(log, pc.out) >= 0)
    && (Passed(pc, i) ==> AtOrBefore(log, pc.out, Asked(s, pc.last)))
    && (pc.QExcl? && pc.j == i ==> pc.val == Asked(s, pc.last))
    && ((pc.QFirst? || pc.QLast? || pc.QUnlock?) ==> pc.j != i)
  }

  ghost predicate Keeps(g: G, r: nat, m: Mine) {
    && m.MySlot? && r in g.sys.listed && r in g.pc && MineOf(g.pc[r]) == m
  }

  // EXCL is never granted on a slot another connection holds SHARED.
  lemma ExclRefused(s: Sys, q: nat, k: nat, err: bool, r: nat)
    requires Inv(s) && q in s.listed && r in s.listed && q != r && r in s.conns && q in s.conns
    requires k in s.conns[r].shared
    ensures Lockop(s, q, k, Excl, err).1 != Ok
  {
    InvExclusive(s);
    assert Compatible(s.conns[q], s.conns[r], k) && Compatible(s.conns[r], s.conns[q], k);
    if s.conns[q].pid != s.conns[r].pid {
      assert Backed(s.os, s.conns[r], k);
      assert !Tolerates(OsMode(s.os, s.conns[r].pid, k), Excl);
    }
  }

  lemma ZeroNotInLog(log: seq<nat>)
    requires |log| == 6
    ensures FrameToIdx(log, 0) == -1
  {
  }

  lemma QueryStep(g: G, q: nat, g': G, r: nat, m: Mine)
    requires GInv(g) && Step(g, q, g') && q != r && Keeps(g, r, m) && m.i < NREADER
    requires Tracks(g.log, g.slots[m.i], g.pc[q], m.i) && InQuery(g'.pc[q])
    ensures Tracks(g.log, g.slots[m.i], g'.pc[q], m.i)
  {
    hide Inv, Exclusive, Lockop, FrameToIdx, OtherLock;
    ZeroNotInLog(g.log);
    assert LocksFit(g.pc[r], g.sys.conns[r], m.i);
    assert PcOk(g, g.pc[r]);
    var (op, k) := Wanted(g.pc[q]);
    if op == Excl && k == READER0 + m.i {
      ExclRefused(g.sys, q, k, true, r);
      ExclRefused(g.sys, q, k, false, r);
    }
    if OtherLock(g, q, g') {
      OtherSame(g, q, g');
    }
  }

  lemma OtherSame(g: G, c: nat, g': G)
    requires |g.log| == 6 && c in g.sys.conns && OtherLock(g, c, g')
    ensures g'.pc == g.pc && g'.slots == g.slots
  {
  }

  // ---- Every run

  // A run of the system, one connection moving at a time.
  ghost predicate IsRun(gs: seq<G>) {
    && gs != [] && GInv(gs[0])
    && (forall t | 0 <= t < |gs| - 1 :: Moves(gs[t], gs[t + 1]))
  }

  ghost predicate Moves(g: G, g': G) {
    |g.log| == 6 && |g.slots| == NREADER && exists c :: Step(g, c, g')
  }

  lemma {:induction false} RunKeeps(gs: seq<G>, t: nat)
    requires IsRun(gs) && t < |gs|
    ensures GInv(gs[t]) && gs[t].log == gs[0].log && gs[t].sys.listed == gs[0].sys.listed
  {
    hide GInv, Step;
    if t > 0 {
      RunKeeps(gs, t - 1);
      assert Moves(gs[t - 1], gs[t]);
      var c :| Step(gs[t - 1], c, gs[t]);
      StepKeeps(gs[t - 1], c, gs[t]);
      StepKeepsSys(gs[t - 1], c, gs[t]);
    }
  }

  // r keeps its slot all along: then its values stay as they are.
  lemma {:induction false} RunProtects(gs: seq<G>, r: nat, m: Mine, t: nat)
    requires IsRun(gs) && t < |gs| && m.MySlot?
    requires forall u | 0 <= u < |gs| :: Keeps(gs[u], r, m)
    ensures |gs[t].slots| == |gs[0].slots| == NREADER > m.i && gs[t].slots[m.i] == gs[0].slots[m.i]
  {
    assert PcOk(gs[0], gs[0].pc[r]);
    if t > 0 {
      RunProtects(gs, r, m, t - 1);
      RunKeeps(gs, t - 1);
      assert Moves(gs[t - 1], gs[t]);
      var c :| Step(gs[t - 1], c, gs[t]);
      OneStepProtects(gs[t - 1], c, gs[t], r, m);
    }
  }

  lemma OneStepProtects(g: G, c: nat, g': G, r: nat, m: Mine)
    requires GInv(g) && Step(g, c, g') && Keeps(g, r, m) && Keeps(g', r, m) && m.i < NREADER
    ensures |g'.slots| == NREADER && g'.slots[m.i] == g.slots[m.i]
  {
    hide Inv, Lockop, FrameToIdx;
    assert LocksFit(g.pc[r], g.sys.conns[r], m.i) && PcOk(g, g.pc[r]);
    if c != r {
      SlotProtected(g, c, g', r, m.i);
    }
  }

  // A query that starts and ends while a reader keeps its slot answers with a
  // frame at or before the one in that slot, and so at or before the one the
  // reader asked for.
  lemma QueryRespectsReader(gs: seq<G>, q: nat, r: nat, m: Mine)
    requires IsRun(gs) && q != r && |gs[0].log| == 6 && m.MySlot?
    requires forall u | 0 <= u < |gs| :: Keeps(gs[u], r, m)
    requires forall u | 0 <= u < |gs| :: q in gs[u].pc && InQuery(gs[u].pc[q])
    requires gs[0].pc[q].QRead? && gs[0].pc[q].pass == gs[0].pc[q].j == gs[0].pc[q].out == 0
    requires gs[|gs| - 1].pc[q].QDone?
    ensures |gs[0].slots| == NREADER > m.i
    ensures var pc := gs[|gs| - 1].pc[q];
            && pc.out != 0 && 0 <= FrameToIdx(gs[0].log, pc.out)
            && (if pc.last then FrameToIdx(gs[0].log, pc.out) <= FrameToIdx(gs[0].log, gs[0].slots[m.i].iLast) <= FrameToIdx(gs[0].log, m.l)
                else FrameToIdx(gs[0].log, pc.out) <= FrameToIdx(gs[0].log, gs[0].slots[m.i].iFirst) <= FrameToIdx(gs[0].log, m.f))
  {
    hide Inv, LocksFit, Step, FrameToIdx;
    assert PcOk(gs[0], gs[0].pc[r]);
    RunProtects(gs, r, m, 0);
    QueryTracks(gs, q, r, m, |gs| - 1);
  }

  lemma {:induction false} QueryTracks(gs: seq<G>, q: nat, r: nat, m: Mine, t: nat)
    requires IsRun(gs) && q != r && t < |gs| && |gs[0].log| == 6 && m.MySlot?
    requires forall u | 0 <= u < |gs| :: Keeps(gs[u], r, m)
    requires forall u | 0 <= u < |gs| :: q in gs[u].pc && InQuery(gs[u].pc[q])
    requires gs[0].pc[q].QRead? && gs[0].pc[q].pass == gs[0].pc[q].j == gs[0].pc[q].out == 0
    ensures |gs[0].slots| == NREADER > m.i
    ensures Tracks(gs[0].log, gs[0].slots[m.i], gs[t].pc[q], m.i)
  {
    hide GInv, Step, Keeps, FrameToIdx;
    RunProtects(gs, r, m, 0);
    if t > 0 {
      QueryTracks(gs, q, r, m, t - 1);
      RunKeeps(gs, t - 1);
      RunProtects(gs, r, m, t - 1);
      assert Moves(gs[t - 1], gs[t]);
      var c :| Step(gs[t - 1], c, gs[t]);
      if c == q {
        QueryStep(gs[t - 1], q, gs[t], r, m);
      } else {
        OthersStay(gs[t - 1], c, gs[t], q);
      }
    }
  }

  lemma OthersStay(g: G, c: nat, g': G, q: nat)
    requires |g.log| == 6 && |g.slots| == NREADER && Step(g, c, g') && q != c && q in g.pc
    ensures q in g'.pc && g'.pc[q] == g.pc[q]
  {
  }

  // ---- A query by a connection that holds a slot itself

  // Its attempt to take its own slot EXCL is granted: nothing but another holder
  // or the OS stands in the way.
  ghost predicate OwnSlotFree(g: G, q: nat, i: nat, err: bool)
    requires q in g.sys.conns
  {
    && !OtherShared(g.sys, q, READER0 + i)
    && (g.sys.multi ==> !err && Grantable(g.sys.os, g.sys.conns[q].pid, READER0 + i, Excl))
  }

  // The query comes to the slot its connection holds: the slot is lost exactly
  // if the attempt is granted.
  lemma OwnSlotUpgraded(g: G, q: nat, g': G, err: bool)
    requires GInv(g) && q in g.sys.listed && q in g.sys.conns && q in g.pc && q in g'.pc && LockStep(g, q, g', err)
    requires var pc := g.pc[q]; pc.QExcl? && pc.mine.MySlot? && pc.mine.i == pc.j
    ensures MineOf(g'.pc[q]) == NoSlot <==> OwnSlotFree(g, q, g.pc[q].j, err)
    ensures MineOf(g'.pc[q]) != NoSlot ==> MineOf(g'.pc[q]) == g.pc[q].mine
  {
    hide Grantable, OtherShared;
    var i := g.pc[q].j;
    assert LocksFit(g.pc[q], g.sys.conns[q], i) && PcOk(g, g.pc[q]);
    SharedAlone(g.sys, q, READER0 + i);
  }

  lemma SharedAlone(s: Sys, c: nat, k: nat)
    requires Inv(s) && c in s.listed && c in s.conns && k in s.conns[c].shared
    ensures !OtherExcl(s, c, k) && k !in s.conns[c].excl
  {
    forall d | d in s.listed && d in s.conns && d != c && s.conns[d].pid == s.conns[c].pid
      ensures k !in s.conns[d].excl
    {
      Rivals(s, c, k, d);
    }
  }

  ghost predicate OwnAttempt(g: G, q: nat) {
    q in g.sys.listed && q in g.sys.conns && q in g.pc
    && g.pc[q].QExcl? && g.pc[q].mine.MySlot? && g.pc[q].mine.i == g.pc[q].j
  }

  // The step in which q upgrades its own slot.
  ghost predicate Upgrade(g: G, q: nat, g': G) {
    && OwnAttempt(g, q) && q in g'.pc && |g.log| == 6
    && exists err :: LockStep(g, q, g', err) && OwnSlotFree(g, q, g.pc[q].j, err)
  }

  // What a query at pc knows of its slot afterwards, when it ends as well.
  predicate AfterQuery(pc: Pc, m: Mine) {
    if InQuery(pc) then MineOf(pc) == m
    else if m.MySlot? then pc == RHeld(m.f, m.l, m.i)
    else pc == Idle
  }

  lemma QueryLock(g: G, q: nat, g': G, err: bool)
    requires GInv(g) && q in g.sys.listed && q in g.sys.conns && q in g.pc && q in g'.pc
    requires LockStep(g, q, g', err) && InQuery(g.pc[q])
    ensures AfterQuery(g'.pc[q], if OwnAttempt(g, q) && OwnSlotFree(g, q, g.pc[q].j, err) then NoSlot else MineOf(g.pc[q]))
    ensures g'.pc[q] != g.pc[q]
  {
    hide GInv, Lockop, OwnSlotFree, Earliest, FrameToIdx;
    if OwnAttempt(g, q) {
      OwnSlotUpgraded(g, q, g', err);
    }
  }

  lemma QueryLocal(g: G, q: nat, g': G)
    requires GInv(g) && q in g.pc && q in g'.pc && InQuery(g.pc[q])
    requires LocalStep(g.log, g.slots, g.pc[q], g'.slots, g'.pc[q])
    ensures AfterQuery(g'.pc[q], MineOf(g.pc[q])) && !OwnAttempt(g, q)
  {
    hide Inv, LocksFit, PcOk;
  }

  // One step of any connection while q runs a query.
  lemma QueryMine(g: G, c: nat, g': G, q: nat)
    requires GInv(g) && Step(g, c, g') && q in g.sys.listed && q in g.pc && InQuery(g.pc[q])
    ensures q in g'.pc && AfterQuery(g'.pc[q], if Upgrade(g, q, g') then NoSlot else MineOf(g.pc[q]))
  {
    hide LocalStep, LockStep, OtherLock, AfterQuery, OwnSlotFree, InQuery;
    if c != q {
      OthersStay(g, c, g', q);
      Unmoved(g, g', q);
    } else if OtherLock(g, q, g') {
      OtherSame(g, q, g');
      Unmoved(g, g', q);
    } else if LocalStep(g.log, g.slots, g.pc[q], g'.slots, g'.pc[q]) {
      QueryLocal(g, q, g');
    } else if LockStep(g, q, g', true) && !(LockStep(g, q, g', false) && OwnAttempt(g, q) && OwnSlotFree(g, q, g.pc[q].j, false)) {
      QueryLock(g, q, g', true);
    } else {
      QueryLock(g, q, g', false);
    }
  }

  lemma Unmoved(g: G, g': G, q: nat)
    requires GInv(g) && q in g.sys.listed && q in g.sys.conns && q in g.pc && q in g'.pc && g'.pc[q] == g.pc[q] && InQuery(g.pc[q])
    ensures AfterQuery(g'.pc[q], MineOf(g.pc[q])) && !Upgrade(g, q, g')
  {
    hide Inv, Lockop, OwnSlotFree, Earliest;
  }

  // A run in which q starts a query under the slot m, and ends it at the last state.
  ghost predicate IsQuery(gs: seq<G>, q: nat, m: Mine) {
    && IsRun(gs) && |gs| >= 2 && q in gs[0].sys.listed
    && (forall u | 0 <= u < |gs| :: q in gs[u].pc && (u < |gs| - 1 <==> InQuery(gs[u].pc[q])))
    && gs[0].pc[q].QRead? && gs[0].pc[q] == QRead(gs[0].pc[q].last, 0, 0, 0, m)
  }

  lemma {:induction false} QueryMineRun(gs: seq<G>, q: nat, m: Mine, t: nat)
    requires IsQuery(gs, q, m) && m.MySlot? && t < |gs|
    ensures AfterQuery(gs[t].pc[q], if exists u | 0 <= u < t :: Upgrade(gs[u], q, gs[u + 1]) then NoSlot else m)
  {
    hide GInv, Step, AfterQuery, Upgrade;
    if t == 0 {
      assert AfterQuery(gs[0].pc[q], m) by { StartsWith(gs[0].pc[q], m); }
    } else {
      QueryMineRun(gs, q, m, t - 1);
      RunKeeps(gs, t - 1);
      assert Moves(gs[t - 1], gs[t]);
      var c :| Step(gs[t - 1], c, gs[t]);
      QueryMine(gs[t - 1], c, gs[t], q);
      MineAfter(gs[t - 1].pc[q], if exists u | 0 <= u < t - 1 :: Upgrade(gs[u], q, gs[u + 1]) then NoSlot else m);
      assert (exists u | 0 <= u < t :: Upgrade(gs[u], q, gs[u + 1])) <==>
             (exists u | 0 <= u < t - 1 :: Upgrade(gs[u], q, gs[u + 1])) || Upgrade(gs[t - 1], q, gs[t - 1 + 1]);
    }
  }

  lemma StartsWith(pc: Pc, m: Mine)
    requires pc.QRead? && pc.mine == m
    ensures AfterQuery(pc, m)
  {
  }

  lemma MineAfter(pc: Pc, m: Mine)
    requires InQuery(pc) && AfterQuery(pc, m)
    ensures MineOf(pc) == m
  {
  }

  // The connection has its slot back after the query exactly if no attempt on it
  // was granted, that is, if at each one another connection of the process held
  // the slot or the OS refused it. Otherwise it ends without a slot.
  lemma QueryKeepsOwnSlot(gs: seq<G>, q: nat, m: Mine)
    requires IsQuery(gs, q, m) && m.MySlot?
    ensures var pc := gs[|gs| - 1].pc[q];
            if exists u | 0 <= u < |gs| - 1 :: Upgrade(gs[u], q, gs[u + 1]) then pc == Idle
            else pc == RHeld(m.f, m.l, m.i)
  {
    hide GInv, Step, Upgrade;
    QueryMineRun(gs, q, m, |gs| - 1);
  }

  // A run in which the slot is lost: the only connection of the only process
  // holds slot 0 for frames 1 to 10, queries, takes its own slot, zeroes it, and
  // finds nothing in three passes.
  function LosingPc(t: nat): Pc {
    var m := MySlot(1, 10, 0);
    if t == 0 then QRead(false, 0, 0, 0, m)
    else if t == 1 then QExcl(false, 0, 0, 1, 0, m)
    else if t == 2 then QFirst(false, 0, 0, 0, NoSlot)
    else if t == 3 then QLast(false, 0, 0, 0, NoSlot)
    else if t == 4 then QUnlock(false, 0, 0, 0, NoSlot)
    else if t <= 8 then QRead(false, 0, t - 4, 0, NoSlot)
    else if t <= 13 then QRead(false, 1, t - 9, 0, NoSlot)
    else if t <= 18 then QRead(false, 2, t - 14, 0, NoSlot)
    else if t == 19 then QDone(false, 0, NoSlot)
    else Idle
  }

  function Losing(t: nat): G {
    var own := if t <= 1 then Conn(0, {}, {READER0}) else if t <= 4 then Conn(0, {READER0}, {}) else Conn(0, {}, {});
    var slot := if t <= 2 then Slot(1, 10) else if t == 3 then Slot(0, 10) else Slot(0, 0);
    G(Sys(false, map[1 := own], {1}, map[]), [0, 0, 0, 0, 1, 10],
      [slot, Slot(0, 0), Slot(0, 0), Slot(0, 0)], map[1 := LosingPc(t)])
  }

  function LosingRun(): (gs: seq<G>)
    ensures |gs| == 21 && forall t: nat | t < 21 :: gs[t] == Losing(t)
  {
    seq(21, (t: nat) => Losing(t))
  }

  lemma LosingStarts()
    ensures GInv(Losing(0))
  {
    var g := Losing(0);
    assert Inv(g.sys);
  }

  lemma LosingStep(t: nat)
    requires t < 20
    ensures Step(Losing(t), 1, Losing(t + 1))
  {
    var g, g' := Losing(t), Losing(t + 1);
    assert g'.pc == g.pc[1 := g'.pc[1]];
    if t == 1 || t == 4 {
      LosingLock(t);
    } else {
      LosingLocal(t);
    }
  }

  lemma LosingLock(t: nat)
    requires t == 1 || t == 4
    ensures LockStep(Losing(t), 1, Losing(t + 1), false)
    ensures t == 1 ==> OwnSlotFree(Losing(t), 1, 0, false)
  {
    var g, g' := Losing(t), Losing(t + 1);
    assert !OtherExcl(g.sys, 1, READER0) && !OtherShared(g.sys, 1, READER0);
    var own, op := g.sys.conns[1], if t == 1 then Excl else Unlock;
    assert own.excl - {READER0} == {} && own.shared - {READER0} == {} && {} + {READER0} == {READER0};
    assert Masks(own, READER0, op, false, Ok) == g'.sys.conns[1];
    assert g.sys.conns[1 := g'.sys.conns[1]] == g'.sys.conns && g.pc[1 := g'.pc[1]] == g'.pc;
  }

  lemma LosingLocal(t: nat)
    requires t < 20 && t != 1 && t != 4
    ensures LocalStep(Losing(t).log, Losing(t).slots, LosingPc(t), Losing(t + 1).slots, LosingPc(t + 1))
    ensures Losing(t + 1).sys == Losing(t).sys
  {
    var a, a' := Losing(t).slots, Losing(t + 1).slots;
    if t == 2 {
      assert a' == a[0 := a[0].(iFirst := 0)];
    } else if t == 3 {
      assert a' == a[0 := a[0].(iLast := 0)];
    }
  }

  lemma OwnSlotLost()
    ensures var gs := LosingRun();
            && IsQuery(gs, 1, MySlot(1, 10, 0))
            && Holds(gs[0], 1, 0) && Upgrade(gs[1], 1, gs[2])
            && gs[20].pc[1] == Idle
  {
    hide GInv, Step, LockStep, Losing, LosingRun, OwnSlotFree;
    var gs := LosingRun();
    LosingStarts();
    forall t | 0 <= t < 20
      ensures Moves(gs[t], gs[t + 1])
    {
      LosingStep(t);
      LosingShape(t);
    }
    forall t | 0 <= t < 21
      ensures 1 in gs[t].pc && gs[t].pc[1] == LosingPc(t)
    {
      LosingShape(t);
    }
    LosingShape(0);
    LosingShape(1);
    LosingLock(1);
  }

  lemma LosingShape(t: nat)
    ensures var g := Losing(t);
            && |g.log| == 6 && |g.slots| == NREADER && g.sys.listed == {1} == g.sys.conns.Keys == g.pc.Keys
            && g.pc[1] == LosingPc(t) && (t <= 1 ==> Holds(g, 1, 0))
  {
  }

  // ---- What a query answers

  // In this step q asks for slot j EXCL, having found val there, and is refused.
  ghost predicate Refused(g: G, q: nat, g': G, j: nat, val: nat) {
    && |g.log| == 6 && q in g.sys.listed && q in g.sys.conns && q in g.pc && q in g'.pc
    && g.pc[q].QExcl? && g.pc[q].j == j && g.pc[q].val == val
    && exists err :: LockStep(g, q, g', err) && Lockop(g.sys, q, READER0 + j, Excl, err).1 == Busy
  }

  ghost predicate RefusedNow(g: G, q: nat, g': G)
    requires q in g.pc
  {
    g.pc[q].QExcl? && Refused(g, q, g', g.pc[q].j, g.pc[q].val)
  }

  // Step u of the run is such a refusal.
  ghost predicate RefusedAt(gs: seq<G>, q: nat, u: nat, j: nat, val: nat) {
    u + 1 < |gs| && Refused(gs[u], q, gs[u + 1], j, val)
  }

  // One step of any connection while q runs a query: the answer so far changes
  // only by a refusal, to the value of the slot that was refused, if that is in
  // the log and there is no answer yet or a later one.
  lemma AnswerStep(g: G, c: nat, g': G, q: nat)
    requires GInv(g) && Step(g, c, g') && q in g.sys.listed && q in g.pc && q in g'.pc
    requires InQuery(g.pc[q]) && InQuery(g'.pc[q])
    ensures g'.pc[q].last == g.pc[q].last
    ensures if RefusedNow(g, q, g') && FrameToIdx(g.log, g.pc[q].val) >= 0
                 && (g.pc[q].out == 0 || FrameToIdx(g.log, g.pc[q].val) < FrameToIdx(g.log, g.pc[q].out))
            then g'.pc[q].out == g.pc[q].val else g'.pc[q].out == g.pc[q].out
    ensures g'.pc[q].QExcl? ==>
              || g'.pc[q] == g.pc[q]
              || (g.pc[q].QRead? && g.pc[q].j == g'.pc[q].j < NREADER
                  && g'.pc[q].val == Asked(g.slots[g.pc[q].j], g.pc[q].last) != 0)
  {
    hide LocalStep, LockStep, OtherLock, InQuery, FrameToIdx, Inv, LocksFit, PcOk, RefusedNow;
    if c != q {
      OthersStay(g, c, g', q);
      NotRefused(g, g', q);
    } else if OtherLock(g, q, g') {
      OtherSame(g, q, g');
      NotRefused(g, g', q);
    } else if LocalStep(g.log, g.slots, g.pc[q], g'.slots, g'.pc[q]) {
      AnswerLocal(g, q, g');
    } else if LockStep(g, q, g', true) {
      AnswerLock(g, q, g', true);
    } else {
      AnswerLock(g, q, g', false);
    }
  }

  lemma NotRefused(g: G, g': G, q: nat)
    requires |g.log| == 6 && q in g.sys.listed && q in g.sys.conns && q in g.pc && q in g'.pc && g'.pc[q] == g.pc[q]
    ensures !RefusedNow(g, q, g')
  {
    hide Lockop, FrameToIdx;
  }

  lemma AnswerLocal(g: G, q: nat, g': G)
    requires GInv(g) && q in g.sys.listed && q in g.sys.conns && q in g.pc && q in g'.pc
    requires InQuery(g.pc[q]) && InQuery(g'.pc[q])
    requires LocalStep(g.log, g.slots, g.pc[q], g'.slots, g'.pc[q])
    ensures g'.pc[q].last == g.pc[q].last && g'.pc[q].out == g.pc[q].out && !RefusedNow(g, q, g')
    ensures g'.pc[q].QExcl? ==>
              && g.pc[q].QRead? && g.pc[q].j == g'.pc[q].j < NREADER
              && g'.pc[q].val == Asked(g.slots[g.pc[q].j], g.pc[q].last) != 0
  {
    hide Inv, LocksFit, PcOk, Lockop;
  }

  lemma AnswerLock(g: G, q: nat, g': G, err: bool)
    requires GInv(g) && q in g.sys.listed && q in g.sys.conns && q in g.pc && q in g'.pc
    requires InQuery(g.pc[q]) && InQuery(g'.pc[q]) && LockStep(g, q, g', err)
    ensures g'.pc[q].last == g.pc[q].last && !g'.pc[q].QExcl?
    ensures if RefusedNow(g, q, g') && FrameToIdx(g.log, g.pc[q].val) >= 0
                 && (g.pc[q].out == 0 || FrameToIdx(g.log, g.pc[q].val) < FrameToIdx(g.log, g.pc[q].out))
            then g'.pc[q].out == g.pc[q].val else g'.pc[q].out == g.pc[q].out
  {
    hide Inv, LocksFit, PcOk, Lockop, FrameToIdx;
  }

  // In the first t steps q was refused a slot it had found val in.
  ghost predicate RefusedValue(gs: seq<G>, q: nat, t: nat, val: nat) {
    exists u: nat, j: nat | u < t :: RefusedAt(gs, q, u, j, val)
  }

  // In this state q looks at slot j, and the field it asks for holds val.
  ghost predicate Reads(g: G, q: nat, j: nat, last: bool, val: nat) {
    && q in g.pc && g.pc[q].QRead? && g.pc[q].j == j < |g.slots|
    && (if last then g.slots[j].iLast == val else g.slots[j].iFirst == val)
  }

  // It did so before state t.
  ghost predicate Found(gs: seq<G>, q: nat, t: nat, j: nat, last: bool, val: nat) {
    exists w: nat | w < t && w < |gs| :: Reads(gs[w], q, j, last, val)
  }

  // The answer so far is a refused value, and the earliest of those in the log.
  ghost predicate AnswerOk(log: seq<nat>, gs: seq<G>, q: nat, t: nat, out: nat)
    requires |log| == 6
  {
    && (out != 0 ==> FrameToIdx(log, out) >= 0 && RefusedValue(gs, q, t, out))
    && (forall val: nat | RefusedValue(gs, q, t, val) && FrameToIdx(log, val) >= 0 ::
          out != 0 && FrameToIdx(log, out) <= FrameToIdx(log, val))
  }

  // Each value q was refused, or is about to ask for, it found in that slot.
  ghost predicate FoundOk(gs: seq<G>, q: nat, t: nat, last: bool) {
    forall u: nat, j: nat, val: nat | u < t && RefusedAt(gs, q, u, j, val) :: Found(gs, q, u, j, last, val)
  }

  ghost predicate AsksFound(gs: seq<G>, q: nat, t: nat, pc: Pc, last: bool) {
    InQuery(pc) && pc.last == last && (pc.QExcl? ==> Found(gs, q, t, pc.j, last, pc.val))
  }

  function AskedVal(pc: Pc): nat {
    if pc.QExcl? then pc.val else 0
  }

  lemma RefusedGrows(gs: seq<G>, q: nat, t: nat, val: nat)
    requires 0 < t < |gs| && q in gs[t - 1].pc
    ensures RefusedValue(gs, q, t, val) <==>
              RefusedValue(gs, q, t - 1, val) || (RefusedNow(gs[t - 1], q, gs[t]) && AskedVal(gs[t - 1].pc[q]) == val)
  {
    hide LockStep, Lockop;
    if RefusedValue(gs, q, t, val) {
      var u: nat, j: nat :| u < t && RefusedAt(gs, q, u, j, val);
      if u < t - 1 {
        assert RefusedValue(gs, q, t - 1, val);
      }
    }
    if RefusedNow(gs[t - 1], q, gs[t]) && AskedVal(gs[t - 1].pc[q]) == val {
      assert RefusedAt(gs, q, t - 1, gs[t - 1].pc[q].j, val);
    }
  }

  lemma NowAsks(g: G, q: nat, g': G)
    requires q in g.pc && RefusedNow(g, q, g')
    ensures g.pc[q].QExcl?
  {
    hide LockStep, Lockop;
  }

  lemma {:induction false} AnswerRun(gs: seq<G>, q: nat, m: Mine, t: nat)
    requires IsQuery(gs, q, m) && t < |gs| - 1 && |gs[0].log| == 6
    ensures AnswerOk(gs[0].log, gs, q, t, gs[t].pc[q].out)
  {
    hide GInv, Step, FrameToIdx, RefusedNow, RefusedValue;
    if t == 0 {
      assert forall val: nat :: !RefusedValue(gs, q, 0, val) by { NoneRefused(gs, q); }
    } else {
      AnswerRun(gs, q, m, t - 1);
      RunKeeps(gs, t - 1);
      assert Moves(gs[t - 1], gs[t - 1 + 1]);
      var c :| Step(gs[t - 1], c, gs[t]);
      AnswerStep(gs[t - 1], c, gs[t], q);
      ZeroNotInLog(gs[0].log);
      forall val: nat
        ensures RefusedValue(gs, q, t, val) <==>
                  RefusedValue(gs, q, t - 1, val) || (RefusedNow(gs[t - 1], q, gs[t]) && AskedVal(gs[t - 1].pc[q]) == val)
      {
        RefusedGrows(gs, q, t, val);
      }
      if RefusedNow(gs[t - 1], q, gs[t]) {
        NowAsks(gs[t - 1], q, gs[t]);
      }
    }
  }

  lemma NoneRefused(gs: seq<G>, q: nat)
    ensures forall val: nat :: !RefusedValue(gs, q, 0, val)
  {
  }

  lemma {:induction false} FoundRun(gs: seq<G>, q: nat, m: Mine, t: nat)
    requires IsQuery(gs, q, m) && t < |gs| - 1
    ensures FoundOk(gs, q, t, gs[0].pc[q].last)
    ensures AsksFound(gs, q, t, gs[t].pc[q], gs[0].pc[q].last)
  {
    hide GInv, Step, Refused, Reads;
    var last := gs[0].pc[q].last;
    if t > 0 {
      FoundRun(gs, q, m, t - 1);
      RunKeeps(gs, t - 1);
      assert Moves(gs[t - 1], gs[t - 1 + 1]);
      var c :| Step(gs[t - 1], c, gs[t]);
      LogSize(gs[t - 1]);
      AnswerStep(gs[t - 1], c, gs[t], q);
      FoundStep(gs, q, t, last);
    }
  }

  lemma FoundStep(gs: seq<G>, q: nat, t: nat, last: bool)
    requires 0 < t < |gs| && q in gs[t - 1].pc && q in gs[t].pc && |gs[t - 1].slots| == NREADER
    requires FoundOk(gs, q, t - 1, last) && AsksFound(gs, q, t - 1, gs[t - 1].pc[q], last)
    requires var pc, pc' := gs[t - 1].pc[q], gs[t].pc[q];
             InQuery(pc') && pc'.last == last
             && (pc'.QExcl? ==>
                   || pc' == pc
                   || (pc.QRead? && pc.j == pc'.j < NREADER && pc'.val == Asked(gs[t - 1].slots[pc.j], last)))
    ensures FoundOk(gs, q, t, last) && AsksFound(gs, q, t, gs[t].pc[q], last)
  {
    hide LockStep, Lockop;
    var pc, pc' := gs[t - 1].pc[q], gs[t].pc[q];
    forall u: nat, j: nat, val: nat | u < t && RefusedAt(gs, q, u, j, val)
      ensures Found(gs, q, u, j, last, val)
    {
      if u == t - 1 {
        assert pc.QExcl? && pc.j == j && pc.val == val;
      }
    }
    if pc'.QExcl? {
      if pc' == pc {
        assert Found(gs, q, t - 1, pc.j, last, pc.val);
      } else {
        assert Reads(gs[t - 1], q, pc'.j, last, pc'.val);
      }
    }
  }

  lemma LogSize(g: G)
    requires GInv(g)
    ensures |g.log| == 6 && |g.slots| == NREADER
  {
  }

  // The answer of a query that ends with one is a value it read from a slot and
  // was then refused the lock of, and is in the log; among all such values in the
  // log it is the earliest. Without an answer no such value was in the log.
  lemma QueryAnswer(gs: seq<G>, q: nat, m: Mine, t: nat)
    requires IsQuery(gs, q, m) && t < |gs| - 1 && |gs[0].log| == 6 && gs[t].pc[q].QDone?
    ensures var out, last := gs[t].pc[q].out, gs[0].pc[q].last;
            && (out != 0 ==>
                  && FrameToIdx(gs[0].log, out) >= 0
                  && exists w: nat, u: nat, j: nat | w < u < t ::
                       Reads(gs[w], q, j, last, out) && RefusedAt(gs, q, u, j, out))
            && (forall u: nat, j: nat, val: nat |
                  u < t && RefusedAt(gs, q, u, j, val) && FrameToIdx(gs[0].log, val) >= 0 ::
                  out != 0 && FrameToIdx(gs[0].log, out) <= FrameToIdx(gs[0].log, val))
  {
    hide GInv, Step, FrameToIdx, RefusedAt, Reads;
    AnswerRun(gs, q, m, t);
    FoundRun(gs, q, m, t);
    var out, last := gs[t].pc[q].out, gs[0].pc[q].last;
    if out != 0 {
      var u: nat, j: nat :| u < t && RefusedAt(gs, q, u, j, out);
      var w: nat :| w < u && w < |gs| && Reads(gs[w], q, j, last, out);
    }
    forall u: nat, j: nat, val: nat | u < t && RefusedAt(gs, q, u, j, val)
      ensures RefusedValue(gs, q, t, val)
    {
    }
  }

  // ---- What a reader writes, and that it gets its slot

  // The frames of one region, and of the log, in the order they were written.
  function Region(lo: nat, hi: nat): seq<nat> {
    if lo == 0 || hi < lo then [] else seq(hi - lo + 1, (i: nat) => lo + i)
  }

  function Frames(log: seq<nat>): seq<nat>
    requires |log| == 6
  {
    Region(log[0], log[1]) + Region(log[2], log[3]) + Region(log[4], log[5])
  }

  lemma RegionAt(lo: nat, hi: nat, f: nat)
    ensures f in Region(lo, hi) <==> lo != 0 && lo <= f <= hi
    ensures f in Region(lo, hi) ==> Region(lo, hi)[f - lo] == f && forall k: nat | k < f - lo :: Region(lo, hi)[k] != f
  {
    if lo != 0 && lo <= f <= hi {
      assert Region(lo, hi)[f - lo] == f;
    }
  }

  // The index is the first position of the frame in the log, or -1 for a frame
  // that is not there; the regions given are not empty the wrong way round.
  lemma FrameToIdxIsPosition(log: seq<nat>, f: nat)
    requires |log| == 6 && (forall i | 0 <= i < 3 :: log[2 * i] != 0 ==> log[2 * i] <= log[2 * i + 1])
    ensures var i, fs := FrameToIdx(log, f), Frames(log);
            if f in fs then 0 <= i < |fs| && fs[i] == f && forall k: nat | k < i :: fs[k] != f else i == -1
  {
    assert log[2 * 0] == log[0] && log[2 * 1] == log[2] && log[2 * 2] == log[4];
    RegionAt(log[0], log[1], f);
    RegionAt(log[2], log[3], f);
    RegionAt(log[4], log[5], f);
  }

  // A reader that takes a slot EXCL leaves its own two values there.
  lemma ReaderWrites(g: G, c: nat, g': G)
    requires GInv(g) && Step(g, c, g') && g.pc[c].RLast? && g'.pc[c] != g.pc[c]
    ensures var pc := g.pc[c];
            && g'.pc[c] == RShare(pc.f, pc.l, pc.i) && pc.i < NREADER == |g'.slots|
            && g'.slots[pc.i] == Slot(pc.f, pc.l)
            && forall j | 0 <= j < NREADER && j != pc.i :: g'.slots[j] == g.slots[j]
  {
    hide Inv, Lockop, LocksFit;
    assert PcOk(g, g.pc[c]);
  }

  // Nothing prevents c from taking slot k of the lock table EXCL.
  ghost predicate SlotFree(s: Sys, c: nat, k: nat)
    requires c in s.conns
  {
    && (forall d | Rival(s, c, d) :: k !in s.conns[d].excl && k !in s.conns[d].shared)
    && (s.multi ==> forall p: nat | p != s.conns[c].pid :: OsMode(s.os, p, k) == Unlock)
  }

  ghost function Locked(g: G, c: nat, i: nat, op: Mode, n: Pc): G
    requires c in g.sys.conns
  {
    g.(sys := Lockop(g.sys, c, READER0 + i, op, false).0, pc := g.pc[c := n])
  }

  // The states of a reader that takes slot i.
  ghost function Taking(g: G, c: nat, f: nat, l: nat, i: nat): (gs: seq<G>)
    requires c in g.sys.conns && i < NREADER == |g.slots|
    ensures |gs| == 6
  {
    var g1 := Locked(g, c, i, Excl, RFirst(f, l, i));
    var g2 := g1.(slots := g1.slots[i := g1.slots[i].(iFirst := f)], pc := g1.pc[c := RLast(f, l, i)]);
    var g3 := g2.(slots := g2.slots[i := Slot(f, l)], pc := g2.pc[c := RShare(f, l, i)]);
    var g4 := Locked(g3, c, i, Shared, RCheck(f, l, i));
    [g, g1, g2, g3, g4, g4.(pc := g4.pc[c := RHeld(f, l, i)])]
  }

  // A reader that comes to a free slot can go on to hold it SHARED with exactly
  // the frames it asked for.
  lemma ReaderSucceeds(g: G, c: nat, f: nat, l: nat, i: nat)
    requires GInv(g) && c in g.sys.listed && c in g.sys.conns && c in g.pc && g.pc[c] == RExcl(f, l, i) && i < NREADER
    requires FrameToIdx(g.log, f) >= 0 && FrameToIdx(g.log, l) >= 0 && SlotFree(g.sys, c, READER0 + i)
    ensures var gs := Taking(g, c, f, l, i);
            && IsRun(gs) && Holds(gs[5], c, i)
            && gs[5].pc[c] == RHeld(f, l, i) && |gs[5].slots| == NREADER && gs[5].slots[i] == Slot(f, l)
  {
    hide GInv, Step, Taking, FrameToIdx, Lockop, SlotFree;
    LogSize(g);
    TakeExcl(g, c, f, l, i);
    TakeStates(g, c, f, l, i);
    TakeSteps(g, c, f, l, i);
    var gs := Taking(g, c, f, l, i);
    forall t | 0 <= t < 5
      ensures Moves(gs[t], gs[t + 1])
    {
      assert Step(gs[t], c, gs[t + 1]);
    }
  }

  lemma TakeStates(g: G, c: nat, f: nat, l: nat, i: nat)
    requires c in g.sys.conns && i < NREADER == |g.slots| && |g.log| == 6
    requires var s := Lockop(g.sys, c, READER0 + i, Excl, false).0;
             && c in s.conns && c in s.listed && Inv(s) && Lockop(s, c, READER0 + i, Shared, false).1 == Ok
    ensures var gs := Taking(g, c, f, l, i);
            && gs[0] == g && (forall t | 0 <= t < 6 :: |gs[t].log| == 6 && |gs[t].slots| == NREADER)
            && gs[5].pc[c] == RHeld(f, l, i) && gs[5].slots[i] == Slot(f, l) && Holds(gs[5], c, i)
  {
    hide Inv, Lockop;
    LockLeaves(Lockop(g.sys, c, READER0 + i, Excl, false).0, c, READER0 + i, Shared, false);
  }

  lemma TakeSteps(g: G, c: nat, f: nat, l: nat, i: nat)
    requires c in g.sys.listed && c in g.sys.conns && c in g.pc && g.pc[c] == RExcl(f, l, i)
    requires i < NREADER == |g.slots| && |g.log| == 6 && FrameToIdx(g.log, f) >= 0 && FrameToIdx(g.log, l) >= 0
    requires var s := Lockop(g.sys, c, READER0 + i, Excl, false).0;
             && LockStep(g, c, Locked(g, c, i, Excl, RFirst(f, l, i)), false)
             && c in s.conns && c in s.listed && Inv(s) && Lockop(s, c, READER0 + i, Shared, false).1 == Ok
    ensures var gs := Taking(g, c, f, l, i);
            forall t | 0 <= t < 5 :: |gs[t].log| == 6 && |gs[t].slots| == NREADER && Step(gs[t], c, gs[t + 1])
  {
    hide Inv, Lockop, FrameToIdx, OtherLock, Step, LocalStep, LockStep;
    var gs := Taking(g, c, f, l, i);
    LockLeaves(gs[1].sys, c, READER0 + i, Shared, false);
    ByLock(gs[0], c, gs[1]);
    TakeWrites(gs[1], gs[2], gs[3], c, f, l, i);
    ByLocal(gs[1], c, gs[2]);
    ByLocal(gs[2], c, gs[3]);
    TakeShared(gs[3], c, f, l, i);
    ByLock(gs[3], c, gs[4]);
    TakeCheck(gs[4], gs[5], c, f, l, i);
    ByLocal(gs[4], c, gs[5]);
  }

  lemma ByLock(g: G, c: nat, g': G)
    requires |g.log| == 6 && |g.slots| == NREADER && c in g.sys.listed && c in g.sys.conns && c in g.pc && c in g'.pc
    requires LockStep(g, c, g', false)
    ensures Step(g, c, g')
  {
    hide Lockop;
  }

  lemma ByLocal(g: G, c: nat, g': G)
    requires |g.log| == 6 && |g.slots| == NREADER && c in g.sys.listed && c in g.sys.conns && c in g.pc && c in g'.pc
    requires LocalStep(g.log, g.slots, g.pc[c], g'.slots, g'.pc[c])
    requires g'.log == g.log && g'.sys == g.sys && g'.pc == g.pc[c := g'.pc[c]]
    ensures Step(g, c, g')
  {
    hide LocalStep, LockStep, OtherLock;
  }

  lemma TakeShared(g: G, c: nat, f: nat, l: nat, i: nat)
    requires c in g.sys.conns && c in g.pc && g.pc[c] == RShare(f, l, i) && i < NREADER && |g.log| == 6
    requires Lockop(g.sys, c, READER0 + i, Shared, false).1 == Ok
    ensures LockStep(g, c, Locked(g, c, i, Shared, RCheck(f, l, i)), false)
  {
    hide Lockop;
  }

  lemma TakeCheck(g: G, g': G, c: nat, f: nat, l: nat, i: nat)
    requires c in g.pc && g.pc[c] == RCheck(f, l, i) && i < NREADER == |g.slots| && |g.log| == 6
    requires FrameToIdx(g.log, f) >= 0 && FrameToIdx(g.log, l) >= 0 && g.slots[i] == Slot(f, l)
    requires c in g'.pc && g'.pc[c] == RHeld(f, l, i) && g'.slots == g.slots
    ensures LocalStep(g.log, g.slots, g.pc[c], g'.slots, g'.pc[c])
  {
    hide FrameToIdx;
  }

  lemma TakeWrites(g1: G, g2: G, g3: G, c: nat, f: nat, l: nat, i: nat)
    requires i < NREADER == |g1.slots| && |g1.log| == 6 && c in g1.pc && g1.pc[c] == RFirst(f, l, i)
    requires g2 == g1.(slots := g1.slots[i := g1.slots[i].(iFirst := f)], pc := g1.pc[c := RLast(f, l, i)])
    requires g3 == g2.(slots := g2.slots[i := Slot(f, l)], pc := g2.pc[c := RShare(f, l, i)])
    ensures LocalStep(g1.log, g1.slots, g1.pc[c], g2.slots, g2.pc[c])
    ensures LocalStep(g2.log, g2.slots, g2.pc[c], g3.slots, g3.pc[c])
  {
  }

  lemma SysOk(g: G)
    requires GInv(g)
    ensures Inv(g.sys)
  {
  }

  lemma TakeExcl(g: G, c: nat, f: nat, l: nat, i: nat)
    requires GInv(g) && c in g.sys.listed && c in g.sys.conns && c in g.pc && g.pc[c] == RExcl(f, l, i) && i < NREADER
    requires SlotFree(g.sys, c, READER0 + i)
    ensures var s := Lockop(g.sys, c, READER0 + i, Excl, false).0;
            && LockStep(g, c, Locked(g, c, i, Excl, RFirst(f, l, i)), false)
            && Inv(s) && c in s.conns && c in s.listed
            && Lockop(s, c, READER0 + i, Shared, false).1 == Ok
  {
    hide Inv, Lockop;
    SysOk(g);
    GrantFirst(g.sys, c, i);
    LockopKeeps(g.sys, c, READER0 + i, Excl, false);
    LockLeaves(g.sys, c, READER0 + i, Excl, false);
    GrantSecond(Lockop(g.sys, c, READER0 + i, Excl, false).0, c, i);
  }

  lemma GrantFirst(s: Sys, c: nat, i: nat)
    requires Inv(s) && c in s.listed && c in s.conns && SlotFree(s, c, READER0 + i)
    ensures Lockop(s, c, READER0 + i, Excl, false).1 == Ok
  {
    hide Inv, Lockop;
    ExclGranted(s, c, READER0 + i, false);
  }

  // Who holds a slot EXCL gets it SHARED.
  lemma GrantSecond(s: Sys, c: nat, i: nat)
    requires Inv(s) && c in s.listed && c in s.conns && READER0 + i in s.conns[c].excl
    ensures Lockop(s, c, READER0 + i, Shared, false).1 == Ok
  {
    hide Lockop;
    var k := READER0 + i;
    SharedGranted(s, c, k, false);
    forall d | Rival(s, c, d)
      ensures k !in s.conns[d].excl
    {
      Rivals(s, c, k, d);
    }
    if s.multi {
      assert Backed(s.os, s.conns[c], k);
    }
  }
}

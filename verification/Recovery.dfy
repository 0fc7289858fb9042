// sqlite4BtLockConnect of bt_lock.c as steps: which connection recovers the
// log, and when.

module Recovery {
  import opened Locks

  const DMS1 := 0
  const DMS2_RW := 1
  const DMS2_RO := 2

  // Where a connection is; rc is the result so far.
  datatype Pc =
    | Start              // wants DMS1, and waits for it
    | WantRw             // holds DMS1
    | WantRo             // and DMS2_RW
    | MapShm             // and DMS2_RO
    | Recovering         // inside xRecover
    | DropRo(rc: Rc)
    | DropRw(rc: Rc)
    | Share              // about to take DMS2_RW SHARED
    | DropDms1(rc: Rc)
    | Attached           // returned SQLITE4_OK
    | Failed

  datatype R = R(sys: Sys, pc: map<nat, Pc>)

  function Wanted(pc: Pc): (Mode, nat) {
    match pc
    case Start => (Excl, DMS1)
    case WantRw => (Excl, DMS2_RW)
    case WantRo => (Excl, DMS2_RO)
    case DropRo(_) => (Unlock, DMS2_RO)
    case DropRw(_) => (Unlock, DMS2_RW)
    case Share => (Shared, DMS2_RW)
    case DropDms1(_) => (Unlock, DMS1)
    case _ => (Unlock, DMS1)
  }

  predicate AfterLock(pc: Pc, rc: Rc, n: Pc) {
    match pc
    case Start => n == (if rc == Ok then WantRw else if rc == Busy then Start else Failed)
    case WantRw => n == (if rc == Ok then WantRo else DropRo(rc))
    case WantRo => n == (if rc == Ok then MapShm else DropRo(rc))
    case DropRo(r) => n == DropRw(r)
    case DropRw(r) => n == (if r == IoErr then DropDms1(r) else Share)
    case Share => n == DropDms1(rc)
    case DropDms1(r) => n == (if r == Ok then Attached else Failed)
    case _ => false
  }

  // xShmMap and xRecover succeed, fail, or answer BUSY, which the code treats
  // like a slot it could not get: it connects without having recovered.
  predicate LocalStep(pc: Pc, n: Pc) {
    match pc
    case MapShm => n == Recovering || n == DropRo(Busy) || n == DropRo(IoErr)
    case Recovering => n == DropRo(Ok) || n == DropRo(Busy) || n == DropRo(IoErr)
    case _ => false
  }

  ghost predicate Step(r: R, c: nat, r': R) {
    && c in r.sys.listed && c in r.sys.conns && c in r.pc && c in r'.pc
    && ((LocalStep(r.pc[c], r'.pc[c]) && r' == r.(pc := r.pc[c := r'.pc[c]]))
        || LockStep(r, c, r', true) || LockStep(r, c, r', false)
        || OtherLock(r, c, r'))
  }

  ghost predicate LockStep(r: R, c: nat, r': R, err: bool)
    requires c in r.sys.conns && c in r.pc && c in r'.pc
  {
    var (op, k) := Wanted(r.pc[c]);
    var (s', rc) := Lockop(r.sys, c, k, op, err);
    AfterLock(r.pc[c], rc, r'.pc[c]) && r' == r.(sys := s', pc := r.pc[c := r'.pc[c]])
  }

  // An attached connection uses the other slots.
  ghost predicate OtherLock(r: R, c: nat, r': R)
    requires c in r.sys.conns
  {
    exists k: nat, op, err :: k > DMS2_RO && r' == r.(sys := Lockop(r.sys, c, k, op, err).0)
  }

  predicate HasDms1(pc: Pc) {
    !(pc.Start? || pc.Attached? || pc.Failed?)
  }

  predicate HasRw(pc: Pc) {
    pc.WantRo? || pc.MapShm? || pc.Recovering?
  }

  predicate HasRo(pc: Pc) {
    pc.MapShm? || pc.Recovering?
  }

  predicate SharesRw(pc: Pc) {
    pc.Attached? || (pc.DropDms1? && pc.rc == Ok)
  }

  predicate LocksFit(pc: Pc, a: Conn) {
    && (DMS1 in a.excl <==> HasDms1(pc)) && DMS1 !in a.shared
    && (HasRw(pc) ==> DMS2_RW in a.excl)
    && (DMS2_RW in a.excl ==> HasRw(pc) || pc.DropRo? || pc.DropRw?)
    && (HasRo(pc) ==> DMS2_RO in a.excl)
    && (DMS2_RO in a.excl ==> HasRo(pc) || pc.DropRo?)
    && (DMS2_RW in a.shared <==> SharesRw(pc))
    && DMS2_RO !in a.shared
  }

  ghost predicate RInv(r: R) {
    && Inv(r.sys)
    && (forall c | c in r.sys.listed :: c in r.pc && c in r.sys.conns && LocksFit(r.pc[c], r.sys.conns[c]))
  }

  lemma StepKeepsSys(r: R, c: nat, r': R)
    requires RInv(r) && Step(r, c, r')
    ensures Inv(r'.sys) && r'.sys.listed == r.sys.listed
    ensures forall d | d in r.sys.listed :: d in r'.pc && d in r'.sys.conns
    ensures forall d | d in r.sys.listed && d != c :: r'.pc[d] == r.pc[d] && r'.sys.conns[d] == r.sys.conns[d]
  {
    var (op, k) := Wanted(r.pc[c]);
    LockopKeeps(r.sys, c, k, op, true);
    LockopKeeps(r.sys, c, k, op, false);
    if OtherLock(r, c, r') {
      var k: nat, op, err :| k > DMS2_RO && r' == r.(sys := Lockop(r.sys, c, k, op, err).0);
      LockopKeeps(r.sys, c, k, op, err);
    }
  }

  lemma StepFits(r: R, c: nat, r': R)
    requires RInv(r) && Step(r, c, r')
    ensures c in r'.sys.conns && LocksFit(r'.pc[c], r'.sys.conns[c])
  {
    hide Inv, OtherExcl, OtherShared, XLock;
    assert LocksFit(r.pc[c], r.sys.conns[c]);
    HolderAlone(r.sys, c, Wanted(r.pc[c]).1);
  }

  lemma StepKeeps(r: R, c: nat, r': R)
    requires RInv(r) && Step(r, c, r')
    ensures RInv(r')
  {
    hide Inv, Step, LocksFit;
    StepKeepsSys(r, c, r');
    StepFits(r, c, r');
  }

  // Recovery runs under all three locks, so no other connection, of this or of
  // another process, is attached or anywhere between Start and the end of
  // its own connect.
  lemma RecoversAlone(r: R, c: nat)
    requires RInv(r) && c in r.sys.listed && r.pc[c].Recovering?
    ensures {DMS1, DMS2_RW, DMS2_RO} <= r.sys.conns[c].excl
    ensures forall d | d in r.sys.listed && d != c :: r.pc[d].Start? || r.pc[d].Failed?
  {
    InvExclusive(r.sys);
    assert LocksFit(r.pc[c], r.sys.conns[c]);
    forall d | d in r.sys.listed && d != c
      ensures r.pc[d].Start? || r.pc[d].Failed?
    {
      assert LocksFit(r.pc[d], r.sys.conns[d]);
      assert Compatible(r.sys.conns[c], r.sys.conns[d], DMS1);
      assert Compatible(r.sys.conns[c], r.sys.conns[d], DMS2_RW);
    }
  }

  // A connect that succeeded holds DMS2_RW SHARED and has released DMS1.
  lemma AttachedHolds(r: R, c: nat)
    requires RInv(r) && c in r.sys.listed && r.pc[c].Attached?
    ensures var a := r.sys.conns[c];
            DMS2_RW in a.shared && DMS1 !in a.excl && DMS1 !in a.shared && DMS2_RO !in a.excl
  {
    assert LocksFit(r.pc[c], r.sys.conns[c]);
  }

  // ---- Every run

  ghost predicate Moves(r: R, r': R) {
    exists c :: Step(r, c, r')
  }

  ghost predicate IsRun(rs: seq<R>) {
    rs != [] && RInv(rs[0]) && forall t | 0 <= t < |rs| - 1 :: Moves(rs[t], rs[t + 1])
  }

  lemma {:induction false} RunKeeps(rs: seq<R>, t: nat)
    requires IsRun(rs) && t < |rs|
    ensures RInv(rs[t]) && rs[t].sys.listed == rs[0].sys.listed
  {
    hide RInv, Step;
    if t > 0 {
      RunKeeps(rs, t - 1);
      assert Moves(rs[t - 1], rs[t]);
      var c :| Step(rs[t - 1], c, rs[t]);
      StepKeeps(rs[t - 1], c, rs[t]);
      StepKeepsSys(rs[t - 1], c, rs[t]);
    }
  }

  // Once connection a is attached it stays so, and no other connection
  // recovers the log from then on.
  lemma {:induction false} NoLaterRecovery(rs: seq<R>, t: nat, u: nat, a: nat, d: nat)
    requires IsRun(rs) && t <= u < |rs| && a in rs[0].sys.listed && d in rs[0].sys.listed && a != d
    requires a in rs[t].pc && rs[t].pc[a].Attached?
    ensures a in rs[u].pc && rs[u].pc[a].Attached?
    ensures d in rs[u].pc && !rs[u].pc[d].Recovering?
    decreases u
  {
    hide RInv, Step, Inv;
    RunKeeps(rs, u);
    Placed(rs[u], a);
    Placed(rs[u], d);
    if t < u {
      NoLaterRecovery(rs, t, u - 1, a, d);
      RunKeeps(rs, u - 1);
      assert Moves(rs[u - 1], rs[u]);
      var c :| Step(rs[u - 1], c, rs[u]);
      StaysAttached(rs[u - 1], c, rs[u], a);
    }
    if rs[u].pc[d].Recovering? {
      RecoversAlone(rs[u], d);
    }
  }

  lemma Placed(r: R, c: nat)
    requires RInv(r) && c in r.sys.listed
    ensures c in r.pc
  {
  }

  lemma StaysAttached(r: R, c: nat, r': R, a: nat)
    requires RInv(r) && Step(r, c, r') && a in r.pc && r.pc[a].Attached?
    ensures a in r'.pc && r'.pc[a].Attached?
  {
  }

  // ---- Recovery does run

  // c has recovered the log, successfully, in one of the first t steps.
  ghost predicate Recovered(rs: seq<R>, c: nat, t: nat) {
    exists u | 0 <= u < t < |rs| :: c in rs[u].pc && c in rs[u + 1].pc && rs[u].pc[c] == Recovering && rs[u + 1].pc[c] == DropRo(Ok)
  }

  // c was answered BUSY: by a lock it asked for, by xShmMap or by xRecover.
  ghost predicate MetBusy(rs: seq<R>, c: nat, t: nat) {
    exists u | 0 <= u < t < |rs| :: c in rs[u].pc && c in rs[u + 1].pc && BusyStep(rs[u], c, rs[u + 1])
  }

  ghost predicate BusyStep(r: R, c: nat, r': R)
    requires c in r.pc && c in r'.pc
  {
    && r'.pc[c] == DropRo(Busy)
    && (r.pc[c] == MapShm || r.pc[c] == Recovering
        || (r.pc[c] == WantRw && Answered(r, c, DMS2_RW)) || (r.pc[c] == WantRo && Answered(r, c, DMS2_RO)))
  }

  // The lock table answers BUSY to a request of c for slot k EXCL.
  ghost predicate Answered(r: R, c: nat, k: nat) {
    c in r.sys.conns && exists err :: Lockop(r.sys, c, k, Excl, err).1 == Busy
  }

  // How far c has come, by its history.
  ghost predicate History(pc: Pc, recovered: bool, busy: bool) {
    match pc
    case DropRo(rc) => (rc == Ok ==> recovered) && (rc == Busy ==> busy)
    case DropRw(rc) => (rc == Ok ==> recovered) && (rc == Busy ==> busy)
    case Share => recovered || busy
    case DropDms1(rc) => rc == Ok ==> recovered || busy
    case Attached => recovered || busy
    case _ => true
  }

  lemma HistoryStep(r: R, c: nat, r': R, d: nat, recovered: bool, busy: bool)
    requires Step(r, c, r') && d in r.pc && History(r.pc[d], recovered, busy)
    ensures d in r'.pc
    ensures History(r'.pc[d], recovered || (r.pc[d] == Recovering && r'.pc[d] == DropRo(Ok)), busy || BusyStep(r, d, r'))
  {
    if c != d || OtherLock(r, c, r') {
      assert r'.pc[d] == r.pc[d];
    } else if LocalStep(r.pc[c], r'.pc[c]) {
    } else if LockStep(r, c, r', true) {
      HistoryLock(r, c, r', true, recovered, busy);
    } else {
      HistoryLock(r, c, r', false, recovered, busy);
    }
  }

  lemma HistoryLock(r: R, c: nat, r': R, err: bool, recovered: bool, busy: bool)
    requires c in r.sys.conns && c in r.pc && c in r'.pc && LockStep(r, c, r', err) && History(r.pc[c], recovered, busy)
    ensures History(r'.pc[c], recovered, busy || BusyStep(r, c, r'))
  {
    hide Lockop;
  }

  // From the start of every connection: whoever is past the locks has recovered
  // the log, or has been answered BUSY.
  lemma {:induction false} HistoryRun(rs: seq<R>, c: nat, t: nat)
    requires IsRun(rs) && t < |rs| && c in rs[0].sys.listed
    requires c in rs[0].pc && rs[0].pc[c] == Start
    ensures c in rs[t].pc && History(rs[t].pc[c], Recovered(rs, c, t), MetBusy(rs, c, t))
  {
    hide RInv, Step, BusyStep, History;
    if t == 0 {
      StartsFresh();
    } else {
      HistoryRun(rs, c, t - 1);
      assert Moves(rs[t - 1], rs[t - 1 + 1]);
      var d :| Step(rs[t - 1], d, rs[t]);
      HistoryStep(rs[t - 1], d, rs[t], c, Recovered(rs, c, t - 1), MetBusy(rs, c, t - 1));
      assert Recovered(rs, c, t) <== Recovered(rs, c, t - 1) || (rs[t - 1].pc[c] == Recovering && rs[t - 1 + 1].pc[c] == DropRo(Ok));
      assert MetBusy(rs, c, t) <== MetBusy(rs, c, t - 1) || BusyStep(rs[t - 1], c, rs[t - 1 + 1]);
      HistoryWeaken(rs[t].pc[c],
                    Recovered(rs, c, t - 1) || (rs[t - 1].pc[c] == Recovering && rs[t].pc[c] == DropRo(Ok)), Recovered(rs, c, t),
                    MetBusy(rs, c, t - 1) || BusyStep(rs[t - 1], c, rs[t]), MetBusy(rs, c, t));
    }
  }

  lemma StartsFresh()
    ensures forall a, b :: History(Start, a, b)
  {
  }

  lemma HistoryWeaken(pc: Pc, a: bool, a': bool, b: bool, b': bool)
    requires History(pc, a, b) && (a ==> a') && (b ==> b')
    ensures History(pc, a', b')
  {
  }

  // A connection attaches only if it has recovered the log itself, or was
  // answered BUSY; it leaves recovery with OK only if it has recovered.
  lemma AttachedAfterRecovery(rs: seq<R>, c: nat, t: nat)
    requires IsRun(rs) && t < |rs| && c in rs[0].sys.listed
    requires c in rs[0].pc && rs[0].pc[c] == Start
    ensures c in rs[t].pc
    ensures rs[t].pc[c] == Attached ==> Recovered(rs, c, t) || MetBusy(rs, c, t)
    ensures rs[t].pc[c] == DropRo(Ok) ==> Recovered(rs, c, t)
  {
    HistoryRun(rs, c, t);
  }

  // ---- A run in which two connections of a process attach: the first recovers
  // the log, the second finds DMS2_RW in use and shares it.

  function FirstPc(t: nat): Pc {
    if t == 0 then Start
    else if t == 1 then WantRw
    else if t == 2 then WantRo
    else if t == 3 then MapShm
    else if t == 4 then Recovering
    else if t == 5 then DropRo(Ok)
    else if t == 6 then DropRw(Ok)
    else if t == 7 then Share
    else if t == 8 then DropDms1(Ok)
    else Attached
  }

  function FirstHolds(t: nat): Conn {
    if t == 0 then Conn(0, {}, {})
    else if t == 1 then Conn(0, {DMS1}, {})
    else if t == 2 then Conn(0, {DMS1, DMS2_RW}, {})
    else if t <= 5 then Conn(0, {DMS1, DMS2_RW, DMS2_RO}, {})
    else if t == 6 then Conn(0, {DMS1, DMS2_RW}, {})
    else if t == 7 then Conn(0, {DMS1}, {})
    else if t == 8 then Conn(0, {DMS1}, {DMS2_RW})
    else Conn(0, {}, {DMS2_RW})
  }

  function SecondPc(t: nat): Pc {
    if t <= 9 then Start
    else if t == 10 then WantRw
    else if t == 11 then DropRo(Busy)
    else if t == 12 then DropRw(Busy)
    else if t == 13 then Share
    else if t == 14 then DropDms1(Ok)
    else Attached
  }

  function SecondHolds(t: nat): Conn {
    if t <= 9 then Conn(0, {}, {})
    else if t <= 13 then Conn(0, {DMS1}, {})
    else if t == 14 then Conn(0, {DMS1}, {DMS2_RW})
    else Conn(0, {}, {DMS2_RW})
  }

  function Both(t: nat): R {
    R(Sys(false, map[1 := FirstHolds(t), 2 := SecondHolds(t)], {1, 2}, map[]), map[1 := FirstPc(t), 2 := SecondPc(t)])
  }

  function Mover(t: nat): nat {
    if t < 9 then 1 else 2
  }

  lemma Others(t: nat, k: nat)
    requires t < 15
    ensures !OtherExcl(Both(t).sys, Mover(t), k)
    ensures OtherShared(Both(t).sys, Mover(t), k) <==> t >= 9 && k == DMS2_RW
  {
    var s := Both(t).sys;
    if t >= 9 {
      assert s.conns[1] == Conn(0, {}, {DMS2_RW});
      assert k == DMS2_RW ==> 1 in s.listed && 1 != Mover(t) && s.conns[1].pid == s.conns[2].pid && k in s.conns[1].shared;
    } else {
      assert s.conns[2] == Conn(0, {}, {});
    }
  }

  // The locks and the answer of the request at time t.
  lemma Answer(t: nat)
    requires t < 15 && t != 3 && t != 4
    ensures var r, r', c := Both(t), Both(t + 1), Mover(t);
            var (op, k) := Wanted(r.pc[c]);
            var (s', rc) := Lockop(r.sys, c, k, op, false);
            s'.conns[c] == r'.sys.conns[c] && s'.os == map[] && AfterLock(r.pc[c], rc, r'.pc[c])
  {
    var r, c := Both(t), Mover(t);
    var (op, k) := Wanted(r.pc[c]);
    hide OtherExcl, OtherShared;
    Others(t, k);
  }

  lemma Moved(t: nat)
    requires t < 15
    ensures Step(Both(t), Mover(t), Both(t + 1))
  {
    var r, r', c := Both(t), Both(t + 1), Mover(t);
    hide Lockop, AfterLock;
    assert r.pc[c := r'.pc[c]] == r'.pc;
    if t != 3 && t != 4 {
      Answer(t);
      var (op, k) := Wanted(r.pc[c]);
      OnlyMover(t);
      assert LockStep(r, c, r', false);
    }
  }

  lemma OnlyMover(t: nat)
    requires t < 15 && t != 3 && t != 4
    ensures var r, r', c := Both(t), Both(t + 1), Mover(t);
            var (op, k) := Wanted(r.pc[c]);
            var s' := Lockop(r.sys, c, k, op, false).0;
            s'.conns[c] == r'.sys.conns[c] && s'.os == map[] ==> s' == r'.sys
  {
    var r, r', c := Both(t), Both(t + 1), Mover(t);
    var (op, k) := Wanted(r.pc[c]);
    LockLeavesRest(r.sys, c, k, op, false);
    var s' := Lockop(r.sys, c, k, op, false).0;
    assert s'.conns.Keys == {1, 2};
    if s'.conns[c] == r'.sys.conns[c] {
      assert s'.conns == r'.sys.conns;
    }
  }

  lemma BothAttach()
    ensures var rs := seq(16, (t: nat) => Both(t));
            && IsRun(rs) && rs[0].pc[1] == rs[0].pc[2] == Start
            && rs[4].pc[1] == Recovering && rs[9].pc[1] == Attached
            && rs[15].pc[1] == rs[15].pc[2] == Attached
  {
    hide Step, Inv, LocksFit;
    var rs := seq(16, (t: nat) => Both(t));
    forall t | 0 <= t < 15
      ensures Moves(rs[t], rs[t + 1])
    {
      Moved(t);
    }
    BothStart();
  }

  lemma BothStart()
    ensures RInv(Both(0))
  {
    var s := Both(0).sys;
    assert Inv(s);
  }
}

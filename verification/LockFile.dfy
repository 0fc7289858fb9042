// btLockLockopNonblocking of bt_lock.c as a procedure.

module LockFile {
  import opened Locks

  // struct BtLock, the part used for locking.
  class BtLock {
    const id: nat                  // tells connections apart, in the model only
    var mExclLock: set<nat>
    var mSharedLock: set<nat>

    constructor (id: nat)
      ensures this.id == id && mExclLock == {} && mSharedLock == {}
    {
      this.id := id;
      mExclLock, mSharedLock := {}, {};
    }

    ghost function Held(pid: nat): Conn
      reads this
    {
      Conn(pid, mExclLock, mSharedLock)
    }
  }

  // struct BtShared: one per process and database file.
  class BtShared {
    const pid: nat
    const bMultiProc: bool
    var pLock: seq<BtLock>

    constructor (pid: nat, multi: bool)
      ensures pLock == [] && Valid()
    {
      this.pid, bMultiProc, pLock := pid, multi, [];
    }

    ghost predicate Valid()
      reads this, pLock
    {
      && (forall i, j | 0 <= i < j < |pLock| :: pLock[i] != pLock[j])
      && (forall c, k: nat | c in pLock :: !(k in c.mExclLock && k in c.mSharedLock))
      && (forall c, d, k: nat | c in pLock && d in pLock && c != d && k in c.mExclLock ::
            k !in d.mExclLock && k !in d.mSharedLock)
    }

    ghost predicate OtherExcl(p: BtLock, k: nat)
      reads this, pLock
    {
      exists c :: c in pLock && c != p && k in c.mExclLock
    }

    ghost predicate OtherShared(p: BtLock, k: nat)
      reads this, pLock
    {
      exists c :: c in pLock && c != p && k !in c.mExclLock && k in c.mSharedLock
    }

    // sqlite4BtLockConnect: link a connection.
    method Link(p: BtLock)
      requires Valid() && p !in pLock && p.mExclLock == {} && p.mSharedLock == {}
      modifies this
      ensures Valid() && pLock == [p] + old(pLock)
    {
      pLock := [p] + pLock;
    }

    // The count of the other connections that hold iLock.
    method CountHolders(p: BtLock, iLock: nat) returns (nExcl: nat, nShared: nat)
      requires Valid() && p in pLock
      ensures nExcl > 0 <==> OtherExcl(p, iLock)
      ensures nShared > 0 <==> OtherShared(p, iLock)
      ensures nExcl <= 1 && (nExcl == 0 || nShared == 0)
    {
      nExcl, nShared := 0, 0;
      var i := 0;
      while i < |pLock|
        invariant 0 <= i <= |pLock|
        invariant nExcl > 0 <==> exists j :: 0 <= j < i && pLock[j] != p && iLock in pLock[j].mExclLock
        invariant nShared > 0 <==> exists j :: 0 <= j < i && pLock[j] != p && iLock !in pLock[j].mExclLock && iLock in pLock[j].mSharedLock
        invariant nExcl <= 1 && (nExcl == 0 || nShared == 0)
      {
        var pIter := pLock[i];
        assert pIter.mExclLock * pIter.mSharedLock == {};
        if pIter != p {
          assert pIter.mExclLock * p.mSharedLock == {};
          assert pIter.mSharedLock * p.mExclLock == {};
          if iLock in pIter.mExclLock {
            nExcl := nExcl + 1;
          } else if iLock in pIter.mSharedLock {
            nShared := nShared + 1;
          }
        }
        i := i + 1;
      }
    }

    // xLock answers osRc if it is called.
    method Lockop(p: BtLock, iLock: nat, eOp: Mode, osRc: Rc) returns (rc: Rc, call: Request)
      requires Valid() && p in pLock
      modifies p
      ensures Valid()
      ensures if NoOp(old(p.Held(pid)), iLock, eOp) then rc == Ok && call == NoCall && unchanged(p)
              else
                var ex, sh := old(OtherExcl(p, iLock)), old(OtherShared(p, iLock));
                && call == (if bMultiProc then OsCall(eOp, ex, sh) else NoCall)
                && rc == Result(eOp, ex, sh, if call == NoCall then Ok else osRc)
                && p.Held(pid) == Masks(old(p.Held(pid)), iLock, eOp, ex, rc)
    {
      rc, call := Ok, NoCall;
      if (eOp == Unlock && (iLock in p.mExclLock || iLock in p.mSharedLock))
         || (eOp == Shared && iLock !in p.mSharedLock)
         || (eOp == Excl && iLock !in p.mExclLock)
      {
        var nExcl, nShared := CountHolders(p, iLock);
        match eOp {
          case Unlock =>
            if nShared == 0 {
              call := SharedFile(Unlock);
            }
            p.mExclLock, p.mSharedLock := p.mExclLock - {iLock}, p.mSharedLock - {iLock};
          case Shared =>
            if nExcl > 0 {
              rc := Busy;
            } else {
              if nShared == 0 {
                call := SharedFile(Shared);
                rc := if call == NoCall then Ok else osRc;
              }
              if rc == Ok {
                p.mSharedLock := p.mSharedLock + {iLock};
              }
              p.mExclLock := p.mExclLock - {iLock};
            }
          case Excl =>
            if nExcl > 0 || nShared > 0 {
              rc := Busy;
            } else {
              call := SharedFile(Excl);
              rc := if call == NoCall then Ok else osRc;
              if rc == Ok {
                p.mSharedLock, p.mExclLock := p.mSharedLock - {iLock}, p.mExclLock + {iLock};
              }
            }
        }
      }
    }

    // btLockSharedFile: no call in single-process mode.
    method SharedFile(eOp: Mode) returns (call: Request)
      ensures call == if bMultiProc then Call(eOp) else NoCall
    {
      call := if bMultiProc then Call(eOp) else NoCall;
    }
  }

  // ---- The objects of several processes as one system

  // The processes by number, and their listed connections by id.
  datatype World = World(procs: map<nat, BtShared>, locks: map<nat, BtLock>)

  ghost predicate Listed(w: World, s: Sys, d: nat)
    requires d in w.locks
    reads w.procs.Values, w.locks.Values
  {
    && w.locks[d].id == d && d in s.conns && s.conns[d].pid in w.procs
    && w.locks[d] in w.procs[s.conns[d].pid].pLock
    && s.conns[d] == w.locks[d].Held(s.conns[d].pid)
  }

  ghost predicate Process(w: World, s: Sys, pid: nat)
    requires pid in w.procs
    reads w.procs.Values, w.locks.Values
  {
    var sh := w.procs[pid];
    && sh.pid == pid && sh.bMultiProc == s.multi
    && (forall p | p in sh.pLock :: p in w.locks.Values && p.id in w.locks && w.locks[p.id] == p && p.id in s.conns && s.conns[p.id].pid == pid)
    && sh.Valid()
  }

  ghost predicate Represents(w: World, s: Sys)
    reads w.procs.Values, w.locks.Values
  {
    && s.listed == w.locks.Keys
    && (forall d | d in w.locks :: Listed(w, s, d))
    && (forall pid | pid in w.procs :: Process(w, s, pid))
  }

  lemma SameOthers(w: World, s: Sys, sh: BtShared, p: BtLock, k: nat)
    requires Represents(w, s) && sh.pid in w.procs && w.procs[sh.pid] == sh && p in sh.pLock
    ensures p.id in s.conns && s.conns[p.id] == p.Held(sh.pid) && w.locks.Keys == s.listed && p.id in w.locks && w.locks[p.id] == p
    ensures sh.OtherExcl(p, k) <==> Locks.OtherExcl(s, p.id, k)
    ensures sh.OtherShared(p, k) <==> Locks.OtherShared(s, p.id, k)
  {
    assert Process(w, s, sh.pid);
    assert Listed(w, s, p.id);
    forall c | c in sh.pLock
      ensures c.id in s.listed && c.id in s.conns && s.conns[c.id] == c.Held(sh.pid) && (c == p <==> c.id == p.id)
    {
      assert Listed(w, s, c.id);
    }
    forall d | d in s.listed && d in s.conns && s.conns[d].pid == sh.pid
      ensures d in w.locks && w.locks[d] in sh.pLock && w.locks[d].id == d && s.conns[d] == w.locks[d].Held(sh.pid)
    {
      assert Listed(w, s, d);
    }
  }

  // The masks and the result are those of the step of the system.
  method LockopMasks(ghost w: World, ghost s: Sys, sh: BtShared, p: BtLock, iLock: nat, eOp: Mode, ghost err: bool, osRc: Rc)
    returns (rc: Rc)
    requires Represents(w, s) && sh.pid in w.procs && w.procs[sh.pid] == sh && p in sh.pLock
    requires s.multi ==> osRc == XLock(s, sh.pid, iLock, Call(eOp), err).1
    modifies p
    ensures sh.Valid() && p.id in s.conns && rc == Locks.Lockop(s, p.id, iLock, eOp, err).1
    ensures Locks.Lockop(s, p.id, iLock, eOp, err).0.conns == s.conns[p.id := p.Held(sh.pid)]
  {
    SameOthers(w, s, sh, p, iLock);
    assert Process(w, s, sh.pid);
    hide Locks.OtherExcl, Locks.OtherShared, Grantable, Listed, Represents, Process;
    var call;
    rc, call := sh.Lockop(p, iLock, eOp, osRc);
  }

  // A lock operation on the objects is the step of the system, if xLock answers
  // as the lock table of the system says.
  method LockopInSystem(ghost w: World, ghost s: Sys, sh: BtShared, p: BtLock, iLock: nat, eOp: Mode, ghost err: bool, osRc: Rc)
    returns (rc: Rc)
    requires Represents(w, s) && sh.pid in w.procs && w.procs[sh.pid] == sh && p in sh.pLock
    requires s.multi ==> osRc == XLock(s, sh.pid, iLock, Call(eOp), err).1
    modifies p
    ensures p.id in s.conns && rc == Locks.Lockop(s, p.id, iLock, eOp, err).1
    ensures Represents(w, Locks.Lockop(s, p.id, iLock, eOp, err).0)
  {
    hide Locks.OtherExcl, Locks.OtherShared, Masks, XLock, Result, NoOp;
    assert Process(w, s, sh.pid);
    rc := LockopMasks(w, s, sh, p, iLock, eOp, err, osRc);
    ghost var s' := Locks.Lockop(s, p.id, iLock, eOp, err).0;
    assert s'.multi == s.multi && s'.listed == s.listed;
    forall d | d in w.locks
      ensures Listed(w, s', d)
    {
      assert old(Listed(w, s, d));
    }
    forall pid | pid in w.procs
      ensures Process(w, s', pid)
    {
      assert old(Process(w, s, pid));
      if pid == sh.pid {
        assert w.procs[pid].Valid();
      } else {
        assert p !in w.procs[pid].pLock;
      }
    }
  }
}

// The lock table of bt_lock.c: connections of several processes share one OS
// lock per process and slot. All on values; LockFile.dfy has the procedure.

module Locks {
  datatype Mode = Unlock | Shared | Excl

  datatype Rc = Ok | Busy | IoErr

  // The lock masks of one BtLock, as sets of slots.
  datatype Conn = Conn(pid: nat, excl: set<nat>, shared: set<nat>)

  // conns   every connection that may still take locks
  // listed  those on the pLock list of their process
  // os      locks the OS grants, per process and slot
  // multi   multi-process mode (BtShared.pFile is open)
  datatype Sys = Sys(multi: bool, conns: map<nat, Conn>, listed: set<nat>, os: map<(nat, nat), Mode>)

  function OsMode(os: map<(nat, nat), Mode>, pid: nat, k: nat): Mode {
    if (pid, k) in os then os[(pid, k)] else Unlock
  }

  // Another process may take mode m while one holds mode held.
  predicate Tolerates(held: Mode, m: Mode) {
    match m
    case Unlock => true
    case Shared => held != Excl
    case Excl => held == Unlock
  }

  // The OS lets process pid hold slot k in mode m.
  ghost predicate Grantable(os: map<(nat, nat), Mode>, pid: nat, k: nat, m: Mode) {
    forall p: nat | p != pid :: Tolerates(OsMode(os, p, k), m)
  }

  // ---- btLockLockopNonblocking, given what the other connections hold

  predicate NoOp(c: Conn, k: nat, op: Mode) {
    match op
    case Unlock => k !in c.excl && k !in c.shared
    case Shared => k in c.shared
    case Excl => k in c.excl
  }

  datatype Request = NoCall | Call(mode: Mode)

  // The xLock call that is made, if others hold the slot EXCL or SHARED.
  function OsCall(op: Mode, otherExcl: bool, otherShared: bool): Request {
    match op
    case Unlock => if otherShared then NoCall else Call(Unlock)
    case Shared => if otherExcl || otherShared then NoCall else Call(Shared)
    case Excl => if otherExcl || otherShared then NoCall else Call(Excl)
  }

  function Result(op: Mode, otherExcl: bool, otherShared: bool, osRc: Rc): Rc {
    match op
    case Unlock => Ok
    case Shared => if otherExcl then Busy else if otherShared then Ok else osRc
    case Excl => if otherExcl || otherShared then Busy else osRc
  }

  // The masks afterwards. A failed SHARED request clears the EXCL bit too.
  function Masks(c: Conn, k: nat, op: Mode, otherExcl: bool, rc: Rc): Conn {
    match op
    case Unlock => c.(excl := c.excl - {k}, shared := c.shared - {k})
    case Shared =>
      if otherExcl then c
      else c.(excl := c.excl - {k}, shared := if rc == Ok then c.shared + {k} else c.shared)
    case Excl => if rc == Ok then c.(excl := c.excl + {k}, shared := c.shared - {k}) else c
  }

  // ---- One lock operation of the system

  ghost predicate OtherExcl(s: Sys, c: nat, k: nat)
    requires c in s.conns
  {
    exists d :: d in s.listed && d in s.conns && d != c && s.conns[d].pid == s.conns[c].pid && k in s.conns[d].excl
  }

  ghost predicate OtherShared(s: Sys, c: nat, k: nat)
    requires c in s.conns
  {
    exists d :: d in s.listed && d in s.conns && d != c && s.conns[d].pid == s.conns[c].pid
                && k !in s.conns[d].excl && k in s.conns[d].shared
  }

  // xLock: err is an I/O error of the OS.
  ghost function XLock(s: Sys, pid: nat, k: nat, req: Request, err: bool): (map<(nat, nat), Mode>, Rc) {
    match req
    case NoCall => (s.os, Ok)
    case Call(m) =>
      if !s.multi then (s.os, Ok)
      else if err then (s.os, IoErr)
      else if Grantable(s.os, pid, k, m) then (s.os[(pid, k) := m], Ok)
      else (s.os, Busy)
  }

  ghost function Lockop(s: Sys, c: nat, k: nat, op: Mode, err: bool): (Sys, Rc)
    requires c in s.conns
  {
    var own := s.conns[c];
    if NoOp(own, k, op) then (s, Ok)
    else
      var ex, sh := OtherExcl(s, c, k), OtherShared(s, c, k);
      var (os, osRc) := XLock(s, own.pid, k, OsCall(op, ex, sh), err);
      var rc := Result(op, ex, sh, osRc);
      (s.(conns := s.conns[c := Masks(own, k, op, ex, rc)], os := os), rc)
  }

  // ---- Exclusion

  // Two connections do not hold slot k in conflict.
  predicate Compatible(a: Conn, b: Conn, k: nat) {
    k in a.excl ==> k !in b.excl && k !in b.shared
  }

  ghost predicate Exclusive(s: Sys) {
    forall a, b, k: nat | a in s.listed && b in s.listed && a in s.conns && b in s.conns && a != b ::
      Compatible(s.conns[a], s.conns[b], k)
  }

  // The process holds slot k at least as strongly as its connection does.
  predicate Backed(os: map<(nat, nat), Mode>, a: Conn, k: nat) {
    && (k in a.excl ==> OsMode(os, a.pid, k) == Excl)
    && (k in a.shared ==> OsMode(os, a.pid, k) != Unlock)
  }

  ghost predicate OsSound(os: map<(nat, nat), Mode>) {
    forall p: nat, q: nat, k: nat | p != q && OsMode(os, p, k) == Excl :: OsMode(os, q, k) == Unlock
  }

  ghost predicate Inv(s: Sys) {
    && s.listed <= s.conns.Keys
    && (forall a, k: nat | a in s.listed :: !(k in s.conns[a].excl && k in s.conns[a].shared))
    // within a process
    && (forall a, b, k: nat | a in s.listed && b in s.listed && a != b && s.conns[a].pid == s.conns[b].pid ::
          Compatible(s.conns[a], s.conns[b], k))
    // between processes
    && (s.multi ==> OsSound(s.os) && forall a, k: nat | a in s.listed :: Backed(s.os, s.conns[a], k))
    && (!s.multi ==> forall a, b | a in s.listed && b in s.listed :: s.conns[a].pid == s.conns[b].pid)
  }

  // No two listed connections of any processes conflict on any slot.
  lemma InvExclusive(s: Sys)
    requires Inv(s)
    ensures Exclusive(s)
  {
    forall a, b, k: nat | a in s.listed && b in s.listed && a != b
      ensures Compatible(s.conns[a], s.conns[b], k)
    {
      if s.conns[a].pid != s.conns[b].pid && k in s.conns[a].excl {
        assert Backed(s.os, s.conns[a], k) && Backed(s.os, s.conns[b], k);
      }
    }
  }

  lemma GrantSound(os: map<(nat, nat), Mode>, pid: nat, k: nat, m: Mode)
    requires OsSound(os) && Grantable(os, pid, k, m)
    ensures OsSound(os[(pid, k) := m])
  {
    var os' := os[(pid, k) := m];
    forall p: nat, q: nat, j: nat | p != q && OsMode(os', p, j) == Excl
      ensures OsMode(os', q, j) == Unlock
    {
      assert Tolerates(OsMode(os, p, k), m) || p == pid;
      assert Tolerates(OsMode(os, q, k), m) || q == pid;
      assert OsMode(os, p, j) == Excl ==> OsMode(os, q, j) == Unlock;
    }
  }

  // d is another listed connection of c's process.
  ghost predicate Rival(s: Sys, c: nat, d: nat) {
    d in s.listed && d in s.conns && c in s.conns && d != c && s.conns[d].pid == s.conns[c].pid
  }

  lemma Rivals(s: Sys, c: nat, k: nat, d: nat)
    requires Inv(s) && c in s.listed && Rival(s, c, d)
    ensures k in s.conns[d].excl ==> OtherExcl(s, c, k)
    ensures k in s.conns[d].shared ==> OtherShared(s, c, k)
    ensures k in s.conns[c].excl || k in s.conns[c].shared ==> k !in s.conns[d].excl
    ensures k in s.conns[c].excl ==> k !in s.conns[d].shared
  {
    assert Compatible(s.conns[c], s.conns[d], k) && Compatible(s.conns[d], s.conns[c], k);
  }

  // Who holds a slot EXCL has no competitor.
  lemma HolderAlone(s: Sys, c: nat, k: nat)
    requires Inv(s) && c in s.listed
    ensures c in s.conns && (k in s.conns[c].excl ==> !OtherExcl(s, c, k) && !OtherShared(s, c, k))
  {
    if k in s.conns[c].excl {
      forall d | d in s.listed && d in s.conns && d != c && s.conns[d].pid == s.conns[c].pid
        ensures k !in s.conns[d].excl && k !in s.conns[d].shared
      {
        Rivals(s, c, k, d);
      }
    }
  }

  // ---- What a lock operation answers, and what it leaves

  // A SHARED request is granted exactly if the lock is held already, or no rival
  // holds the slot EXCL and a rival holds it SHARED, or there is only one process,
  // or no other process holds it EXCL.
  lemma SharedGranted(s: Sys, c: nat, k: nat, err: bool)
    requires Inv(s) && c in s.listed
    ensures Lockop(s, c, k, Shared, err).1 == Ok <==>
              || k in s.conns[c].shared
              || ((forall d | Rival(s, c, d) :: k !in s.conns[d].excl)
                  && ((exists d :: Rival(s, c, d) && k in s.conns[d].shared)
                      || !s.multi
                      || (!err && forall p: nat | p != s.conns[c].pid :: OsMode(s.os, p, k) != Excl)))
  {
    assert OtherExcl(s, c, k) <==> exists d :: Rival(s, c, d) && k in s.conns[d].excl;
    assert OtherShared(s, c, k) <==> exists d :: Rival(s, c, d) && k !in s.conns[d].excl && k in s.conns[d].shared;
    assert Grantable(s.os, s.conns[c].pid, k, Shared) <==> forall p: nat | p != s.conns[c].pid :: OsMode(s.os, p, k) != Excl;
  }

  // An EXCL request is granted exactly if the lock is held already, or no rival
  // holds the slot and there is only one process, or no other process holds it.
  lemma ExclGranted(s: Sys, c: nat, k: nat, err: bool)
    requires Inv(s) && c in s.listed
    ensures Lockop(s, c, k, Excl, err).1 == Ok <==>
              || k in s.conns[c].excl
              || ((forall d | Rival(s, c, d) :: k !in s.conns[d].excl && k !in s.conns[d].shared)
                  && (!s.multi || (!err && forall p: nat | p != s.conns[c].pid :: OsMode(s.os, p, k) == Unlock)))
  {
    assert OtherExcl(s, c, k) <==> exists d :: Rival(s, c, d) && k in s.conns[d].excl;
    assert OtherShared(s, c, k) <==> exists d :: Rival(s, c, d) && k !in s.conns[d].excl && k in s.conns[d].shared;
    assert Grantable(s.os, s.conns[c].pid, k, Excl) <==> forall p: nat | p != s.conns[c].pid :: OsMode(s.os, p, k) == Unlock;
  }

  // What c holds of slot k afterwards. A SHARED request that the OS refuses
  // gives up an EXCL lock; any other request that is refused changes nothing.
  lemma LockLeaves(s: Sys, c: nat, k: nat, op: Mode, err: bool)
    requires Inv(s) && c in s.listed
    ensures var (s', rc) := Lockop(s, c, k, op, err);
            && s'.conns.Keys == s.conns.Keys && s'.listed == s.listed && s'.multi == s.multi
            && (op == Unlock ==> rc == Ok && k !in s'.conns[c].excl && k !in s'.conns[c].shared)
            && (op == Shared && rc == Ok ==> k !in s'.conns[c].excl && k in s'.conns[c].shared)
            && (op == Excl && rc == Ok ==> k in s'.conns[c].excl && k !in s'.conns[c].shared)
            && (op == Shared && rc != Ok ==> k !in s'.conns[c].excl && k !in s'.conns[c].shared)
            && (op == Excl && rc != Ok ==> s'.conns[c] == s.conns[c])
            && (rc == IoErr ==> err && s.multi)
  {
    HolderAlone(s, c, k);
    SharedHasNoExcl(s, c, k);
  }

  lemma SharedHasNoExcl(s: Sys, c: nat, k: nat)
    requires Inv(s) && c in s.listed
    ensures !(k in s.conns[c].excl && k in s.conns[c].shared)
  {
  }

  // Nothing else changes: other slots, other connections, other locks of the OS.
  lemma LockLeavesRest(s: Sys, c: nat, k: nat, op: Mode, err: bool)
    requires c in s.conns
    ensures var s' := Lockop(s, c, k, op, err).0;
            && c in s'.conns && s'.conns[c].pid == s.conns[c].pid
            && (forall d | d in s.conns && d != c :: d in s'.conns && s'.conns[d] == s.conns[d])
            && (forall j: nat | j != k :: (j in s'.conns[c].excl <==> j in s.conns[c].excl)
                                       && (j in s'.conns[c].shared <==> j in s.conns[c].shared))
            && (forall p: nat, j: nat | p != s.conns[c].pid || j != k :: OsMode(s'.os, p, j) == OsMode(s.os, p, j))
  {
  }

  // The lock the OS holds for the process follows: it is taken with the first
  // lock of the process, and given up with the last.
  lemma OsFollows(s: Sys, c: nat, k: nat, op: Mode, err: bool)
    requires Inv(s) && c in s.listed && s.multi && !NoOp(s.conns[c], k, op)
    ensures var (s', rc) := Lockop(s, c, k, op, err);
            var m := OsMode(s'.os, s.conns[c].pid, k);
            && (op == Excl && rc == Ok ==> m == Excl)
            && (op == Shared && rc == Ok && (forall d | Rival(s, c, d) :: k !in s.conns[d].shared) ==> m == Shared)
            && (op == Unlock && !err && (forall d | Rival(s, c, d) :: k !in s.conns[d].shared) ==> m == Unlock)
            && (rc != Ok || (exists d :: Rival(s, c, d) && k in s.conns[d].shared) ==> m == OsMode(s.os, s.conns[c].pid, k))
  {
    assert OtherExcl(s, c, k) <==> exists d :: Rival(s, c, d) && k in s.conns[d].excl;
    assert OtherShared(s, c, k) <==> exists d :: Rival(s, c, d) && k !in s.conns[d].excl && k in s.conns[d].shared;
    assert Grantable(s.os, s.conns[c].pid, k, Unlock);
    forall d | Rival(s, c, d)
      ensures k in s.conns[d].shared ==> k !in s.conns[d].excl
    {
      SharedHasNoExcl(s, d, k);
    }
  }

  // ---- Connections come and go

  // sqlite4BtLockConnect links a new connection without locks.
  lemma LinkKeeps(s: Sys, c: nat, pid: nat)
    requires Inv(s) && c !in s.conns
    requires s.multi || forall d | d in s.listed :: s.conns[d].pid == pid
    ensures Inv(s.(conns := s.conns[c := Conn(pid, {}, {})], listed := s.listed + {c}))
  {
  }

  // sqlite4BtLockDisconnect unlinks a connection first: it may still hold
  // locks and goes on to take more, which the others no longer see.
  function Unlink(s: Sys, c: nat): Sys {
    s.(listed := s.listed - {c})
  }

  lemma UnlinkKeeps(s: Sys, c: nat)
    requires Inv(s)
    ensures Inv(Unlink(s, c))
  {
  }

  // ---- Exclusion over all connections, linked or not

  function AllListed(s: Sys): Sys {
    s.(listed := s.conns.Keys)
  }

  ghost predicate InvAll(s: Sys) {
    s.listed <= s.conns.Keys && Inv(AllListed(s))
  }

  // An unlinked connection of c's process holds slot k.
  ghost predicate HiddenExcl(s: Sys, c: nat, k: nat)
    requires c in s.conns
  {
    exists d :: d in s.conns && d !in s.listed && d != c && s.conns[d].pid == s.conns[c].pid && k in s.conns[d].excl
  }

  ghost predicate HiddenShared(s: Sys, c: nat, k: nat)
    requires c in s.conns
  {
    exists d :: d in s.conns && d !in s.listed && d != c && s.conns[d].pid == s.conns[c].pid && k in s.conns[d].shared
  }

  // The lock operations that go wrong: an OS lock is given up or weakened, or a
  // lock granted, over the head of a holder that is no longer listed.
  ghost predicate Breaks(s: Sys, c: nat, k: nat, op: Mode, err: bool)
    requires c in s.conns
  {
    && !NoOp(s.conns[c], k, op)
    && match op
       case Unlock => s.multi && !err && HiddenShared(s, c, k) && !OtherShared(s, c, k)
       case Shared => (s.multi ==> !err) && HiddenExcl(s, c, k)
       case Excl =>
         && (s.multi ==> !err && Grantable(s.os, s.conns[c].pid, k, Excl))
         && (HiddenExcl(s, c, k) || HiddenShared(s, c, k)) && !OtherExcl(s, c, k) && !OtherShared(s, c, k)
  }

  // What the invariant over all connections says of c and a rival d for slot k.
  lemma AllRivals(s: Sys, c: nat, k: nat, d: nat)
    requires InvAll(s) && c in s.conns && d in s.conns && d != c && s.conns[d].pid == s.conns[c].pid
    ensures k in s.conns[d].excl ==> HiddenExcl(s, c, k) || OtherExcl(s, c, k)
    ensures k in s.conns[d].shared ==> HiddenShared(s, c, k) || OtherShared(s, c, k)
    ensures k in s.conns[c].excl || k in s.conns[c].shared ==> k !in s.conns[d].excl
    ensures k in s.conns[c].excl ==> k !in s.conns[d].shared
  {
    var t := AllListed(s);
    assert Compatible(t.conns[c], t.conns[d], k) && Compatible(t.conns[d], t.conns[c], k);
  }

  // Every other operation keeps the invariant over all connections ...
  lemma MasksKeptAll(s: Sys, c: nat, k: nat, op: Mode, err: bool, d: nat, j: nat)
    requires InvAll(s) && c in s.conns && !Breaks(s, c, k, op, err)
    requires d in s.conns && d != c && s.conns[d].pid == s.conns[c].pid
    ensures var s' := Lockop(s, c, k, op, err).0;
            Compatible(s'.conns[c], s.conns[d], j) && Compatible(s.conns[d], s'.conns[c], j)
  {
    hide Inv;
    AllRivals(s, c, j, d);
    AllRivals(s, c, k, d);
    NoTwoExcl(s, c, k);
  }

  // A slot held EXCL by one rival is held by no other.
  lemma NoTwoExcl(s: Sys, c: nat, k: nat)
    requires InvAll(s) && c in s.conns
    ensures HiddenExcl(s, c, k) ==> !OtherExcl(s, c, k) && !OtherShared(s, c, k) && !HiddenShared(s, c, k)
    ensures OtherExcl(s, c, k) ==> !OtherShared(s, c, k) && !HiddenShared(s, c, k)
  {
    forall d, e | d in s.conns && e in s.conns && s.conns[d].pid == s.conns[e].pid && k in s.conns[d].excl
      ensures d == e || (k !in s.conns[e].excl && k !in s.conns[e].shared)
      ensures k !in s.conns[d].shared
    {
      if d != e {
        AllRivals(s, d, k, e);
      }
      assert d in AllListed(s).listed;
    }
  }

  lemma OsKeptAll(s: Sys, c: nat, k: nat, op: Mode, err: bool, j: nat)
    requires InvAll(s) && c in s.conns && s.multi && !Breaks(s, c, k, op, err)
    ensures OsSound(Lockop(s, c, k, op, err).0.os)
    ensures Backed(Lockop(s, c, k, op, err).0.os, Lockop(s, c, k, op, err).0.conns[c], j)
  {
    var own := s.conns[c];
    var ex, sh := OtherExcl(s, c, k), OtherShared(s, c, k);
    assert c in AllListed(s).listed && Backed(s.os, own, j);
    if OsCall(op, ex, sh).Call? && Grantable(s.os, own.pid, k, op) {
      GrantSound(s.os, own.pid, k, op);
    }
    if sh {
      var d :| d in s.listed && d in s.conns && d != c && s.conns[d].pid == s.conns[c].pid
               && k !in s.conns[d].excl && k in s.conns[d].shared;
      assert d in AllListed(s).listed && Backed(s.os, s.conns[d], k);
    }
  }

  lemma OthersBackedAll(s: Sys, c: nat, k: nat, op: Mode, err: bool, d: nat, j: nat)
    requires InvAll(s) && c in s.conns && d in s.conns && d != c && s.multi && !Breaks(s, c, k, op, err)
    ensures Backed(Lockop(s, c, k, op, err).0.os, s.conns[d], j)
  {
    hide OtherExcl, OtherShared, HiddenExcl, HiddenShared;
    assert d in AllListed(s).listed && Backed(s.os, s.conns[d], j);
    if s.conns[d].pid == s.conns[c].pid {
      AllRivals(s, c, k, d);
    }
  }

  lemma UnbrokenKeeps(s: Sys, c: nat, k: nat, op: Mode, err: bool)
    requires InvAll(s) && c in s.conns && !Breaks(s, c, k, op, err)
    ensures InvAll(Lockop(s, c, k, op, err).0)
  {
    hide Breaks;
    var s' := Lockop(s, c, k, op, err).0;
    assert s'.conns.Keys == s.conns.Keys;
    var t := AllListed(s);
    forall a, b, j: nat | a in s'.conns && b in s'.conns && a != b && s'.conns[a].pid == s'.conns[b].pid
      ensures Compatible(s'.conns[a], s'.conns[b], j)
    {
      if a == c {
        MasksKeptAll(s, c, k, op, err, b, j);
      } else if b == c {
        MasksKeptAll(s, c, k, op, err, a, j);
      } else {
        assert Compatible(t.conns[a], t.conns[b], j);
      }
    }
    if s.multi {
      forall d, j: nat | d in s'.conns
        ensures Backed(s'.os, s'.conns[d], j)
      {
        OsKeptAll(s, c, k, op, err, j);
        if d != c {
          OthersBackedAll(s, c, k, op, err, d, j);
        }
      }
      OsKeptAll(s, c, k, op, err, 0);
    }
  }

  // A lock operation of a listed connection keeps exclusion between the listed
  // ones, whatever the OS answers.
  lemma LockopKeeps(s: Sys, c: nat, k: nat, op: Mode, err: bool)
    requires Inv(s) && c in s.listed
    ensures Inv(Lockop(s, c, k, op, err).0)
  {
    hide Inv, InvAll, Lockop, HiddenExcl, HiddenShared, OtherExcl, OtherShared;
    OnlyListedOk(s);
    var t := OnlyListed(s);
    NoneHidden(t, c, k);
    UnbrokenKeeps(t, c, k, op, err);
    OnlyListedStep(s, c, k, op, err);
    OnlyListedBack(Lockop(s, c, k, op, err).0);
  }

  // The unlisted connections do not matter to a listed one.
  lemma OnlyListedStep(s: Sys, c: nat, k: nat, op: Mode, err: bool)
    requires s.listed <= s.conns.Keys && c in s.listed
    ensures s.listed == Lockop(s, c, k, op, err).0.listed <= Lockop(s, c, k, op, err).0.conns.Keys
    ensures Lockop(OnlyListed(s), c, k, op, err).0 == OnlyListed(Lockop(s, c, k, op, err).0)
  {
    hide Masks, XLock, Result, OsCall, NoOp, OtherExcl, OtherShared;
    var t := OnlyListed(s);
    SameOthers(s, c, k);
    var req := OsCall(op, OtherExcl(s, c, k), OtherShared(s, c, k));
    assert XLock(t, s.conns[c].pid, k, req, err) == XLock(s, s.conns[c].pid, k, req, err) by {
      SameXLock(t, s, s.conns[c].pid, k, req, err);
    }
    var t', s' := Lockop(t, c, k, op, err).0, Lockop(s, c, k, op, err).0;
    assert t'.conns == OnlyListed(s').conns;
  }

  lemma SameXLock(t: Sys, s: Sys, pid: nat, k: nat, req: Request, err: bool)
    requires t.multi == s.multi && t.os == s.os
    ensures XLock(t, pid, k, req, err) == XLock(s, pid, k, req, err)
  {
  }

  lemma SameOthers(s: Sys, c: nat, k: nat)
    requires s.listed <= s.conns.Keys && c in s.listed
    ensures OtherExcl(OnlyListed(s), c, k) == OtherExcl(s, c, k)
    ensures OtherShared(OnlyListed(s), c, k) == OtherShared(s, c, k)
  {
  }

  lemma NoneHidden(t: Sys, c: nat, k: nat)
    requires t.listed == t.conns.Keys && c in t.conns
    ensures !HiddenExcl(t, c, k) && !HiddenShared(t, c, k)
  {
  }

  function OnlyListed(s: Sys): Sys
    requires s.listed <= s.conns.Keys
  {
    s.(conns := map d | d in s.listed :: s.conns[d])
  }

  lemma OnlyListedOk(s: Sys)
    requires Inv(s)
    ensures s.listed <= s.conns.Keys && InvAll(OnlyListed(s)) && OnlyListed(s).listed == OnlyListed(s).conns.Keys
  {
    assert OnlyListed(s).conns.Keys == s.listed;
  }

  lemma OnlyListedBack(s: Sys)
    requires s.listed <= s.conns.Keys && InvAll(OnlyListed(s))
    ensures Inv(s)
  {
    assert OnlyListed(s).conns.Keys == s.listed && AllListed(OnlyListed(s)) == OnlyListed(s);
    assert forall d | d in s.listed :: OnlyListed(s).conns[d] == s.conns[d];
  }

  // ... and these do not.
  lemma BrokenUnlock(s: Sys, c: nat, k: nat, err: bool)
    requires InvAll(s) && c in s.conns && Breaks(s, c, k, Unlock, err)
    ensures !InvAll(Lockop(s, c, k, Unlock, err).0)
  {
    var s' := Lockop(s, c, k, Unlock, err).0;
    var d :| d in s.conns && d !in s.listed && d != c && s.conns[d].pid == s.conns[c].pid && k in s.conns[d].shared;
    assert d in AllListed(s').listed && !Backed(s'.os, s'.conns[d], k);
  }

  // A grant to c although an unlinked connection holds the slot in conflict.
  lemma BrokenGrant(s: Sys, c: nat, k: nat, op: Mode, err: bool)
    requires InvAll(s) && c in s.conns && op != Unlock && Breaks(s, c, k, op, err)
    ensures !Exclusive(AllListed(Lockop(s, c, k, op, err).0))
  {
    NoTwoExcl(s, c, k);
    var s' := Lockop(s, c, k, op, err).0;
    var d :| d in s.conns && d !in s.listed && d != c && s.conns[d].pid == s.conns[c].pid
             && (k in s.conns[d].excl || (op == Excl && k in s.conns[d].shared));
    if s.multi && op == Shared {
      assert d in AllListed(s).listed && Backed(s.os, s.conns[d], k);
      assert forall p: nat | p != s.conns[c].pid :: OsMode(s.os, p, k) == Unlock;
    }
    assert d in AllListed(s').listed && c in AllListed(s').listed;
    assert !Compatible(s'.conns[c], s'.conns[d], k) || !Compatible(s'.conns[d], s'.conns[c], k);
  }

  // One lock operation of any connection, linked or not: the invariant over all
  // connections survives exactly if the operation is not one of Breaks, and so
  // does exclusion, except that a broken Unlock shows only later.
  lemma UnlinkedExclusion(s: Sys, c: nat, k: nat, op: Mode, err: bool)
    requires InvAll(s) && c in s.conns
    ensures InvAll(Lockop(s, c, k, op, err).0) <==> !Breaks(s, c, k, op, err)
    ensures Exclusive(AllListed(Lockop(s, c, k, op, err).0)) <==> !Breaks(s, c, k, op, err) || op == Unlock
  {
    hide Breaks, Inv, Exclusive;
    var s' := Lockop(s, c, k, op, err).0;
    if !Breaks(s, c, k, op, err) {
      UnbrokenKeeps(s, c, k, op, err);
      InvExclusive(AllListed(s'));
    } else if op == Unlock {
      BrokenUnlock(s, c, k, err);
      UnlockExclusive(s, c, k, err);
    } else {
      BrokenGrant(s, c, k, op, err);
      if InvAll(s') {
        InvExclusive(AllListed(s'));
      }
    }
  }

  lemma UnlockExclusive(s: Sys, c: nat, k: nat, err: bool)
    requires InvAll(s) && c in s.conns
    ensures Exclusive(AllListed(Lockop(s, c, k, Unlock, err).0))
  {
    InvExclusive(AllListed(s));
    var t, t' := AllListed(s), AllListed(Lockop(s, c, k, Unlock, err).0);
    forall a, b, j: nat | a in t'.listed && b in t'.listed && a != b
      ensures Compatible(t'.conns[a], t'.conns[b], j)
    {
      assert Compatible(t.conns[a], t.conns[b], j);
    }
  }

  // ---- Runs in which connections come, go and lock

  datatype Event =
    | Lock(c: nat, k: nat, op: Mode, err: bool)
    | Join(c: nat, pid: nat)                      // sqlite4BtLockConnect links it
    | Leave(c: nat)                               // sqlite4BtLockDisconnect unlinks it
    | Close(c: nat)                               // the handle is gone

  predicate Possible(s: Sys, e: Event) {
    match e
    case Lock(c, _, _, _) => c in s.conns
    case Join(c, pid) => c !in s.conns && (s.multi || forall d | d in s.conns :: s.conns[d].pid == pid)
    case Leave(c) => c in s.listed
    case Close(c) => c in s.conns && c !in s.listed
  }

  ghost function Apply(s: Sys, e: Event): Sys
    requires Possible(s, e)
  {
    match e
    case Lock(c, k, op, err) => Lockop(s, c, k, op, err).0
    case Join(c, pid) => s.(conns := s.conns[c := Conn(pid, {}, {})], listed := s.listed + {c})
    case Leave(c) => Unlink(s, c)
    case Close(c) => s.(conns := s.conns - {c})
  }

  ghost predicate BreaksAt(s: Sys, e: Event)
    requires Possible(s, e)
  {
    e.Lock? && Breaks(s, e.c, e.k, e.op, e.err)
  }

  lemma EventKeeps(s: Sys, e: Event)
    requires InvAll(s) && Possible(s, e)
    ensures InvAll(Apply(s, e)) <==> !BreaksAt(s, e)
  {
    hide Breaks;
    match e
    case Lock(c, k, op, err) =>
      UnlinkedExclusion(s, c, k, op, err);
    case Join(c, pid) =>
      LinkKeeps(AllListed(s), c, pid);
      assert AllListed(Apply(s, e)) == AllListed(s).(conns := s.conns[c := Conn(pid, {}, {})], listed := AllListed(s).listed + {c});
    case Leave(c) =>
      assert AllListed(Apply(s, e)) == AllListed(s);
    case Close(c) =>
      var t, t' := AllListed(s), AllListed(Apply(s, e));
      assert forall d | d in t'.listed :: d in t.listed && t'.conns[d] == t.conns[d];
  }

  ghost predicate IsHistory(ss: seq<Sys>, es: seq<Event>) {
    && |ss| == |es| + 1
    && forall i | 0 <= i < |es| :: Possible(ss[i], es[i]) && ss[i + 1] == Apply(ss[i], es[i])
  }

  // Over any history the invariant, and with it exclusion between all
  // connections, holds throughout exactly if no lock operation in it breaks.
  lemma {:induction false} HistoryExclusion(ss: seq<Sys>, es: seq<Event>)
    requires IsHistory(ss, es) && InvAll(ss[0])
    ensures (forall i | 0 <= i < |ss| :: InvAll(ss[i])) <==> (forall i | 0 <= i < |es| :: !BreaksAt(ss[i], es[i]))
    ensures (forall i | 0 <= i < |es| :: !BreaksAt(ss[i], es[i])) ==> forall i | 0 <= i < |ss| :: Exclusive(AllListed(ss[i]))
  {
    hide Inv, Breaks, Exclusive, Apply;
    if (forall i | 0 <= i < |es| :: !BreaksAt(ss[i], es[i])) {
      var i := 0;
      while i < |es|
        invariant 0 <= i <= |es| && forall j | 0 <= j <= i :: InvAll(ss[j])
      {
        EventKeeps(ss[i], es[i]);
        i := i + 1;
      }
      forall j | 0 <= j < |ss| ensures Exclusive(AllListed(ss[j])) {
        InvExclusive(AllListed(ss[j]));
      }
    } else {
      var i :| 0 <= i < |es| && BreaksAt(ss[i], es[i]);
      if InvAll(ss[i]) {
        EventKeeps(ss[i], es[i]);
        assert !InvAll(ss[i + 1]);
      }
    }
  }

  // A broken EXCL grant: connection 1 has been unlinked and holds slot 0 (DMS1)
  // on its way out, and connection 2 of the same process gets it as well.
  lemma DisconnectRace()
    ensures var s := Sys(true, map[1 := Conn(0, {}, {}), 2 := Conn(0, {}, {})], {2}, map[]);
            var (s1, rc1) := Lockop(s, 1, 0, Excl, false);
            var (s2, rc2) := Lockop(s1, 2, 0, Excl, false);
            && rc1 == Ok && rc2 == Ok
            && 0 in s2.conns[1].excl && 0 in s2.conns[2].excl
  {
    var s := Sys(true, map[1 := Conn(0, {}, {}), 2 := Conn(0, {}, {})], {2}, map[]);
    assert !OtherExcl(s, 1, 0) && !OtherShared(s, 1, 0);
    assert Grantable(s.os, 0, 0, Excl);
    var s1 := Lockop(s, 1, 0, Excl, false).0;
    assert !OtherExcl(s1, 2, 0) && !OtherShared(s1, 2, 0);
    assert Grantable(s1.os, 0, 0, Excl);
  }

  // A broken Unlock: connections 1 and 2 of one process are on their way out and
  // hold slot 1 (DMS2_RW) SHARED, as connection 3 of another process does. 2 asks
  // for the slot EXCL and is refused, drops it, and with it the lock of the
  // process; 3 then gets it EXCL while 1 still holds it SHARED.
  lemma UnlockRace()
    ensures var s := TwoLeaving();
            var (s1, rc1) := Lockop(s, 2, 1, Excl, false);
            var (s2, rc2) := Lockop(s1, 2, 1, Unlock, false);
            && InvAll(s) && rc1 == Busy && InvAll(s1)
            && Breaks(s1, 2, 1, Unlock, false) && Exclusive(AllListed(s2))
            && (var (s3, rc3) := Lockop(s2, 3, 1, Excl, false);
                rc3 == Ok && !Exclusive(AllListed(s3)))
  {
    hide InvAll, Breaks;
    Refused();
    var s := TwoLeaving();
    UnlinkedExclusion(s, 2, 1, Unlock, false);
    assert !OtherExcl(s, 2, 1) && !OtherShared(s, 2, 1);
    var s2 := Lockop(s, 2, 1, Unlock, false).0;
    assert s2.os == s.os[(0, 1) := Unlock];
    assert !OtherExcl(s2, 3, 1) && !OtherShared(s2, 3, 1);
    assert forall p: nat | p != 1 :: Tolerates(OsMode(s2.os, p, 1), Excl);
    var s3 := Lockop(s2, 3, 1, Excl, false).0;
    assert 1 in s3.conns[3].excl && 1 in s3.conns[1].shared;
    assert !Compatible(s3.conns[3], s3.conns[1], 1);
  }

  function TwoLeaving(): Sys {
    Sys(true, map[1 := Conn(0, {}, {1}), 2 := Conn(0, {}, {1}), 3 := Conn(1, {}, {1})], {3},
        map[(0, 1) := Shared, (1, 1) := Shared])
  }

  lemma Refused()
    ensures var s := TwoLeaving();
            InvAll(s) && Lockop(s, 2, 1, Excl, false) == (s, Busy) && Breaks(s, 2, 1, Unlock, false)
  {
    var s := TwoLeaving();
    assert !OtherExcl(s, 2, 1) && !OtherShared(s, 2, 1);
    assert !Tolerates(OsMode(s.os, 1, 1), Excl);
    assert s.conns[2 := s.conns[2]] == s.conns;
    assert s.conns[1].pid == s.conns[2].pid && HiddenShared(s, 2, 1);
  }

  // A broken SHARED grant: connection 1 has been unlinked and holds slot 1
  // EXCL, and connection 2 of the same process gets it SHARED.
  lemma SharedRace()
    ensures var s := Sys(true, map[1 := Conn(0, {1}, {}), 2 := Conn(0, {}, {})], {2}, map[(0, 1) := Excl]);
            var (s', rc) := Lockop(s, 2, 1, Shared, false);
            InvAll(s) && rc == Ok && !Exclusive(AllListed(s'))
  {
    var s := Sys(true, map[1 := Conn(0, {1}, {}), 2 := Conn(0, {}, {})], {2}, map[(0, 1) := Excl]);
    assert s.conns[1].pid == s.conns[2].pid && HiddenExcl(s, 2, 1);
    assert !OtherExcl(s, 2, 1) && !OtherShared(s, 2, 1);
    assert Grantable(s.os, 0, 1, Shared);
    UnlinkedExclusion(s, 2, 1, Shared, false);
  }
}

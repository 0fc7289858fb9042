// The debugging allocator of lsmtest_mem.c: every live block is on a doubly
// linked list headed by pFirst.

module TmAllocator {
  import opened Basics
  import opened OomSchedule
  import opened PageTypes

  const FOREGUARD := 0x80F5E153
  const REARGUARD := 0xE4676B53
  const FREED := 0x57575757

  // A block: struct TmBlockHdr, the user's bytes, and the guard behind them.
  class TmBlockHdr {
    var pNext: TmBlockHdr?
    var pPrev: TmBlockHdr?
    var nByte: nat
    var iForeGuard: nat
    var aUser: Bytes
    var iRearGuard: nat

    constructor ()
      ensures pNext == null && pPrev == null && nByte == 0 && iForeGuard == 0 && aUser == [] && iRearGuard == 0
    {
      pNext, pPrev := null, null;
      nByte, iForeGuard, iRearGuard := 0, 0, 0;
      aUser := [];
    }
  }

  function At(live: seq<TmBlockHdr>, i: int): TmBlockHdr? {
    if 0 <= i < |live| then live[i] else null
  }

  // The links of the list: forward from pFirst, and back.
  ghost predicate Forward(live: seq<TmBlockHdr>, pFirst: TmBlockHdr?)
    reads live
  {
    pFirst == At(live, 0) && forall i | 0 <= i < |live| :: live[i].pNext == At(live, i + 1)
  }

  ghost predicate Back(live: seq<TmBlockHdr>)
    reads live
  {
    forall i | 0 <= i < |live| :: live[i].pPrev == At(live, i - 1)
  }

  // No one has written outside a block.
  ghost predicate Guarded(live: seq<TmBlockHdr>)
    reads live
  {
    forall i | 0 <= i < |live| :: Intact(live[i])
  }

  ghost predicate Intact(b: TmBlockHdr)
    reads b
  {
    b.iForeGuard == FOREGUARD && b.iRearGuard == REARGUARD && |b.aUser| == b.nByte
  }

  ghost predicate Sized(live: seq<TmBlockHdr>, sizes: seq<nat>)
    reads live
  {
    |sizes| == |live| && forall i | 0 <= i < |live| :: live[i].nByte == sizes[i]
  }

  lemma IntactAt(live: seq<TmBlockHdr>, k: nat)
    requires Guarded(live) && k < |live|
    ensures Intact(live[k])
  {
  }

  lemma WithoutTail<T>(x: T, s: seq<T>, k: nat)
    requires k < |s|
    ensures Without([x] + s, k + 1) == [x] + Without(s, k)
    ensures forall y | y in Without(s, k) :: y in s
  {
  }

  lemma PushDistinct(live: seq<TmBlockHdr>, p: TmBlockHdr)
    requires NoDup(live) && p !in live
    ensures NoDup([p] + live)
  {
  }

  lemma OthersDistinct(live: seq<TmBlockHdr>, k: int)
    requires NoDup(live) && 0 <= k < |live|
    ensures forall i | 0 <= i < |live| && i != k :: live[i] != live[k]
  {
  }

  lemma DropDistinct(live: seq<TmBlockHdr>, k: nat)
    requires NoDup(live) && k < |live|
    ensures NoDup(Without(live, k))
    ensures live[k] !in Without(live, k)
  {
  }

  class TmGlobal {
    var pFirst: TmBlockHdr?
    var oom: Schedule
    ghost var live: seq<TmBlockHdr>
    ghost var sizes: seq<nat>

    constructor ()
      ensures Valid() && live == [] && sizes == []
    {
      pFirst := null;
      oom := Schedule(0, false, false);
      live := [];
      sizes := [];
    }

    ghost predicate Valid()
      reads this, live
    {
      NoDup(live) && Forward(live, pFirst) && Back(live) && Guarded(live) && Sized(live, sizes)
    }

    ghost function State(): Model
      reads this
    {
      Model(sizes, oom)
    }

    // Put pNew at the head of the list.
    method LinkFirst(pNew: TmBlockHdr)
      requires NoDup(live) && Forward(live, pFirst) && Back(live)
      requires pNew !in live && pNew.pPrev == null
      modifies this`pFirst, this`live, pNew`pNext, live`pPrev
      ensures live == [pNew] + old(live)
      ensures NoDup(live) && Forward(live, pFirst) && Back(live)
    {
      hide NoDup;
      PushDistinct(live, pNew);
      if live != [] {
        OthersDistinct(live, 0);
      }
      pNew.pNext := pFirst;
      if pFirst != null {
        pFirst.pPrev := pNew;
      }
      pFirst := pNew;
      live := [pNew] + live;
    }

    method AddBlock(pNew: TmBlockHdr)
      requires Valid() && Intact(pNew)
      requires pNew !in live && pNew.pPrev == null
      modifies this`pFirst, this`live, this`sizes, pNew`pNext, live`pPrev
      ensures Valid() && live == [pNew] + old(live) && sizes == [pNew.nByte] + old(sizes)
    {
      hide NoDup, Forward, Back;
      LinkFirst(pNew);
      sizes := [pNew.nByte] + sizes;
    }

    // Take p, which is live[k], out of the list: the link to it from the front, ...
    method UnlinkForward(p: TmBlockHdr, ghost k: nat)
      requires NoDup(live) && Forward(live, pFirst) && Back(live)
      requires k < |live| && live[k] == p
      modifies this`pFirst, live`pNext
      ensures Forward(Without(live, k), pFirst) && p.pNext == At(live, k + 1)
      ensures Back(live)
    {
      hide NoDup;
      if k > 0 {
        OthersDistinct(live, k - 1);
      }
      if p.pPrev != null {
        assert p.pPrev.pNext == p;
        p.pPrev.pNext := p.pNext;
      } else {
        assert p == pFirst;
        pFirst := p.pNext;
      }
    }

    // ... and the link to it from behind.
    method UnlinkBack(p: TmBlockHdr, ghost k: nat)
      requires k < |live| && NoDup(live) && Back(live) && Forward(Without(live, k), pFirst)
      requires live[k] == p && p.pNext == At(live, k + 1)
      modifies live`pPrev
      ensures Back(Without(live, k)) && Forward(Without(live, k), pFirst)
    {
      hide NoDup;
      if k + 1 < |live| {
        OthersDistinct(live, k + 1);
      }
      if p.pNext != null {
        assert p.pNext.pPrev == p;
        p.pNext.pPrev := p.pPrev;
      }
    }

    method Unlink(p: TmBlockHdr, ghost k: nat)
      requires NoDup(live) && Forward(live, pFirst) && Back(live)
      requires k < |live| && live[k] == p
      modifies this`pFirst, this`live, live`pNext, live`pPrev
      ensures live == Without(old(live), k) && p !in live
      ensures NoDup(live) && Forward(live, pFirst) && Back(live)
    {
      hide NoDup, Forward, Back, Without;
      DropDistinct(live, k);
      UnlinkForward(p, k);
      UnlinkBack(p, k);
      live := Without(live, k);
    }

    method DropBlock(p: TmBlockHdr, ghost k: nat)
      requires Valid() && k < |live| && live[k] == p
      modifies this`pFirst, this`live, this`sizes, live`pNext, live`pPrev
      ensures Valid() && live == Without(old(live), k) && sizes == Without(old(sizes), k)
      ensures p !in live
    {
      hide NoDup, Forward, Back;
      Unlink(p, k);
      sizes := Without(sizes, k);
    }

    // tmMalloc.
    method Malloc(nByte: nat) returns (pUser: TmBlockHdr?)
      requires Valid()
      modifies this, live
      ensures Valid() && oom == Next(old(oom))
      ensures pUser == null <==> FailsNow(old(oom))
      ensures pUser == null ==> live == old(live)
      ensures pUser != null ==> fresh(pUser) && Intact(pUser) && pUser.nByte == nByte && live == [pUser] + old(live)
      ensures sizes == if pUser == null then old(sizes) else [nByte] + old(sizes)
      ensures forall b | b in old(live) :: b.nByte == old(b.nByte) && b.aUser == old(b.aUser)
    {
      hide NoDup, Forward, Back, Guarded, Sized;
      var pNew := new TmBlockHdr();
      if oom.bEnable && oom.nCountdown == 1 {
        oom := oom.(nCountdown := if oom.bPersist then 1 else 0);
        return null;
      }
      if oom.bEnable && oom.nCountdown != 0 {
        oom := oom.(nCountdown := oom.nCountdown - 1);
      }
      pNew.iForeGuard := FOREGUARD;
      pNew.nByte := nByte;
      pNew.aUser := seq(nByte, _ => 0x56);
      pNew.iRearGuard := REARGUARD;
      AddBlock(pNew);
      return pNew;
    }

    // tmFree.
    method Free(p: TmBlockHdr?, ghost k: nat)
      requires Valid() && (p != null ==> k < |live| && live[k] == p)
      modifies this, live
      ensures Valid() && oom == old(oom)
      ensures p == null ==> live == old(live)
      ensures p != null ==> live == Without(old(live), k) && p.iForeGuard != FOREGUARD
      ensures sizes == if p == null then old(sizes) else Without(old(sizes), k)
      ensures forall b | b in live :: b.nByte == old(b.nByte) && b.aUser == old(b.aUser)
    {
      hide Forward, Back, NoDup, Guarded, Sized;
      if p != null {
        IntactAt(live, k);
        assert p.iForeGuard == FOREGUARD && p.iRearGuard == REARGUARD;
        DropBlock(p, k);
        p.iForeGuard := FREED;
      }
    }

    // tmRealloc. A failure leaves the old block as it was.
    method Realloc(p: TmBlockHdr?, ghost k: nat, nByte: nat) returns (pNew: TmBlockHdr?)
      requires Valid() && (p != null ==> k < |live| && live[k] == p)
      modifies this, live
      ensures Valid() && oom == Next(old(oom))
      ensures pNew == null <==> FailsNow(old(oom))
      ensures pNew == null ==> live == old(live)
      ensures pNew != null ==> fresh(pNew) && pNew.nByte == nByte
      ensures pNew != null ==> live == [pNew] + if p == null then old(live) else Without(old(live), k)
      ensures sizes == if pNew == null then old(sizes)
                       else [nByte] + if p == null then old(sizes) else Without(old(sizes), k)
      ensures pNew != null && p != null ==>
                forall i | 0 <= i < nByte && i < old(p.nByte) :: pNew.aUser[i] == old(p.aUser)[i]
      ensures forall b | b in old(live) && b in live :: b.nByte == old(b.nByte) && b.aUser == old(b.aUser)
    {
      hide NoDup, Forward, Back, Guarded, Without;
      pNew := Malloc(nByte);
      if pNew != null && p != null {
        WithoutTail<TmBlockHdr>(pNew, old(live), k);
        WithoutTail(nByte, old(sizes), k);
        TakeOver(pNew, p, k + 1);
      }
    }

    // Copy the old block into the new one, and free it.
    method TakeOver(pNew: TmBlockHdr, p: TmBlockHdr, ghost k: nat)
      requires Valid() && 0 < k < |live| && live[0] == pNew && live[k] == p
      modifies this, live
      ensures Valid() && oom == old(oom)
      ensures live == Without(old(live), k) && sizes == Without(old(sizes), k)
      ensures pNew.nByte == old(pNew.nByte) && |pNew.aUser| == pNew.nByte
      ensures forall i | 0 <= i < pNew.nByte && i < old(p.nByte) :: pNew.aUser[i] == old(p.aUser)[i]
      ensures forall b | b in live && b != pNew :: b.nByte == old(b.nByte) && b.aUser == old(b.aUser)
    {
      hide Forward, Back, Guarded, Sized;
      var n := if pNew.nByte < p.nByte then pNew.nByte else p.nByte;
      IntactAt(live, k);
      CopyIn(pNew, p, n);
      Free(p, k);
      IntactAt(live, 0);
    }

    // memcpy(pNew, p, n).
    method CopyIn(pNew: TmBlockHdr, p: TmBlockHdr, n: nat)
      requires Valid() && live != [] && pNew == live[0] && |p.aUser| == p.nByte && n <= pNew.nByte && n <= p.nByte
      modifies pNew`aUser
      ensures Valid() && |pNew.aUser| == |old(pNew.aUser)|
      ensures forall i | 0 <= i < n :: pNew.aUser[i] == old(p.aUser)[i]
    {
      IntactAt(live, 0);
      pNew.aUser := p.aUser[..n] + pNew.aUser[n..];
    }

    // tmMallocOom.
    method MallocOom(nCountdown: nat, bPersist: bool)
      requires Valid()
      modifies this`oom
      ensures Valid() && oom == Schedule(nCountdown, bPersist, true)
    {
      oom := Schedule(nCountdown, bPersist, true);
    }

    // tmMallocOomEnable.
    method MallocOomEnable(bEnable: bool)
      requires Valid()
      modifies this`oom
      ensures Valid() && oom == old(oom).(bEnable := bEnable)
    {
      oom := oom.(bEnable := bEnable);
    }

    // tmMallocCheck: the leaks, in blocks and in bytes.
    method MallocCheck() returns (nLeak: nat, nByte: nat)
      requires Valid()
      ensures nLeak == |live| && nByte == Sum(sizes)
    {
      nLeak, nByte := 0, 0;
      var pHdr := pFirst;
      while pHdr != null
        invariant nLeak <= |live| && pHdr == At(live, nLeak)
        invariant nByte == Sum(sizes[..nLeak])
        decreases |live| - nLeak
      {
        SumSnoc(sizes, nLeak);
        nLeak := nLeak + 1;
        nByte := nByte + pHdr.nByte;
        pHdr := pHdr.pNext;
      }
      assert sizes[..nLeak] == sizes;
    }

    // The k-th block of the list.
    method Nth(k: nat) returns (p: TmBlockHdr)
      requires Valid() && k < |live|
      ensures p == live[k]
    {
      p := pFirst;
      for i := 0 to k
        invariant p == live[i]
      {
        p := p.pNext;
      }
    }

    // One call of a run.
    method Perform(c: Call)
      requires Valid() && CallOk(State(), c)
      modifies this, live
      ensures Valid() && State() == Do(old(State()), c)
      ensures forall b | b in live :: b in old(live) || fresh(b)
    {
      hide NoDup, Forward, Back, Guarded, Intact, Next;
      match c {
        case Malloc(n) =>
          var p := Malloc(n);
        case Free(k) =>
          var p := Nth(k);
          Free(p, k);
        case Realloc(k, n) =>
          var p := Nth(k);
          var q := Realloc(p, k, n);
      }
    }

    // After any calls, the leak report is what the list of sizes says.
    method Run(calls: seq<Call>) returns (nLeak: nat, nByte: nat)
      requires Valid() && RunOk(State(), calls)
      modifies this, live
      ensures Valid() && State() == OomSchedule.Run(old(State()), calls)
      ensures nLeak == |OomSchedule.Run(old(State()), calls).sizes|
      ensures nByte == Sum(OomSchedule.Run(old(State()), calls).sizes)
    {
      hide NoDup, Forward, Back, Guarded, Do;
      for i := 0 to |calls|
        invariant Valid() && RunOk(State(), calls[i..])
        invariant OomSchedule.Run(State(), calls[i..]) == OomSchedule.Run(old(State()), calls)
        invariant forall b | b in live :: b in old(live) || fresh(b)
      {
        assert calls[i..][1..] == calls[i+1..];
        assert forall j | 0 <= j < |live| :: live[j] in old(live) || fresh(live[j]);
        Perform(calls[i]);
      }
      nLeak, nByte := MallocCheck();
    }
  }

  lemma {:induction false} SumSnoc(s: seq<nat>, n: nat)
    requires n < |s|
    ensures Sum(s[..n+1]) == Sum(s[..n]) + s[n]
  {
    if n > 0 {
      SumSnoc(s[1..], n - 1);
      assert s[..n+1][1..] == s[1..][..n] && s[..n][1..] == s[1..][..n-1];
    }
  }
}

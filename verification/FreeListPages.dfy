// The free lists of bt_pager.c as they lie in pages: a chain of trunk pages,
// each with a count at offset 0, the next trunk at offset 4 and entries from
// offset 8. All on values.

module FreeListPages {
  import opened Basics
  import opened PageTypes

  type Pages = imap<nat, Bytes>

  // sqlite4BtGetU32
  function GetU32(b: Bytes, o: nat): (r: nat)
    requires o + 4 <= |b|
    ensures r < U32
  {
    (b[o] as int) * 0x100_0000 + (b[o + 1] as int) * 0x1_0000 + (b[o + 2] as int) * 0x100 + b[o + 3] as int
  }

  // sqlite4BtPutU32
  function PutU32(b: Bytes, o: nat, v: nat): (r: Bytes)
    requires o + 4 <= |b| && v < U32
    ensures |r| == |b| && GetU32(r, o) == v
    ensures forall k | 0 <= k < |b| && !(o <= k < o + 4) :: r[k] == b[k]
  {
    BigEndian(v);
    b[o := v / 0x100_0000][o + 1 := v / 0x1_0000 % 0x100][o + 2 := v / 0x100 % 0x100][o + 3 := v % 0x100]
  }

  lemma BigEndian(v: nat)
    requires v < U32
    ensures v == v / 0x100_0000 * 0x100_0000 + v / 0x1_0000 % 0x100 * 0x1_0000 + v / 0x100 % 0x100 * 0x100 + v % 0x100
    ensures v / 0x100_0000 < 0x100
  {
    assert v / 0x1_0000 == v / 0x100_0000 * 0x100 + v / 0x1_0000 % 0x100;
    assert v / 0x100 == v / 0x1_0000 * 0x100 + v / 0x100 % 0x100;
  }

  lemma PutElsewhere(b: Bytes, o: nat, v: nat, o': nat)
    requires o + 4 <= |b| && v < U32 && o' + 4 <= |b|
    requires o' + 4 <= o || o + 4 <= o'
    ensures GetU32(PutU32(b, o, v), o') == GetU32(b, o')
  {
    hide PutU32;
  }

  // The number of entries a trunk page has room for.
  function NMax(pgsz: nat): nat {
    if pgsz < 8 then 0 else (pgsz - 8) / 4
  }

  // A page that can be read as a trunk.
  predicate TrunkOk(b: Bytes, pgsz: nat) {
    |b| == pgsz && 12 <= pgsz < U32 && GetU32(b, 0) <= NMax(pgsz)
  }

  function NFree(b: Bytes): nat
    requires |b| >= 12
  {
    GetU32(b, 0)
  }

  function Next(b: Bytes): nat
    requires |b| >= 12
  {
    GetU32(b, 4)
  }

  function Entries(b: Bytes): (r: seq<nat>)
    requires TrunkOk(b, |b|)
    ensures |r| == NFree(b)
  {
    seq(NFree(b), i requires 0 <= i < NFree(b) => GetU32(b, 8 + 4 * i))
  }

  // ---- One trunk page

  // Append an entry.
  function PutEntry(b: Bytes, v: nat): (r: Bytes)
    requires TrunkOk(b, |b|) && NFree(b) < NMax(|b|) && v < U32
    ensures |r| == |b|
  {
    PutU32(PutU32(b, 8 + 4 * NFree(b), v), 0, NFree(b) + 1)
  }

  lemma PutEntryOk(b: Bytes, v: nat)
    requires TrunkOk(b, |b|) && NFree(b) < NMax(|b|) && v < U32
    ensures var b' := PutEntry(b, v);
            TrunkOk(b', |b|) && Next(b') == Next(b) && Entries(b') == Entries(b) + [v]
  {
    hide PutU32, GetU32;
    var n := NFree(b);
    var c := PutU32(b, 8 + 4 * n, v);
    var b' := PutEntry(b, v);
    PutElsewhere(b, 8 + 4 * n, v, 4);
    PutElsewhere(c, 0, n + 1, 4);
    forall i | 0 <= i <= n
      ensures GetU32(b', 8 + 4 * i) == if i == n then v else GetU32(b, 8 + 4 * i)
    {
      PutElsewhere(c, 0, n + 1, 8 + 4 * i);
      if i < n {
        PutElsewhere(b, 8 + 4 * n, v, 8 + 4 * i);
      }
    }
  }

  // Drop the last entry.
  function DropEntry(b: Bytes): (r: Bytes)
    requires TrunkOk(b, |b|) && NFree(b) > 0
    ensures |r| == |b|
  {
    PutU32(b, 0, NFree(b) - 1)
  }

  lemma DropEntryOk(b: Bytes)
    requires TrunkOk(b, |b|) && NFree(b) > 0
    ensures var b' := DropEntry(b);
            TrunkOk(b', |b|) && Next(b') == Next(b) && Entries(b') == Entries(b)[..NFree(b) - 1]
  {
    var n := NFree(b) - 1;
    var b' := DropEntry(b);
    hide PutU32, GetU32;
    PutElsewhere(b, 0, n, 4);
    forall i | 0 <= i < n
      ensures GetU32(b', 8 + 4 * i) == GetU32(b, 8 + 4 * i)
    {
      PutElsewhere(b, 0, n, 8 + 4 * i);
    }
  }

  // An empty trunk in front of trunk next.
  function NewTrunk(b: Bytes, next: nat): (r: Bytes)
    requires |b| >= 12 && next < U32
    ensures |r| == |b|
  {
    PutU32(PutU32(b, 0, 0), 4, next)
  }

  lemma NewTrunkOk(b: Bytes, next: nat)
    requires 12 <= |b| < U32 && next < U32
    ensures var b' := NewTrunk(b, next);
            TrunkOk(b', |b|) && Next(b') == next && Entries(b') == []
  {
    hide PutU32, GetU32;
    PutElsewhere(PutU32(b, 0, 0), 4, next, 0);
  }

  // A trunk page holds as many entries as fit behind the two header fields.
  lemma EntriesFit(pgsz: nat)
    requires pgsz >= 8
    ensures 8 + 4 * NMax(pgsz) <= pgsz < 8 + 4 * (NMax(pgsz) + 1)
  {
  }

  // The bytes of a trunk in front of trunk 0x01020304, with the one entry 5.
  lemma TrunkExample(b: Bytes)
    requires 12 <= |b| < U32
    ensures var t := NewTrunk(b, 0x0102_0304);
            && TrunkOk(t, |t|) && NFree(t) < NMax(|t|)
            && PutEntry(t, 5)[..12] == [0, 0, 0, 1, 1, 2, 3, 4, 0, 0, 0, 5]
            && PutEntry(t, 5)[12..] == b[12..]
  {
    NewTrunkOk(b, 0x0102_0304);
    var t := NewTrunk(b, 0x0102_0304);
    assert NFree(t) == 0;
    TrunkBytes(b, t, PutEntry(t, 5));
  }

  lemma TrunkBytes(b: Bytes, t: Bytes, r: Bytes)
    requires |b| >= 12 && t == PutU32(PutU32(b, 0, 0), 4, 0x0102_0304) && r == PutU32(PutU32(t, 8, 5), 0, 1)
    ensures r[..12] == [0, 0, 0, 1, 1, 2, 3, 4, 0, 0, 0, 5] && r[12..] == b[12..]
  {
    assert t[4..8] == [1, 2, 3, 4];
    assert PutU32(t, 8, 5)[4..12] == [1, 2, 3, 4, 0, 0, 0, 5];
    assert r[..4] == [0, 0, 0, 1] && r[4..12] == [1, 2, 3, 4, 0, 0, 0, 5];
    assert r[..12] == r[..4] + r[4..12];
  }

  // ---- A chain of trunks, the last of ts in front

  function Head(ts: seq<nat>): nat {
    if ts == [] then 0 else ts[|ts| - 1]
  }

  // Every trunk links to the one behind it, and all but the first are full.
  ghost predicate Chain(pg: Pages, ts: seq<nat>, pgsz: nat) {
    forall i | 0 <= i < |ts| :: LinkOk(pg, ts, i, pgsz)
  }

  ghost predicate LinkOk(pg: Pages, ts: seq<nat>, i: nat, pgsz: nat)
    requires i < |ts|
  {
    && 0 < ts[i] < U32
    && ts[i] in pg && TrunkOk(pg[ts[i]], pgsz)
    && Next(pg[ts[i]]) == Head(ts[..i])
    && (i < |ts| - 1 ==> NFree(pg[ts[i]]) == NMax(pgsz))
  }

  // The numbers on a list, the next to be taken last. On the page list each
  // trunk is itself a free page, below its entries.
  ghost function Stack(pg: Pages, ts: seq<nat>, pgsz: nat, trunks: bool): seq<nat>
    requires Chain(pg, ts, pgsz)
  {
    if ts == [] then []
    else
      assert LinkOk(pg, ts, |ts| - 1, pgsz);
      ChainInit(pg, ts, pgsz);
      Stack(pg, ts[..|ts| - 1], pgsz, trunks) + (if trunks then [Head(ts)] else []) + Entries(pg[Head(ts)])
  }

  lemma ChainInit(pg: Pages, ts: seq<nat>, pgsz: nat)
    requires Chain(pg, ts, pgsz) && ts != []
    ensures Chain(pg, ts[..|ts| - 1], pgsz)
  {
    var us := ts[..|ts| - 1];
    forall i | 0 <= i < |us|
      ensures LinkOk(pg, us, i, pgsz)
    {
      assert LinkOk(pg, ts, i, pgsz);
      assert us[..i] == ts[..i];
    }
  }

  lemma HeadOk(pg: Pages, ts: seq<nat>, pgsz: nat)
    requires Chain(pg, ts, pgsz) && ts != []
    ensures var t := Head(ts);
            0 < t < U32 && t in pg && TrunkOk(pg[t], pgsz) && Next(pg[t]) == Head(ts[..|ts| - 1])
  {
    assert LinkOk(pg, ts, |ts| - 1, pgsz);
  }

  // A list depends on its trunk pages only.
  lemma {:induction false} StackFrame(pg: Pages, pg': Pages, ts: seq<nat>, pgsz: nat, trunks: bool)
    requires Chain(pg, ts, pgsz)
    requires forall t | t in ts && t in pg :: t in pg' && pg'[t] == pg[t]
    ensures Chain(pg', ts, pgsz) && Stack(pg', ts, pgsz, trunks) == Stack(pg, ts, pgsz, trunks)
  {
    forall i | 0 <= i < |ts|
      ensures LinkOk(pg', ts, i, pgsz)
    {
      assert LinkOk(pg, ts, i, pgsz) && ts[i] in ts;
    }
    if ts != [] {
      HeadOk(pg, ts, pgsz);
      assert Head(ts) in ts;
      ChainInit(pg, ts, pgsz);
      StackFrame(pg, pg', ts[..|ts| - 1], pgsz, trunks);
    }
  }

  // Rewriting the head trunk, link and fields apart from count and entries kept.
  lemma HeadRewritten(pg: Pages, ts: seq<nat>, pgsz: nat, b: Bytes, trunks: bool)
    requires Chain(pg, ts, pgsz) && NoDup(ts) && ts != []
    requires Head(ts) in pg && |pg[Head(ts)]| >= 12
    requires TrunkOk(b, pgsz) && Next(b) == Next(pg[Head(ts)])
    ensures var pg' := pg[Head(ts) := b];
            && Chain(pg', ts, pgsz) && Chain(pg, ts[..|ts| - 1], pgsz)
            && Stack(pg', ts, pgsz, trunks) ==
               Stack(pg, ts[..|ts| - 1], pgsz, trunks) + (if trunks then [Head(ts)] else []) + Entries(b)
  {
    var us := ts[..|ts| - 1];
    var pg' := pg[Head(ts) := b];
    HeadOk(pg, ts, pgsz);
    ChainInit(pg, ts, pgsz);
    StackFrame(pg, pg', us, pgsz, trunks);
    forall i | 0 <= i < |ts|
      ensures LinkOk(pg', ts, i, pgsz)
    {
      assert LinkOk(pg, ts, i, pgsz);
      if i < |us| {
        assert LinkOk(pg', us, i, pgsz) && us[..i] == ts[..i];
      }
    }
  }

  lemma AddEntry(pg: Pages, ts: seq<nat>, pgsz: nat, v: nat, trunks: bool)
    requires Chain(pg, ts, pgsz) && NoDup(ts) && ts != [] && v < U32
    requires Head(ts) in pg && TrunkOk(pg[Head(ts)], pgsz) && NFree(pg[Head(ts)]) < NMax(pgsz)
    ensures var pg' := pg[Head(ts) := PutEntry(pg[Head(ts)], v)];
            Chain(pg', ts, pgsz) && Stack(pg', ts, pgsz, trunks) == Stack(pg, ts, pgsz, trunks) + [v]
  {
    HeadOk(pg, ts, pgsz);
    PutEntryOk(pg[Head(ts)], v);
    HeadRewritten(pg, ts, pgsz, PutEntry(pg[Head(ts)], v), trunks);
  }

  lemma TakeEntry(pg: Pages, ts: seq<nat>, pgsz: nat, trunks: bool)
    requires Chain(pg, ts, pgsz) && NoDup(ts) && ts != []
    requires Head(ts) in pg && TrunkOk(pg[Head(ts)], pgsz) && NFree(pg[Head(ts)]) > 0
    ensures var b := pg[Head(ts)];
            var pg' := pg[Head(ts) := DropEntry(b)];
            && Chain(pg', ts, pgsz)
            && Stack(pg, ts, pgsz, trunks) ==
               Stack(pg', ts, pgsz, trunks) + [GetU32(b, 8 + 4 * (NFree(b) - 1))]
  {
    HeadOk(pg, ts, pgsz);
    var b := pg[Head(ts)];
    DropEntryOk(b);
    HeadRewritten(pg, ts, pgsz, DropEntry(b), trunks);
    assert Entries(b) == Entries(b)[..NFree(b) - 1] + [Entries(b)[NFree(b) - 1]];
  }

  lemma AddTrunk(pg: Pages, ts: seq<nat>, pgsz: nat, t: nat, trunks: bool)
    requires Chain(pg, ts, pgsz) && t !in ts && 0 < t < U32
    requires t in pg && |pg[t]| == pgsz && 12 <= pgsz < U32
    requires ts != [] ==> Head(ts) in pg && |pg[Head(ts)]| >= 12 && NFree(pg[Head(ts)]) == NMax(pgsz)
    ensures Head(ts) < U32
    ensures var pg' := pg[t := NewTrunk(pg[t], Head(ts))];
            && Chain(pg', ts + [t], pgsz)
            && Stack(pg', ts + [t], pgsz, trunks) == Stack(pg, ts, pgsz, trunks) + (if trunks then [t] else [])
  {
    if ts != [] {
      HeadOk(pg, ts, pgsz);
    }
    NewTrunkOk(pg[t], Head(ts));
    var b := NewTrunk(pg[t], Head(ts));
    var pg' := pg[t := b];
    var us := ts + [t];
    StackFrame(pg, pg', ts, pgsz, trunks);
    forall i | 0 <= i < |us|
      ensures LinkOk(pg', us, i, pgsz)
    {
      if i < |ts| {
        assert LinkOk(pg', ts, i, pgsz) && us[..i] == ts[..i];
      } else {
        assert us[..i] == ts;
      }
    }
    assert us[..|us| - 1] == ts;
  }

  // An empty head trunk leaves the chain; the one behind it is full.
  lemma TakeTrunk(pg: Pages, ts: seq<nat>, pgsz: nat, trunks: bool)
    requires Chain(pg, ts, pgsz) && ts != []
    requires Head(ts) in pg && |pg[Head(ts)]| >= 12 && NFree(pg[Head(ts)]) == 0
    ensures var us := ts[..|ts| - 1];
            && Chain(pg, us, pgsz) && Next(pg[Head(ts)]) == Head(us)
            && Stack(pg, ts, pgsz, trunks) == Stack(pg, us, pgsz, trunks) + (if trunks then [Head(ts)] else [])
            && (us != [] ==> Head(us) in pg && TrunkOk(pg[Head(us)], pgsz) && NFree(pg[Head(us)]) == NMax(pgsz) > 0)
  {
    HeadOk(pg, ts, pgsz);
    ChainInit(pg, ts, pgsz);
    assert |ts| > 1 ==> LinkOk(pg, ts, |ts| - 2, pgsz);
    assert Entries(pg[Head(ts)]) == [];
  }

  lemma {:induction false} TrunksOnStack(pg: Pages, ts: seq<nat>, pgsz: nat)
    requires Chain(pg, ts, pgsz)
    ensures forall t | t in ts :: t in Stack(pg, ts, pgsz, true)
  {
    if ts != [] {
      HeadOk(pg, ts, pgsz);
      ChainInit(pg, ts, pgsz);
      TrunksOnStack(pg, ts[..|ts| - 1], pgsz);
      forall t | t in ts
        ensures t in Stack(pg, ts, pgsz, true)
      {
        if t != Head(ts) {
          assert t in ts[..|ts| - 1];
        }
      }
    }
  }

  // All trunks but the first are full, so the number of entries tells how full
  // the first one is.
  lemma {:induction false} StackSize(pg: Pages, ts: seq<nat>, pgsz: nat)
    requires Chain(pg, ts, pgsz) && ts != []
    ensures Head(ts) in pg && |pg[Head(ts)]| >= 12
    ensures |Stack(pg, ts, pgsz, false)| == (|ts| - 1) * NMax(pgsz) + NFree(pg[Head(ts)])
  {
    HeadOk(pg, ts, pgsz);
    ChainInit(pg, ts, pgsz);
    if |ts| > 1 {
      assert LinkOk(pg, ts, |ts| - 2, pgsz);
      StackSize(pg, ts[..|ts| - 1], pgsz);
      assert (|ts| - 1) * NMax(pgsz) == (|ts| - 2) * NMax(pgsz) + NMax(pgsz);
    } else {
      assert Stack(pg, ts[..0], pgsz, false) == [];
    }
  }
}

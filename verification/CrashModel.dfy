// A simulated power failure (lsmtest_tdb3.c): the file wrappers keep, for each
// sector written since the last sync, what it held before, and a crash leaves
// in each such sector the new bytes, the old ones, or garbage.

module CrashModel {
  import opened Division
  import opened PageTypes

  // A file of unlimited length, reading as zeros past its end.
  type File = nat -> byte

  function Sector(f: File, sz: nat, s: nat): (r: Bytes)
    ensures |r| == sz
  {
    seq(sz, (i: nat) => f(s * sz + i))
  }

  // xWrite.
  function Overwrite(f: File, off: nat, data: Bytes): File {
    (k: nat) => if off <= k < off + |data| then data[k - off] else f(k)
  }

  predicate NotBefore(sz: nat, off: nat, s: nat)
    requires sz > 0
  {
    off / sz <= s
  }

  // The sectors a write of n bytes at `off` touches.
  function Touched(sz: nat, off: nat, n: nat): set<nat>
    requires sz > 0 && n > 0
  {
    set s: nat | s <= (off + n - 1) / sz && NotBefore(sz, off, s)
  }

  predicate InSector(sz: nat, k: nat, s: nat) {
    s * sz <= k < s * sz + sz
  }

  // Exactly the sectors that hold a byte of the write.
  lemma TouchedIff(sz: nat, off: nat, n: nat, s: nat)
    requires sz > 0 && n > 0
    ensures s in Touched(sz, off, n) <==> exists k: nat | off <= k < off + n :: InSector(sz, k, s)
  {
    MulCommutes(s, sz);
    MulNext(s, sz);
    MulCommutes(s + 1, sz);
    FloorOrder(sz, s, off + n - 1);
    FloorOrder(sz, s + 1, off);
    if s in Touched(sz, off, n) {
      assert InSector(sz, if off < s * sz then s * sz else off, s);
    }
  }

  lemma UntouchedSector(f: File, sz: nat, off: nat, data: Bytes, s: nat)
    requires sz > 0 && |data| > 0 && s !in Touched(sz, off, |data|)
    ensures Sector(Overwrite(f, off, data), sz, s) == Sector(f, sz, s)
  {
    OutsideRange(sz, off, |data|, s);
    var was, now := Sector(f, sz, s), Sector(Overwrite(f, off, data), sz, s);
    assert forall i | 0 <= i < sz :: now[i] == was[i];
  }

  lemma OutsideRange(sz: nat, off: nat, n: nat, s: nat)
    requires sz > 0 && n > 0 && s !in Touched(sz, off, n)
    ensures s * sz + sz <= off || off + n <= s * sz
  {
    MulCommutes(s, sz);
    MulNext(s, sz);
    MulCommutes(s + 1, sz);
    FloorOrder(sz, s, off + n - 1);
    FloorOrder(sz, s + 1, off);
  }

  lemma SectorWritten(f: File, sz: nat, data: Bytes, s: nat, t: nat)
    requires sz > 0 && |data| == sz
    ensures Sector(Overwrite(f, s * sz, data), sz, t) == if t == s then data else Sector(f, sz, t)
  {
    if t == s {
      assert Sector(Overwrite(f, s * sz, data), sz, t) == data;
    } else {
      if t < s {
        MulNext(t, sz);
        MulGrows(t + 1, s, sz);
      } else {
        MulNext(s, sz);
        MulGrows(s + 1, t, sz);
      }
      assert Sector(Overwrite(f, s * sz, data), sz, t) == Sector(f, sz, t);
    }
  }

  // ---- Histories

  datatype Op = Write(off: nat, data: Bytes) | Sync

  // A file after some operations: its bytes, those of its last sync, and the
  // sectors written since.
  datatype History = History(disk: File, synced: File, written: set<nat>)

  predicate OpOk(op: Op) {
    op.Write? ==> |op.data| > 0
  }

  function After(h: History, sz: nat, op: Op): History
    requires sz > 0 && OpOk(op)
  {
    match op
    case Write(off, data) => History(Overwrite(h.disk, off, data), h.synced, h.written + Touched(sz, off, |data|))
    case Sync => History(h.disk, h.disk, {})
  }

  // testPrngArray over an old image: whole words only.
  function Garble(old_: Bytes, words: Bytes): (r: Bytes)
    ensures |r| == |old_|
    ensures forall i | 0 <= i < |r| && i >= |r| - |r| % 4 :: r[i] == old_[i]
    ensures |words| >= |r| - |r| % 4 ==> forall i | 0 <= i < |r| - |r| % 4 :: r[i] == words[i]
  {
    seq(|old_|, i requires 0 <= i < |old_| => if i < |old_| / 4 * 4 && i < |words| then words[i] else old_[i])
  }

  // The images kept: exactly for the sectors written, and what they last synced.
  ghost predicate Tracks(h: History, sz: nat, aOld: seq<Image>)
    requires sz > 0
  {
    forall s: nat ::
      && (s in h.written <==> s < |aOld| && aOld[s].Old?)
      && (s in h.written ==> aOld[s].data == Sector(h.synced, sz, s))
      && (s !in h.written ==> Sector(h.disk, sz, s) == Sector(h.synced, sz, s))
  }

  // FileSector.aOld: absent, or szSector bytes.
  datatype Image = Nothing | Old(data: Bytes)

  // What a crash may leave in a sector.
  ghost predicate Survives(h: History, sz: nat, after: File, s: nat, g: Prng) {
    if s !in h.written then Sector(after, sz, s) == Sector(h.synced, sz, s)
    else
      || Sector(after, sz, s) == Sector(h.disk, sz, s)
      || Sector(after, sz, s) == Sector(h.synced, sz, s)
      || exists seed: nat :: Sector(after, sz, s) == Garble(Sector(h.synced, sz, s), g.words(seed, sz / 4))
  }

  // What the crash leaves in a sector, given the seed it comes to it with: the
  // random value picks the new bytes, garbage over the old ones, or the old ones.
  ghost predicate Outcome(h: History, sz: nat, after: File, s: nat, seed: nat, g: Prng) {
    Sector(after, sz, s) ==
    if s !in h.written || g.value(seed) % 3 == 0 then Sector(h.disk, sz, s)
    else if g.value(seed) % 3 == 1 then Garble(Sector(h.synced, sz, s), g.words(seed + 1, sz / 4))
    else Sector(h.synced, sz, s)
  }

  // The seed with which the crash comes to sector s of a file: each sector
  // written before it used one, or two for garbage.
  function SeedAt(g: Prng, written: set<nat>, seed: nat, s: nat): nat {
    if s == 0 then seed
    else
      var t := SeedAt(g, written, seed, s - 1);
      if s - 1 !in written then t else if g.value(t) % 3 == 1 then t + 2 else t + 1
  }

  ghost predicate Outcomes(h: History, sz: nat, after: File, seed: nat, g: Prng) {
    forall s: nat :: Outcome(h, sz, after, s, SeedAt(g, h.written, seed, s), g)
  }

  // If all random values are multiples of 3 the crash changes nothing; if all
  // leave 2 the file is as last synced.
  lemma OutcomesExtreme(h: History, sz: nat, after: File, seed: nat, g: Prng)
    requires Outcomes(h, sz, after, seed, g)
    requires forall s: nat | s !in h.written :: Sector(h.disk, sz, s) == Sector(h.synced, sz, s)
    ensures (forall t: nat :: g.value(t) % 3 == 0) ==> forall s: nat :: Sector(after, sz, s) == Sector(h.disk, sz, s)
    ensures (forall t: nat :: g.value(t) % 3 == 2) ==> forall s: nat :: Sector(after, sz, s) == Sector(h.synced, sz, s)
  {
    hide Sector, SeedAt;
    forall s: nat
      ensures Outcome(h, sz, after, s, SeedAt(g, h.written, seed, s), g)
      ensures (forall t: nat :: g.value(t) % 3 == 0) ==> Sector(after, sz, s) == Sector(h.disk, sz, s)
      ensures (forall t: nat :: g.value(t) % 3 == 2) ==> Sector(after, sz, s) == Sector(h.synced, sz, s)
    {
    }
  }

  lemma OutcomeSurvives(h: History, sz: nat, after: File, s: nat, seed: nat, g: Prng)
    requires Outcome(h, sz, after, s, seed, g)
    requires s !in h.written ==> Sector(h.disk, sz, s) == Sector(h.synced, sz, s)
    ensures Survives(h, sz, after, s, g)
  {
    hide Sector;
  }

  // testPrngValue and testPrngArray.
  datatype Prng = Prng(value: nat -> nat, words: (nat, nat) -> Bytes)

  // ---- Runs over the database file and the log file

  datatype Call = Call(bLog: bool, op: Op)

  predicate CallsOk(calls: seq<Call>) {
    forall c | c in calls :: OpOk(c.op)
  }

  // One file after the calls made on it.
  function Replay(h: History, sz: nat, calls: seq<Call>, bLog: bool): History
    requires sz > 0 && CallsOk(calls)
  {
    if calls == [] then h
    else
      var n := |calls| - 1;
      var before := Replay(h, sz, calls[..n], bLog);
      if calls[n].bLog == bLog then After(before, sz, calls[n].op) else before
  }

  function Syncs(calls: seq<Call>): nat {
    if calls == [] then 0
    else Syncs(calls[..|calls|-1]) + if calls[|calls|-1].op.Sync? then 1 else 0
  }

  lemma {:induction false} SyncsGrow(calls: seq<Call>, n: nat)
    requires n <= |calls|
    ensures Syncs(calls[..n]) <= Syncs(calls)
  {
    if n < |calls| {
      SyncsGrow(calls[..|calls|-1], n);
      assert calls[..|calls|-1][..n] == calls[..n];
    } else {
      assert calls[..n] == calls;
    }
  }

  // A sector no call has written since a sync of its file is not among those a
  // crash may change, and the bytes it keeps are those of that sync.
  lemma {:induction false} QuietSinceSync(h: History, sz: nat, calls: seq<Call>, b: bool, j: nat, s: nat)
    requires sz > 0 && CallsOk(calls)
    requires j < |calls| && calls[j] == Call(b, Sync)
    requires forall i | j < i < |calls| && calls[i].bLog == b && calls[i].op.Write? ::
               OpOk(calls[i].op) ==> s !in Touched(sz, calls[i].op.off, |calls[i].op.data|)
    ensures s !in Replay(h, sz, calls, b).written
    ensures Sector(Replay(h, sz, calls, b).disk, sz, s) == Sector(Replay(h, sz, calls[..j], b).disk, sz, s)
    ensures Sector(Replay(h, sz, calls, b).synced, sz, s) == Sector(Replay(h, sz, calls[..j], b).disk, sz, s)
  {
    hide Touched, Overwrite, Sector;
    var n := |calls| - 1;
    var front := calls[..n];
    assert OpOk(calls[n].op);
    if j < n {
      assert front[..j] == calls[..j];
      QuietSinceSync(h, sz, front, b, j, s);
      if calls[n].bLog == b && calls[n].op.Write? {
        UntouchedSector(Replay(h, sz, front, b).disk, sz, calls[n].op.off, calls[n].op.data, s);
      }
    }
  }
}

// The file wrappers of lsmtest_tdb3.c with crash preparation on.

module CrashEnv {
  import opened CrashModel
  import opened PageTypes

  // One of LsmDb.aFile[], with the file it belongs to.
  class FileData {
    const sz: nat
    var disk: File
    var aSector: seq<Image>
    ghost var h: History

    ghost predicate Valid()
      reads this
    {
      sz > 0 && h.disk == disk && Tracks(h, sz, aSector)
    }

    constructor (sz: nat, disk: File)
      requires sz > 0
      ensures Valid() && this.sz == sz && h == History(disk, disk, {})
    {
      this.sz := sz;
      this.disk := disk;
      aSector := [];
      h := History(disk, disk, {});
    }

    // Make room for sector iLast, in steps of 64 sectors.
    method Grow(iLast: nat)
      modifies `aSector
      ensures |aSector| > iLast
      ensures if |old(aSector)| > iLast then |aSector| == |old(aSector)| else |aSector| % 64 == 0 && |aSector| <= iLast + 64
      ensures forall s: nat | s < |aSector| :: aSector[s] == if s < |old(aSector)| then old(aSector)[s] else Nothing
    {
      if |aSector| < iLast + 1 {
        var nNew := ((iLast + 1 + 63) / 64) * 64;
        assert nNew > iLast;
        aSector := aSector + seq(nNew - |aSector|, _ => Nothing);
      }
    }

    // Save sectors iFirst to iLast, unless they are saved already.
    method SaveRange(iFirst: nat, iLast: nat)
      requires iLast < |aSector|
      modifies `aSector
      ensures |aSector| == |old(aSector)|
      ensures forall s: nat | s < |aSector| ::
                aSector[s] == if iFirst <= s <= iLast && old(aSector)[s].Nothing? then Old(Sector(disk, sz, s)) else old(aSector)[s]
    {
      hide Sector;
      var iSector := iFirst;
      while iSector <= iLast
        invariant iFirst <= iSector && (iFirst <= iLast ==> iSector <= iLast + 1)
        invariant |aSector| == |old(aSector)|
        invariant forall s: nat | s < |aSector| ::
                    aSector[s] == if iFirst <= s < iSector && old(aSector)[s].Nothing? then Old(Sector(disk, sz, s)) else old(aSector)[s]
        invariant iFirst > iLast ==> aSector == old(aSector) && iSector == iFirst
        decreases iLast + 1 - iSector
      {
        if aSector[iSector].Nothing? {
          aSector := aSector[iSector := Old(Sector(disk, sz, iSector))];
        }
        iSector := iSector + 1;
      }
    }

    // The part of testEnvWrite that prepares for a crash.
    method SaveSectors(iOff: nat, nData: nat)
      requires sz > 0 && nData > 0
      modifies `aSector
      ensures |aSector| >= |old(aSector)| && (forall s | s in Touched(sz, iOff, nData) :: s < |aSector|)
      ensures forall s: nat | s < |aSector| ::
                var was := if s < |old(aSector)| then old(aSector)[s] else Nothing;
                aSector[s] == if s in Touched(sz, iOff, nData) && was.Nothing? then Old(Sector(disk, sz, s)) else was
    {
      hide Sector;
      var iFirst := iOff / sz;
      var iLast := (iOff + nData - 1) / sz;
      Grow(iLast);
      SaveRange(iFirst, iLast);
    }

    // testEnvWrite.
    method Write(iOff: nat, data: Bytes)
      requires Valid() && |data| > 0
      modifies this
      ensures Valid() && h == After(old(h), sz, CrashModel.Write(iOff, data))
    {
      SaveSectors(iOff, |data|);
      disk := Overwrite(disk, iOff, data);
      h := After(h, sz, CrashModel.Write(iOff, data));
      forall s: nat | s !in h.written ensures Sector(disk, sz, s) == Sector(h.synced, sz, s) {
        UntouchedSector(old(disk), sz, iOff, data, s);
      }
    }

    // The part of testEnvSync that follows the crash countdown.
    method SyncFile()
      requires Valid()
      modifies this
      ensures Valid() && h == After(old(h), sz, Sync)
    {
      for i := 0 to |aSector|
        invariant |aSector| == |old(aSector)| && disk == old(disk) && h == old(h)
        invariant forall j | 0 <= j < i :: aSector[j].Nothing?
      {
        aSector := aSector[i := Nothing];
      }
      h := After(h, sz, Sync);
    }

    // One sector of doSystemCrash: leave the new bytes, put back the old ones, or
    // put back the old ones overwritten with garbage.
    method CrashSector(i: nat, seed: nat, g: Prng) returns (iSeed: nat)
      requires sz > 0 && Sector(disk, sz, i) == Sector(h.disk, sz, i)
      requires i < |aSector| && aSector[i].Old? && aSector[i].data == Sector(h.synced, sz, i)
      requires i in h.written
      modifies `disk, `aSector
      ensures Outcome(h, sz, disk, i, seed, g)
      ensures iSeed == if g.value(seed) % 3 == 1 then seed + 2 else seed + 1
      ensures forall s: nat | s != i :: Sector(disk, sz, s) == Sector(old(disk), sz, s)
      ensures aSector == old(aSector)[i := Nothing]
    {
      var aOld := aSector[i].data;
      var iOpt := g.value(seed) % 3;
      iSeed := seed + 1;
      if iOpt == 1 {
        aOld := Garble(aOld, g.words(iSeed, sz / 4));
        iSeed := iSeed + 1;
      }
      if iOpt != 0 {
        disk := Overwrite(disk, i * sz, aOld);
        forall s: nat ensures Sector(disk, sz, s) == if s == i then aOld else Sector(old(disk), sz, s) {
          SectorWritten(old(disk), sz, aOld, i, s);
        }
      }
      aSector := aSector[i := Nothing];
    }

    // One file of doSystemCrash. Returns the next seed.
    method Crash(seed: nat, g: Prng) returns (iSeed: nat)
      requires Valid()
      modifies `disk, `aSector
      ensures Outcomes(h, sz, disk, seed, g)
      ensures forall s: nat :: Survives(h, sz, disk, s, g)
      ensures iSeed == SeedAt(g, h.written, seed, |old(aSector)|)
      ensures |aSector| == |old(aSector)| && forall s: nat | s < |aSector| :: aSector[s].Nothing?
    {
      hide Survives, Outcome, OutcomesBelow, Sector;
      iSeed := seed;
      NoneBelow(h, sz, disk, seed, g);
      for i := 0 to |aSector|
        invariant |aSector| == |old(aSector)|
        invariant iSeed == SeedAt(g, h.written, seed, i)
        invariant forall s: nat | s < i :: aSector[s].Nothing?
        invariant forall s: nat | i <= s < |aSector| :: aSector[s] == old(aSector)[s]
        invariant OutcomesBelow(h, sz, disk, seed, g, i)
        invariant forall s: nat | i <= s :: Sector(disk, sz, s) == Sector(old(disk), sz, s)
      {
        ghost var was := disk;
        if aSector[i].Old? {
          iSeed := CrashSector(i, iSeed, g);
        }
        NextBelow(h, sz, was, disk, seed, g, i);
      }
      AllBelow(h, sz, disk, seed, g, |aSector|);
    }
  }

  // The sectors below i, and those not written, are as the crash leaves them.
  ghost predicate OutcomesBelow(h: History, sz: nat, disk: File, seed: nat, g: Prng, i: nat) {
    forall s: nat | s < i || s !in h.written :: Outcome(h, sz, disk, s, SeedAt(g, h.written, seed, s), g)
  }

  lemma NoneBelow(h: History, sz: nat, disk: File, seed: nat, g: Prng)
    requires forall s: nat | s !in h.written :: Sector(disk, sz, s) == Sector(h.disk, sz, s)
    ensures OutcomesBelow(h, sz, disk, seed, g, 0)
  {
    hide Sector, SeedAt;
  }

  lemma NextBelow(h: History, sz: nat, was: File, disk: File, seed: nat, g: Prng, i: nat)
    requires OutcomesBelow(h, sz, was, seed, g, i)
    requires forall s: nat | s != i :: Sector(disk, sz, s) == Sector(was, sz, s)
    requires if i in h.written then Outcome(h, sz, disk, i, SeedAt(g, h.written, seed, i), g) else disk == was
    ensures OutcomesBelow(h, sz, disk, seed, g, i + 1)
  {
    hide Sector, SeedAt;
  }

  lemma AllBelow(h: History, sz: nat, disk: File, seed: nat, g: Prng, n: nat)
    requires OutcomesBelow(h, sz, disk, seed, g, n) && forall s: nat | s in h.written :: s < n
    requires forall s: nat | s !in h.written :: Sector(h.disk, sz, s) == Sector(h.synced, sz, s)
    ensures Outcomes(h, sz, disk, seed, g)
    ensures forall s: nat :: Survives(h, sz, disk, s, g)
  {
    hide Sector, SeedAt, Outcome, Survives;
    forall s: nat
      ensures Outcome(h, sz, disk, s, SeedAt(g, h.written, seed, s), g) && Survives(h, sz, disk, s, g)
    {
      OutcomeSurvives(h, sz, disk, s, SeedAt(g, h.written, seed, s), g);
    }
  }

  // struct LsmDb, as far as crashes go; bPrepareCrash is set throughout.
  class LsmDb {
    const aDb: FileData
    const aLog: FileData
    const g: Prng
    var nAutoCrash: nat
    var bCrashed: bool

    constructor (aDb: FileData, aLog: FileData, g: Prng, nAutoCrash: nat)
      requires aDb != aLog && aDb.Valid() && aLog.Valid()
      ensures this.aDb == aDb && this.aLog == aLog && this.nAutoCrash == nAutoCrash && !bCrashed && Valid()
    {
      this.aDb, this.aLog, this.g, this.nAutoCrash := aDb, aLog, g, nAutoCrash;
      bCrashed := false;
    }

    ghost predicate Valid()
      reads this, aDb, aLog
    {
      aDb != aLog && (!bCrashed ==> aDb.Valid() && aLog.Valid())
    }

    function File(bLog: bool): FileData {
      if bLog then aLog else aDb
    }

    // After a crash of both files: each sector of each file, given its history.
    ghost predicate Crashed(hDb: History, hLog: History)
      reads aDb, aLog
    {
      && (forall s: nat :: Survives(hDb, aDb.sz, aDb.disk, s, g))
      && (forall s: nat :: Survives(hLog, aLog.sz, aLog.disk, s, g))
    }

    // doSystemCrash.
    method SystemCrash()
      requires Valid() && !bCrashed
      modifies aDb, aLog
      ensures aDb.h == old(aDb.h) && aLog.h == old(aLog.h)
      ensures Crashed(aDb.h, aLog.h)
      ensures var seed := |old(aDb.aSector)| + |old(aLog.aSector)|;
              && Outcomes(aDb.h, aDb.sz, aDb.disk, seed, g)
              && Outcomes(aLog.h, aLog.sz, aLog.disk, SeedAt(g, aDb.h.written, seed, |old(aDb.aSector)|), g)
    {
      hide Survives, Outcomes;
      var iSeed := |aDb.aSector| + |aLog.aSector|;
      iSeed := aDb.Crash(iSeed, g);
      iSeed := aLog.Crash(iSeed, g);
    }

    // testEnvWrite. Returns whether it went through.
    method EnvWrite(bLog: bool, iOff: nat, data: Bytes) returns (ok: bool)
      requires Valid() && |data| > 0
      modifies aDb, aLog
      ensures Valid() && ok == !bCrashed
      ensures ok ==> File(bLog).h == After(old(File(bLog).h), File(bLog).sz, Write(iOff, data))
      ensures ok ==> File(!bLog).h == old(File(!bLog).h)
      ensures !ok ==> unchanged(aDb) && unchanged(aLog)
    {
      if bCrashed {
        return false;
      }
      File(bLog).Write(iOff, data);
      return true;
    }

    // testEnvSync. The nAutoCrash-th sync crashes instead.
    method EnvSync(bLog: bool) returns (ok: bool)
      requires Valid()
      modifies this`nAutoCrash, this`bCrashed, aDb, aLog
      ensures Valid() && ok == !bCrashed
      ensures old(bCrashed) ==> bCrashed && unchanged(this) && unchanged(aDb) && unchanged(aLog)
      ensures !old(bCrashed) ==> (bCrashed <==> old(nAutoCrash) == 1)
      ensures !old(bCrashed) ==> nAutoCrash == if old(nAutoCrash) > 0 then old(nAutoCrash) - 1 else 0
      ensures ok ==> File(bLog).h == After(old(File(bLog).h), File(bLog).sz, Sync)
      ensures ok ==> File(!bLog).h == old(File(!bLog).h)
      ensures bCrashed && !old(bCrashed) ==> Crashed(old(aDb.h), old(aLog.h))
    {
      hide Survives;
      if bCrashed {
        return false;
      }
      if nAutoCrash > 0 {
        nAutoCrash := nAutoCrash - 1;
        if nAutoCrash == 0 {
          SystemCrash();
          bCrashed := true;
          return false;
        }
      }
      File(bLog).SyncFile();
      return true;
    }

    // Any sequence of writes and syncs, up to the crash if there is one: n calls
    // went through. A crash happens at exactly the nAutoCrash-th sync, and leaves
    // both files as the calls before it allow.
    method Run(calls: seq<Call>) returns (n: nat)
      requires Valid() && !bCrashed && CallsOk(calls)
      modifies this`nAutoCrash, this`bCrashed, aDb, aLog
      ensures n <= |calls|
      ensures !bCrashed ==> n == |calls| && Valid()
      ensures !bCrashed ==> forall b: bool :: File(b).h == Replay(old(File(b).h), File(b).sz, calls, b)
      ensures bCrashed ==> n < |calls| && calls[n].op.Sync? && Syncs(calls[..n]) == old(nAutoCrash) - 1
      ensures bCrashed ==> Crashed(Replay(old(aDb.h), aDb.sz, calls[..n], false),
                                   Replay(old(aLog.h), aLog.sz, calls[..n], true))
      ensures bCrashed <==> 0 < old(nAutoCrash) <= Syncs(calls)
    {
      hide Survives, Touched, Overwrite;
      n := 0;
      while n < |calls|
        invariant n <= |calls| && Valid() && !bCrashed
        invariant aDb.h == Replay(old(aDb.h), aDb.sz, calls[..n], false)
        invariant aLog.h == Replay(old(aLog.h), aLog.sz, calls[..n], true)
        invariant old(nAutoCrash) > 0 ==> nAutoCrash > 0 && nAutoCrash + Syncs(calls[..n]) == old(nAutoCrash)
        invariant old(nAutoCrash) == 0 ==> nAutoCrash == 0
      {
        var c := calls[n];
        assert calls[..n+1][..n] == calls[..n];
        var ok;
        match c.op {
          case Write(off, data) =>
            assert OpOk(c.op);
            ok := EnvWrite(c.bLog, off, data);
          case Sync =>
            ok := EnvSync(c.bLog);
        }
        if !ok {
          SyncsGrow(calls, n + 1);
          return;
        }
        n := n + 1;
      }
      assert calls[..n] == calls;
    }
  }
}

// stat3_push() of analyze.c as a procedure on the sample array.

module Stat3Accum {
  import opened Basics
  import opened Sampler

  class Accum {
    const cfg: Cfg
    const a: array<Sample>
    var nSample: nat
    var iMin: nat
    var iPrn: nat

    ghost var lost: multiset<Rank>

    ghost predicate Valid()
      reads this
    {
      && cfg.nPSample > 0 && a.Length == cfg.mxSample > 0 && nSample <= a.Length
    }

    // The minimum is known once the samples are full.
    ghost predicate MinKnown()
      requires Valid()
      reads this, a
    {
      nSample == a.Length ==> iMin < nSample && iMin == MinIdx(a[..nSample])
    }

    ghost function Value(): St
      requires Valid()
      reads this, a
    {
      St(a[..nSample], lost, iPrn)
    }

    // stat3_init()
    constructor (nRow: nat, mxSample: nat, prn: nat)
      requires mxSample > 0
      ensures Valid() && MinKnown() && fresh(a)
      ensures cfg == Init(nRow, mxSample) && Value() == Run(cfg, prn, [])
    {
      cfg := Init(nRow, mxSample);
      a := new Sample[mxSample](_ => Sample([], 0, 0, 0, false, 0));
      nSample, iMin, iPrn, lost := 0, 0, prn, multiset{};
    }

    // stat3_push(). The caller guarantees that some sample is not periodic
    // when the array is full; see PeriodicsKept.
    method Push(g: Group)
      requires Valid() && MinKnown()
      requires var s := Sampler.Push(cfg, Value(), g); |s.a| == cfg.mxSample ==> MinIdx(s.a) >= 0
      modifies this, a
      ensures Valid() && MinKnown()
      ensures Value() == Sampler.Push(cfg, old(Value()), g)
    {
      hide MinIdx, Without;
      if g.nEq == 0 {
        return;
      }
      var h := (iPrn * 1103515245 + 12345) % U32;
      iPrn := h;
      var isPSample := g.nLt / cfg.nPSample != (g.nEq + g.nLt) / cfg.nPSample;
      var doInsert;
      if isPSample {
        doInsert := true;
      } else if nSample < cfg.mxSample {
        doInsert := true;
      } else {
        doInsert := g.nEq > a[iMin].nEq || (g.nEq == a[iMin].nEq && h > a[iMin].iHash);
      }
      var x := Sample(g.key, g.nEq, g.nLt, g.nDLt, isPSample, h);
      if !doInsert {
        lost := lost + multiset{RankOf(x)};
        return;
      }
      Insert(x);
    }

    // The part of stat3_push() that makes room, fills the slot, and looks for
    // the new minimum.
    method Insert(x: Sample)
      requires Valid() && MinKnown()
      requires nSample == a.Length ==> x.isPSample || Below(RankOf(a[iMin]), RankOf(x))
      requires var s := Offer(cfg.mxSample, Value(), x); |s.a| == cfg.mxSample ==> MinIdx(s.a) >= 0
      modifies `nSample, `iMin, `lost, a
      ensures Valid() && MinKnown()
      ensures Value() == Offer(cfg.mxSample, old(Value()), x)
    {
      hide MinIdx, Without;
      if nSample == cfg.mxSample {
        lost := lost + multiset{RankOf(a[iMin])};
      }
      Store(x);
      assert Value() == Offer(cfg.mxSample, old(Value()), x);
      if nSample == cfg.mxSample {
        FindMin();
      }
    }

    // Append a sample, in place of the minimum if the array is full.
    method Store(x: Sample)
      requires Valid() && (nSample == a.Length ==> iMin < nSample)
      modifies `nSample, a
      ensures Valid()
      ensures a[..nSample] == old(if nSample < a.Length then a[..nSample] else Without(a[..nSample], iMin)) + [x]
    {
      if nSample == cfg.mxSample {
        CloseGap(iMin);
        a[nSample - 1] := x;
      } else {
        a[nSample] := x;
        nSample := nSample + 1;
      }
    }

    // memmove() of the samples behind k.
    method CloseGap(k: nat)
      requires Valid() && k < nSample
      modifies a
      ensures a[..nSample - 1] == Without(old(a[..nSample]), k)
    {
      var j := k;
      while j < nSample - 1
        invariant k <= j <= nSample - 1
        invariant forall i | 0 <= i < k :: a[i] == old(a[i])
        invariant forall i | k <= i < j :: a[i] == old(a[i + 1])
        invariant forall i | j < i < a.Length :: a[i] == old(a[i])
      {
        a[j] := a[j + 1];
        j := j + 1;
      }
    }

    // The search for the new minimum.
    method FindMin()
      requires Valid() && nSample > 0 && MinIdx(a[..nSample]) >= 0
      modifies `iMin
      ensures iMin == MinIdx(a[..nSample])
    {
      var s := a[..nSample];
      var i := 0;
      assert s[..nSample] == s;
      while a[i].isPSample
        invariant 0 <= i < nSample && MinIdx(s[..i]) == -1
        decreases nSample - i
      {
        assert s[..i + 1][..i] == s[..i];
        i := i + 1;
      }
      assert s[..i + 1][..i] == s[..i];
      var m := i;
      var nEq, h := a[i].nEq, a[i].iHash;
      i := i + 1;
      while i < nSample
        invariant m < i <= nSample && m == MinIdx(s[..i]) && nEq == s[m].nEq && h == s[m].iHash
      {
        assert s[..i + 1][..i] == s[..i];
        if !a[i].isPSample {
          if a[i].nEq < nEq || (a[i].nEq == nEq && a[i].iHash < h) {
            m, nEq, h := i, a[i].nEq, a[i].iHash;
          }
        }
        i := i + 1;
      }
      assert s[..nSample] == s;
      iMin := m;
    }
  }

  // stat3_push() for every group of a scan: the precondition of Push holds
  // each time.
  method Scan(nRow: nat, mxSample: nat, prn: nat, gs: seq<Group>) returns (p: Accum)
    requires mxSample > 0 && Contiguous(gs) && Total(gs) <= nRow
    ensures p.Valid() && p.cfg == Init(nRow, mxSample) && p.Value() == Run(p.cfg, prn, gs)
  {
    p := new Accum(nRow, mxSample, prn);
    var i := 0;
    while i < |gs|
      invariant 0 <= i <= |gs| && fresh(p) && fresh(p.a)
      invariant p.Valid() && p.MinKnown() && p.cfg == Init(nRow, mxSample)
      invariant p.Value() == Run(p.cfg, prn, gs[..i])
    {
      assert gs[..i + 1][..i] == gs[..i];
      ScanPrefix(gs, i + 1);
      PeriodicsKept(nRow, mxSample, prn, gs[..i + 1]);
      p.Push(gs[i]);
      i := i + 1;
    }
    assert gs[..|gs|] == gs;
  }

  lemma {:induction false} ScanPrefix(gs: seq<Group>, n: nat)
    requires Contiguous(gs) && n <= |gs|
    ensures Contiguous(gs[..n]) && Total(gs[..n]) <= Total(gs)
  {
    if n < |gs| {
      ScanPrefix(gs[..|gs| - 1], n);
      assert gs[..|gs| - 1][..n] == gs[..n];
    } else {
      assert gs[..n] == gs;
    }
  }

  // loadStat3: the average frequency of the keys that are not samples, from the
  // samples in table order. The subtraction does not wrap round.
  method AvgEq(a: seq<Sample>, dflt: nat) returns (avgEq: nat)
    requires a != [] && Ordered(a, a[|a| - 1].nLt + a[|a| - 1].nEq)
    ensures var n := |a| - 1;
            && SumEq(a[..n]) <= a[n].nLt && avgEq >= 1
            && (a[n].nDLt > 0 ==> avgEq == (var q := (a[n].nLt - SumEq(a[..n])) / a[n].nDLt; if q == 0 then 1 else q))
            && (a[n].nDLt == 0 ==> avgEq == if dflt == 0 then 1 else dflt)
  {
    var idx := |a| - 1;
    assert Ordered(a[..idx], a[idx].nLt);
    SumBelowLast(a[..idx], a[idx].nLt);
    avgEq := dflt;
    if a[idx].nDLt > 0 {
      var sumEq := 0;
      var i := 0;
      while i <= idx - 1
        invariant 0 <= i <= idx && sumEq == SumEq(a[..i])
      {
        assert a[..i + 1][..i] == a[..i];
        sumEq := sumEq + a[i].nEq;
        i := i + 1;
      }
      avgEq := (a[idx].nLt - sumEq) / a[idx].nDLt;
    }
    if avgEq <= 0 {
      avgEq := 1;
    }
  }
}

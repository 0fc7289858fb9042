// The sampler behind sqlite_stat3 (analyze.c): keep mxSample of the groups of
// equal keys an index scan reports, one pass, bounded memory. Periodic samples
// stay; of the others the most frequent are kept.

module Sampler {
  import opened Basics
  import opened Division

  // One stat3_push: nEq rows with this key, nLt rows and nDLt keys before it.
  datatype Group = Group(nEq: nat, nLt: nat, nDLt: nat, key: seq<nat>)

  // struct Stat3Sample, less its buffer size.
  datatype Sample = Sample(key: seq<nat>, nEq: nat, nLt: nat, nDLt: nat, isPSample: bool, iHash: nat)

  // The rank of a sample: frequency, then a pseudo-random tie-breaker.
  type Rank = (nat, nat)

  function RankOf(x: Sample): Rank {
    (x.nEq, x.iHash)
  }

  predicate Below(r: Rank, q: Rank) {
    r.0 < q.0 || (r.0 == q.0 && r.1 < q.1)
  }

  // ---- What a push does

  // nPSample and mxSample of a Stat3Accum.
  datatype Cfg = Cfg(nPSample: nat, mxSample: nat)

  // stat3Init: how often to take a periodic sample.
  function Period(nRow: nat, mxSample: nat): (p: nat)
    ensures p > 0
  {
    nRow / (mxSample / 3 + 1) + 1
  }

  // The samples in the order of their arrival, the ranks of the non-periodic
  // groups that were turned away or evicted, and the random state.
  datatype St = St(a: seq<Sample>, lost: multiset<Rank>, iPrn: nat)

  function NextPrn(iPrn: nat): nat {
    (iPrn * 1103515245 + 12345) % U32
  }

  predicate IsPeriodic(p: nat, g: Group)
    requires p > 0
  {
    g.nLt / p != (g.nEq + g.nLt) / p
  }

  // The first of the non-periodic samples of least rank, or -1.
  function MinIdx(a: seq<Sample>): (m: int)
    ensures -1 <= m < |a|
  {
    if a == [] then -1
    else
      var n := |a| - 1;
      var m := MinIdx(a[..n]);
      if a[n].isPSample then m
      else if m < 0 || Below(RankOf(a[n]), RankOf(a[m])) then n
      else m
  }

  // A group becomes a sample, if there is room for it, if it is periodic, or if
  // it outranks the least of the samples.
  function Offer(mxSample: nat, s: St, x: Sample): St {
    if |s.a| < mxSample then s.(a := s.a + [x])
    else
      var m := MinIdx(s.a);
      if m < 0 then s
      else if x.isPSample || Below(RankOf(s.a[m]), RankOf(x)) then
        s.(a := Without(s.a, m) + [x], lost := s.lost + multiset{RankOf(s.a[m])})
      else s.(lost := s.lost + multiset{RankOf(x)})
  }

  function SampleOf(p: nat, g: Group, iHash: nat): Sample
    requires p > 0
  {
    Sample(g.key, g.nEq, g.nLt, g.nDLt, IsPeriodic(p, g), iHash)
  }

  function Push(c: Cfg, s: St, g: Group): St
    requires c.nPSample > 0
  {
    if g.nEq == 0 then s
    else
      var h := NextPrn(s.iPrn);
      Offer(c.mxSample, s.(iPrn := h), SampleOf(c.nPSample, g, h))
  }

  function Run(c: Cfg, iPrn: nat, gs: seq<Group>): St
    requires c.nPSample > 0 && c.mxSample > 0
  {
    if gs == [] then St([], multiset{}, iPrn)
    else Push(c, Run(c, iPrn, gs[..|gs| - 1]), gs[|gs| - 1])
  }

  // ---- The minimum

  lemma {:induction false} MinIdxOk(a: seq<Sample>)
    ensures var m := MinIdx(a);
            && (m < 0 <==> forall j | 0 <= j < |a| :: a[j].isPSample)
            && (m >= 0 ==> !a[m].isPSample && forall j | 0 <= j < |a| && !a[j].isPSample ::
                  !Below(RankOf(a[j]), RankOf(a[m])))
  {
    if a != [] {
      var n := |a| - 1;
      MinIdxOk(a[..n]);
      assert forall j | 0 <= j < n :: a[..n][j] == a[j];
    }
  }

  // ---- Counting the periodic samples

  function Total(gs: seq<Group>): nat {
    if gs == [] then 0 else Total(gs[..|gs| - 1]) + gs[|gs| - 1].nEq
  }

  // Groups as an index scan reports them: each starts where the last ended.
  ghost predicate Contiguous(gs: seq<Group>) {
    gs == [] || (Contiguous(gs[..|gs| - 1]) && gs[|gs| - 1].nLt == Total(gs[..|gs| - 1]))
  }

  function Periodics(a: seq<Sample>): nat {
    if a == [] then 0 else Periodics(a[..|a| - 1]) + (if a[|a| - 1].isPSample then 1 else 0)
  }

  function PushedPeriodic(p: nat, gs: seq<Group>): nat
    requires p > 0
  {
    if gs == [] then 0
    else PushedPeriodic(p, gs[..|gs| - 1]) + (if gs[|gs| - 1].nEq > 0 && IsPeriodic(p, gs[|gs| - 1]) then 1 else 0)
  }

  lemma DivGrows(a: nat, b: nat, p: nat)
    requires p > 0 && a <= b
    ensures a / p <= b / p
  {
    FloorOrder(p, a / p, a);
    FloorOrder(p, a / p, b);
  }

  // Every periodic group crosses a multiple of the period.
  lemma {:induction false} PeriodicBound(p: nat, gs: seq<Group>)
    requires p > 0 && Contiguous(gs)
    ensures PushedPeriodic(p, gs) <= Total(gs) / p
  {
    if gs != [] {
      var g := gs[|gs| - 1];
      PeriodicBound(p, gs[..|gs| - 1]);
      DivGrows(g.nLt, g.nEq + g.nLt, p);
    }
  }

  // The m-th multiple of the period is among the rows of the group.
  predicate Crosses(p: nat, g: Group, m: nat) {
    g.nLt < m * p <= g.nLt + g.nEq
  }

  // A group is periodic exactly if one of its rows, counted from 1, is a
  // multiple of the period.
  lemma PeriodicIff(p: nat, g: Group)
    requires p > 0
    ensures IsPeriodic(p, g) <==> exists m: nat :: Crosses(p, g, m)
  {
    var lo, hi := g.nLt, g.nEq + g.nLt;
    DivGrows(lo, hi, p);
    forall m: nat
      ensures Crosses(p, g, m) <==> lo / p < m <= hi / p
    {
      FloorOrder(p, m, lo);
      FloorOrder(p, m, hi);
      MulCommutes(m, p);
    }
    assert IsPeriodic(p, g) ==> Crosses(p, g, hi / p);
  }

  // The period is the least for which a table of nRow rows has no more than a
  // third of the samples periodic.
  lemma PeriodLeast(nRow: nat, mxSample: nat, p: nat)
    requires 0 < p
    ensures nRow / p <= mxSample / 3 <==> Period(nRow, mxSample) <= p
  {
    var k := mxSample / 3 + 1;
    FloorOrder(p, k, nRow);
    FloorOrder(k, p, nRow);
    MulCommutes(k, p);
  }

  // The period is chosen so that there are at most a third.
  lemma PeriodChoice(nRow: nat, total: nat, mxSample: nat)
    requires total <= nRow
    ensures total / Period(nRow, mxSample) <= mxSample / 3
  {
    var k := mxSample / 3 + 1;
    var p := nRow / k + 1;
    FloorOrder(k, p, nRow);
    FloorOrder(p, k, total);
    MulCommutes(k, p);
  }

  lemma {:induction false} PeriodicsAppend(a: seq<Sample>, x: Sample)
    ensures Periodics(a + [x]) == Periodics(a) + (if x.isPSample then 1 else 0)
  {
    assert (a + [x])[..|a|] == a;
  }

  lemma WithoutLast(a: seq<Sample>, m: nat)
    requires m < |a|
    ensures m == |a| - 1 ==> Without(a, m) == a[..m]
    ensures m < |a| - 1 ==> Without(a, m) == Without(a[..|a| - 1], m) + [a[|a| - 1]]
  {
  }

  lemma {:induction false} PeriodicsDrop(a: seq<Sample>, m: nat)
    requires m < |a| && !a[m].isPSample
    ensures Periodics(Without(a, m)) == Periodics(a)
  {
    hide Without;
    var n := |a| - 1;
    WithoutLast(a, m);
    if m < n {
      PeriodicsDrop(a[..n], m);
      PeriodicsAppend(Without(a[..n], m), a[n]);
    }
  }

  lemma {:induction false} PeriodicsFew(a: seq<Sample>)
    ensures Periodics(a) <= |a|
    ensures (forall j | 0 <= j < |a| :: a[j].isPSample) ==> Periodics(a) == |a|
  {
    if a != [] {
      var n := |a| - 1;
      PeriodicsFew(a[..n]);
      assert (forall j | 0 <= j < |a| :: a[j].isPSample) ==> forall j | 0 <= j < n :: a[..n][j].isPSample;
    }
  }

  // A push keeps every periodic sample, as long as there is a non-periodic one
  // to evict.
  lemma PushPeriodics(c: Cfg, s: St, g: Group)
    requires c.nPSample > 0 && c.mxSample > 0 && |s.a| <= c.mxSample && Periodics(s.a) < c.mxSample
    ensures var s' := Push(c, s, g);
            && |s'.a| <= c.mxSample && (|s.a| == c.mxSample ==> |s'.a| == c.mxSample && MinIdx(s.a) >= 0)
            && Periodics(s'.a) == Periodics(s.a) + (if g.nEq > 0 && IsPeriodic(c.nPSample, g) then 1 else 0)
  {
    hide NextPrn, IsPeriodic, Periodics, MinIdx;
    MinIdxOk(s.a);
    PeriodicsFew(s.a);
    var x := SampleOf(c.nPSample, g, NextPrn(s.iPrn));
    PeriodicsAppend(s.a, x);
    if |s.a| == c.mxSample {
      var m := MinIdx(s.a);
      PeriodicsDrop(s.a, m);
      PeriodicsAppend(Without(s.a, m), x);
    }
  }

  // The configuration of a table of nRow rows.
  function Init(nRow: nat, mxSample: nat): (c: Cfg)
    ensures c.nPSample > 0
  {
    Cfg(Period(nRow, mxSample), mxSample)
  }

  // In every run over at most nRow rows at most a third of the samples are
  // periodic, and none of them is ever evicted. When the samples are full
  // there is always one that may go: the search for it never runs off the end.
  lemma {:induction false} PeriodicsKept(nRow: nat, mxSample: nat, iPrn: nat, gs: seq<Group>)
    requires mxSample > 0 && Contiguous(gs) && Total(gs) <= nRow
    ensures var c := Init(nRow, mxSample);
            var s := Run(c, iPrn, gs);
            && |s.a| <= mxSample
            && Periodics(s.a) == PushedPeriodic(c.nPSample, gs) <= mxSample / 3
            && (|s.a| == mxSample ==> MinIdx(s.a) >= 0)
  {
    var c := Init(nRow, mxSample);
    var s := Run(c, iPrn, gs);
    if gs != [] {
      PeriodicsKept(nRow, mxSample, iPrn, gs[..|gs| - 1]);
      PushPeriodics(c, Run(c, iPrn, gs[..|gs| - 1]), gs[|gs| - 1]);
    }
    PeriodicBound(c.nPSample, gs);
    PeriodChoice(nRow, Total(gs), mxSample);
    MinIdxOk(s.a);
    PeriodicsFew(s.a);
  }

  // ---- Which samples are kept

  // The ranks of the non-periodic samples.
  function Kept(a: seq<Sample>): multiset<Rank> {
    if a == [] then multiset{}
    else
      var x := a[|a| - 1];
      Kept(a[..|a| - 1]) + (if x.isPSample then multiset{} else multiset{RankOf(x)})
  }

  function PrnAfter(iPrn: nat, gs: seq<Group>): nat {
    if gs == [] then iPrn
    else
      var h := PrnAfter(iPrn, gs[..|gs| - 1]);
      if gs[|gs| - 1].nEq == 0 then h else NextPrn(h)
  }

  // The ranks of all non-periodic groups pushed.
  function Offered(p: nat, iPrn: nat, gs: seq<Group>): multiset<Rank>
    requires p > 0
  {
    if gs == [] then multiset{}
    else
      var g := gs[|gs| - 1];
      Offered(p, iPrn, gs[..|gs| - 1]) +
      (if g.nEq == 0 || IsPeriodic(p, g) then multiset{} else multiset{(g.nEq, PrnAfter(iPrn, gs))})
  }

  lemma {:induction false} KeptAppend(a: seq<Sample>, x: Sample)
    ensures Kept(a + [x]) == Kept(a) + (if x.isPSample then multiset{} else multiset{RankOf(x)})
  {
    assert (a + [x])[..|a|] == a;
  }

  lemma {:induction false} KeptDrop(a: seq<Sample>, m: nat)
    requires m < |a| && !a[m].isPSample
    ensures Kept(a) == Kept(Without(a, m)) + multiset{RankOf(a[m])}
  {
    hide Without;
    var n := |a| - 1;
    WithoutLast(a, m);
    if m < n {
      KeptDrop(a[..n], m);
      KeptAppend(Without(a[..n], m), a[n]);
    }
  }

  lemma {:induction false} KeptAbove(a: seq<Sample>, q: Rank)
    requires forall j | 0 <= j < |a| && !a[j].isPSample :: !Below(RankOf(a[j]), q)
    ensures forall r | r in Kept(a) :: !Below(r, q)
  {
    if a != [] {
      KeptAbove(a[..|a| - 1], q);
    }
  }

  // Nothing that was lost outranks anything that is kept, and nothing was lost
  // before the samples were full.
  ghost predicate Above(k: multiset<Rank>, l: multiset<Rank>) {
    forall r, q | r in k && q in l :: !Below(r, q)
  }

  ghost predicate TopKept(s: St, mxSample: nat) {
    && Above(Kept(s.a), s.lost)
    && (s.lost != multiset{} ==> |s.a| == mxSample)
  }

  function RanksOf(x: Sample): multiset<Rank> {
    if x.isPSample then multiset{} else multiset{RankOf(x)}
  }

  lemma OfferTop(mxSample: nat, s: St, x: Sample)
    requires |s.a| <= mxSample && TopKept(s, mxSample)
    requires |s.a| == mxSample ==> MinIdx(s.a) >= 0
    ensures TopKept(Offer(mxSample, s, x), mxSample) && Offer(mxSample, s, x).iPrn == s.iPrn
    ensures Kept(Offer(mxSample, s, x).a) + Offer(mxSample, s, x).lost == Kept(s.a) + s.lost + RanksOf(x)
  {
    hide Kept, MinIdx;
    KeptAppend(s.a, x);
    if |s.a| == mxSample {
      hide Above;
      var m := MinIdx(s.a);
      var q := RankOf(s.a[m]);
      MinIdxOk(s.a);
      KeptAbove(s.a, q);
      KeptDrop(s.a, m);
      KeptAppend(Without(s.a, m), x);
      Exchange(Kept(Without(s.a, m)), q, RankOf(x), s.lost);
    }
  }

  lemma PushTop(c: Cfg, s: St, g: Group)
    requires c.nPSample > 0 && |s.a| <= c.mxSample && TopKept(s, c.mxSample)
    requires |s.a| == c.mxSample ==> MinIdx(s.a) >= 0
    ensures var s' := Push(c, s, g);
            && TopKept(s', c.mxSample)
            && s'.iPrn == (if g.nEq == 0 then s.iPrn else NextPrn(s.iPrn))
            && Kept(s'.a) + s'.lost == Kept(s.a) + s.lost +
                 (if g.nEq == 0 || IsPeriodic(c.nPSample, g) then multiset{} else multiset{(g.nEq, s'.iPrn)})
  {
    hide NextPrn, IsPeriodic, Kept, MinIdx, Above, Offer;
    if g.nEq > 0 {
      var h := NextPrn(s.iPrn);
      OfferTop(c.mxSample, s.(iPrn := h), SampleOf(c.nPSample, g, h));
    }
  }

  // The least of the kept gives way to x, or x is turned away.
  lemma Exchange(k: multiset<Rank>, q: Rank, x: Rank, l: multiset<Rank>)
    requires Above(k + multiset{q}, l) && forall r | r in k + multiset{q} :: !Below(r, q)
    ensures Above(k, l + multiset{q})
    ensures Below(q, x) ==> Above(k + multiset{x}, l + multiset{q})
    ensures !Below(q, x) ==> Above(k + multiset{q}, l + multiset{x})
  {
    assert q in k + multiset{q};
  }

  // After any run the non-periodic samples are the top of all non-periodic
  // groups pushed, as many as there is room for beside the periodic ones: all
  // of them until the samples are full.
  lemma {:induction false} TopSamples(nRow: nat, mxSample: nat, iPrn: nat, gs: seq<Group>)
    requires mxSample > 0 && Contiguous(gs) && Total(gs) <= nRow
    ensures var c := Init(nRow, mxSample);
            var s := Run(c, iPrn, gs);
            && TopKept(s, mxSample)
            && Kept(s.a) + s.lost == Offered(c.nPSample, iPrn, gs)
            && s.iPrn == PrnAfter(iPrn, gs)
            && |Kept(s.a)| + Periodics(s.a) == |s.a|
  {
    var c := Init(nRow, mxSample);
    if gs != [] {
      var before := gs[..|gs| - 1];
      TopSamples(nRow, mxSample, iPrn, before);
      PeriodicsKept(nRow, mxSample, iPrn, before);
      PushTop(c, Run(c, iPrn, before), gs[|gs| - 1]);
    }
    KeptSize(Run(c, iPrn, gs).a);
  }

  lemma {:induction false} InKept(a: seq<Sample>, j: nat)
    requires j < |a| && !a[j].isPSample
    ensures RankOf(a[j]) in Kept(a)
  {
    if j < |a| - 1 {
      InKept(a[..|a| - 1], j);
    }
  }

  // No group that was turned away or evicted is more frequent than a non-periodic
  // sample, and if it is as frequent its tie-breaker is no greater.
  lemma MostFrequentKept(nRow: nat, mxSample: nat, iPrn: nat, gs: seq<Group>)
    requires mxSample > 0 && Contiguous(gs) && Total(gs) <= nRow
    ensures var s := Run(Init(nRow, mxSample), iPrn, gs);
            forall j, r: Rank | 0 <= j < |s.a| && !s.a[j].isPSample && r in s.lost ::
              r.0 < s.a[j].nEq || (r.0 == s.a[j].nEq && r.1 <= s.a[j].iHash)
  {
    hide Run, TopKept;
    var s := Run(Init(nRow, mxSample), iPrn, gs);
    TopSamples(nRow, mxSample, iPrn, gs);
    forall j, r: Rank | 0 <= j < |s.a| && !s.a[j].isPSample && r in s.lost
      ensures r.0 < s.a[j].nEq || (r.0 == s.a[j].nEq && r.1 <= s.a[j].iHash)
    {
      KeptOutranks(s, mxSample, j, r);
    }
  }

  lemma KeptOutranks(s: St, mxSample: nat, j: nat, r: Rank)
    requires TopKept(s, mxSample) && j < |s.a| && !s.a[j].isPSample && r in s.lost
    ensures r.0 < s.a[j].nEq || (r.0 == s.a[j].nEq && r.1 <= s.a[j].iHash)
  {
    hide Kept;
    InKept(s.a, j);
    assert !Below(RankOf(s.a[j]), r);
  }

  lemma {:induction false} KeptSize(a: seq<Sample>)
    ensures |Kept(a)| + Periodics(a) == |a|
  {
    if a != [] {
      KeptSize(a[..|a| - 1]);
    }
  }

  // ---- Order

  // Each sample ends where the next begins, or before.
  ghost predicate Ordered(a: seq<Sample>, end: nat) {
    && (forall i, j | 0 <= i < j < |a| :: a[i].nLt + a[i].nEq <= a[j].nLt)
    && (forall i | 0 <= i < |a| :: a[i].nLt + a[i].nEq <= end)
  }

  lemma {:induction false} SamplesOrdered(c: Cfg, iPrn: nat, gs: seq<Group>)
    requires c.nPSample > 0 && c.mxSample > 0 && Contiguous(gs)
    ensures Ordered(Run(c, iPrn, gs).a, Total(gs))
  {
    if gs != [] {
      SamplesOrdered(c, iPrn, gs[..|gs| - 1]);
      PushOrdered(c, Run(c, iPrn, gs[..|gs| - 1]), gs[|gs| - 1]);
    }
  }

  lemma PushOrdered(c: Cfg, s: St, g: Group)
    requires c.nPSample > 0 && Ordered(s.a, g.nLt)
    ensures Ordered(Push(c, s, g).a, g.nLt + g.nEq)
  {
    hide NextPrn, IsPeriodic, Offer, Ordered;
    var h := NextPrn(s.iPrn);
    OfferOrdered(c.mxSample, s.(iPrn := h), SampleOf(c.nPSample, g, h));
    OrderedLater(s.a, g.nLt, g.nLt + g.nEq);
  }

  lemma OfferOrdered(mxSample: nat, s: St, x: Sample)
    requires Ordered(s.a, x.nLt)
    ensures Ordered(Offer(mxSample, s, x).a, x.nLt + x.nEq)
  {
    hide MinIdx, Ordered, Without, Below, RankOf;
    OrderedAppend(s.a, x);
    if |s.a| >= mxSample && MinIdx(s.a) >= 0 {
      OrderedDrop(s.a, MinIdx(s.a), x.nLt);
      OrderedAppend(Without(s.a, MinIdx(s.a)), x);
    }
    OrderedLater(s.a, x.nLt, x.nLt + x.nEq);
  }

  lemma OrderedAppend(a: seq<Sample>, x: Sample)
    requires Ordered(a, x.nLt)
    ensures Ordered(a + [x], x.nLt + x.nEq)
  {
  }

  lemma OrderedDrop(a: seq<Sample>, m: nat, end: nat)
    requires m < |a| && Ordered(a, end)
    ensures Ordered(Without(a, m), end)
  {
  }

  lemma OrderedLater(a: seq<Sample>, end: nat, later: nat)
    requires Ordered(a, end) && end <= later
    ensures Ordered(a, later)
  {
  }

  function SumEq(a: seq<Sample>): nat {
    if a == [] then 0 else SumEq(a[..|a| - 1]) + a[|a| - 1].nEq
  }

  // The rows of the earlier samples all lie before the last sample.
  lemma {:induction false} SumBelowLast(a: seq<Sample>, end: nat)
    requires Ordered(a, end)
    ensures SumEq(a) <= end
  {
    if a != [] {
      var n := |a| - 1;
      assert Ordered(a[..n], a[n].nLt);
      SumBelowLast(a[..n], a[n].nLt);
    }
  }

  // It is the sum over the samples.
  lemma {:induction false} SumEqAppend(a: seq<Sample>, b: seq<Sample>)
    ensures SumEq(a + b) == SumEq(a) + SumEq(b)
    ensures |b| == 1 ==> SumEq(b) == b[0].nEq
  {
    if b == [] {
      assert a + b == a;
    } else {
      var n := |b| - 1;
      assert (a + b)[..|a| + n] == a + b[..n];
      SumEqAppend(a, b[..n]);
    }
  }

  // ---- What the samples say

  // The sample reports the group i of the scan, as it was pushed.
  predicate Reports(p: nat, iPrn: nat, gs: seq<Group>, i: nat, x: Sample)
    requires p > 0
  {
    && i < |gs| && gs[i].nEq > 0
    && x.key == gs[i].key && x.nEq == gs[i].nEq && x.nLt == gs[i].nLt && x.nDLt == gs[i].nDLt
    && (x.isPSample <==> IsPeriodic(p, gs[i])) && x.iHash == PrnAfter(iPrn, gs[..i + 1])
  }

  ghost predicate Reported(p: nat, iPrn: nat, gs: seq<Group>, x: Sample)
    requires p > 0
  {
    exists i: nat :: Reports(p, iPrn, gs, i, x)
  }

  // Every sample reports a group that was pushed.
  lemma {:induction false} SamplesAreGroups(c: Cfg, iPrn: nat, gs: seq<Group>)
    requires c.nPSample > 0 && c.mxSample > 0
    ensures forall x | x in Run(c, iPrn, gs).a :: Reported(c.nPSample, iPrn, gs, x)
    ensures Run(c, iPrn, gs).iPrn == PrnAfter(iPrn, gs)
  {
    hide Push, IsPeriodic, NextPrn, Reported, SampleOf;
    if gs != [] {
      var n := |gs| - 1;
      SamplesAreGroups(c, iPrn, gs[..n]);
      var s := Run(c, iPrn, gs[..n]);
      Pushed(c, s, gs[n]);
      forall y | y in Run(c, iPrn, gs).a
        ensures Reported(c.nPSample, iPrn, gs, y)
      {
        if y in s.a {
          StillReported(c.nPSample, iPrn, gs, y);
        } else {
          LastReported(c.nPSample, iPrn, gs);
        }
      }
    }
  }

  lemma LastReported(p: nat, iPrn: nat, gs: seq<Group>)
    requires p > 0 && gs != [] && gs[|gs| - 1].nEq > 0
    ensures Reported(p, iPrn, gs, SampleOf(p, gs[|gs| - 1], NextPrn(PrnAfter(iPrn, gs[..|gs| - 1]))))
  {
    hide IsPeriodic, NextPrn;
    var n := |gs| - 1;
    assert gs[..n + 1] == gs;
    assert Reports(p, iPrn, gs, n, SampleOf(p, gs[n], NextPrn(PrnAfter(iPrn, gs[..n]))));
  }

  lemma Pushed(c: Cfg, s: St, g: Group)
    requires c.nPSample > 0
    ensures var s' := Push(c, s, g);
            && (forall y | y in s'.a :: y in s.a || (g.nEq > 0 && y == SampleOf(c.nPSample, g, NextPrn(s.iPrn))))
            && s'.iPrn == if g.nEq == 0 then s.iPrn else NextPrn(s.iPrn)
  {
    hide MinIdx, NextPrn, IsPeriodic, Below;
  }

  lemma StillReported(p: nat, iPrn: nat, gs: seq<Group>, x: Sample)
    requires p > 0 && gs != [] && Reported(p, iPrn, gs[..|gs| - 1], x)
    ensures Reported(p, iPrn, gs, x)
  {
    hide IsPeriodic;
    var i: nat :| Reports(p, iPrn, gs[..|gs| - 1], i, x);
    assert gs[..|gs| - 1][..i + 1] == gs[..i + 1];
    assert Reports(p, iPrn, gs, i, x);
  }

  // Until the samples are full, every group with rows has its sample.
  lemma {:induction false} EveryGroupSampled(c: Cfg, iPrn: nat, gs: seq<Group>, i: nat)
    requires c.nPSample > 0 && c.mxSample > 0
    requires i < |gs| && gs[i].nEq > 0 && |Run(c, iPrn, gs).a| < c.mxSample
    ensures exists x :: x in Run(c, iPrn, gs).a && Reports(c.nPSample, iPrn, gs, i, x)
  {
    hide IsPeriodic, NextPrn;
    var n := |gs| - 1;
    var s := Run(c, iPrn, gs[..n]);
    Grows(c, s, gs[n]);
    SamplesAreGroups(c, iPrn, gs[..n]);
    if i < n {
      EveryGroupSampled(c, iPrn, gs[..n], i);
      var x :| x in s.a && Reports(c.nPSample, iPrn, gs[..n], i, x);
      assert gs[..n][..i + 1] == gs[..i + 1];
      assert Reports(c.nPSample, iPrn, gs, i, x);
    } else {
      assert gs[..n + 1] == gs;
      assert Reports(c.nPSample, iPrn, gs, n, SampleOf(c.nPSample, gs[n], NextPrn(s.iPrn)));
    }
  }

  lemma Grows(c: Cfg, s: St, g: Group)
    requires c.nPSample > 0 && |Push(c, s, g).a| < c.mxSample
    ensures |s.a| < c.mxSample && s.a <= Push(c, s, g).a
    ensures g.nEq > 0 ==> SampleOf(c.nPSample, g, NextPrn(s.iPrn)) in Push(c, s, g).a
  {
    hide MinIdx, NextPrn, IsPeriodic, Below;
  }
}

// When the debugging allocator of lsmtest_mem.c pretends to be out of memory.

module OomSchedule {
  import opened Basics

  // nCountdown, bPersist and bEnable of struct TmGlobal.
  datatype Schedule = Schedule(nCountdown: nat, bPersist: bool, bEnable: bool)

  // Does the next allocation fail?
  predicate FailsNow(s: Schedule) {
    s.bEnable && s.nCountdown == 1
  }

  function Next(s: Schedule): Schedule {
    if FailsNow(s) then s.(nCountdown := if s.bPersist then 1 else 0)
    else if s.bEnable && s.nCountdown > 0 then s.(nCountdown := s.nCountdown - 1)
    else s
  }

  // The schedule after k allocation attempts.
  function AfterAttempts(s: Schedule, k: nat): Schedule
    decreases k
  {
    if k == 0 then s else AfterAttempts(Next(s), k - 1)
  }

  // Armed with n >= 1, attempt number k fails exactly when k is n, or later if
  // the failure persists; armed with 0, or while disabled, none does.
  lemma {:induction false} WhichFail(s: Schedule, k: nat)
    requires k >= 1
    ensures FailsNow(AfterAttempts(s, k - 1)) <==>
            s.bEnable && s.nCountdown > 0 && (k == s.nCountdown || (s.bPersist && k > s.nCountdown))
    decreases k
  {
    if k > 1 {
      WhichFail(Next(s), k - 1);
    }
  }

  // ---- The live blocks as a list of sizes, most recent first

  datatype Model = Model(sizes: seq<nat>, oom: Schedule)

  // Calls of the three allocation functions, a block being named by its place
  // in the list.
  datatype Call = Malloc(n: nat) | Free(k: nat) | Realloc(k: nat, n: nat)

  predicate CallOk(m: Model, c: Call) {
    !c.Malloc? ==> c.k < |m.sizes|
  }

  function Do(m: Model, c: Call): Model
    requires CallOk(m, c)
  {
    match c
    case Malloc(n) => Model(if FailsNow(m.oom) then m.sizes else [n] + m.sizes, Next(m.oom))
    case Free(k) => m.(sizes := Without(m.sizes, k))
    case Realloc(k, n) =>
      Model(if FailsNow(m.oom) then m.sizes else [n] + Without(m.sizes, k), Next(m.oom))
  }

  predicate RunOk(m: Model, calls: seq<Call>)
    decreases |calls|
  {
    calls != [] ==> CallOk(m, calls[0]) && RunOk(Do(m, calls[0]), calls[1..])
  }

  function Run(m: Model, calls: seq<Call>): Model
    requires RunOk(m, calls)
    decreases |calls|
  {
    if calls == [] then m else Run(Do(m, calls[0]), calls[1..])
  }

  function Sum(s: seq<nat>): nat {
    if s == [] then 0 else s[0] + Sum(s[1..])
  }

  lemma {:induction false} SumWithout(s: seq<nat>, k: nat)
    requires k < |s|
    ensures Sum(Without(s, k)) == Sum(s) - s[k]
  {
    if k == 0 {
      assert Without(s, 0) == s[1..];
    } else {
      SumWithout(s[1..], k - 1);
      assert Without(s, k) == [s[0]] + Without(s[1..], k - 1);
      assert Without(s, k)[1..] == Without(s[1..], k - 1);
    }
  }

  // Bytes and blocks handed out, and given back, by one call.
  function Granted(m: Model, c: Call): (r: (nat, nat)) {
    if c.Free? || FailsNow(m.oom) then (0, 0) else (c.n, 1)
  }

  function Returned(m: Model, c: Call): (r: (nat, nat))
    requires CallOk(m, c)
  {
    match c
    case Malloc(_) => (0, 0)
    case Free(k) => (m.sizes[k], 1)
    case Realloc(k, _) => if FailsNow(m.oom) then (0, 0) else (m.sizes[k], 1)
  }

  function Totals(m: Model, calls: seq<Call>): (r: ((nat, nat), (nat, nat)))
    requires RunOk(m, calls)
    decreases |calls|
  {
    if calls == [] then ((0, 0), (0, 0))
    else
      var g, b := Granted(m, calls[0]), Returned(m, calls[0]);
      var t := Totals(Do(m, calls[0]), calls[1..]);
      ((g.0 + t.0.0, g.1 + t.0.1), (b.0 + t.1.0, b.1 + t.1.1))
  }

  // What is live after a run is what was live before, plus what was handed out,
  // less what was given back: in bytes and in blocks.
  lemma {:induction false} Conserved(m: Model, calls: seq<Call>)
    requires RunOk(m, calls)
    ensures Sum(Run(m, calls).sizes) == Sum(m.sizes) + Totals(m, calls).0.0 - Totals(m, calls).1.0
    ensures |Run(m, calls).sizes| == |m.sizes| + Totals(m, calls).0.1 - Totals(m, calls).1.1
    decreases |calls|
  {
    if calls != [] {
      var c := calls[0];
      var m' := Do(m, c);
      Conserved(m', calls[1..]);
      match c
      case Malloc(n) => assert ([n] + m.sizes)[1..] == m.sizes;
      case Free(k) => SumWithout(m.sizes, k);
      case Realloc(k, n) =>
        SumWithout(m.sizes, k);
        assert ([n] + Without(m.sizes, k))[1..] == Without(m.sizes, k);
    }
  }
}

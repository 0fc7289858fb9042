// Pinning the table references of a view, trigger or index to one database
// (attach.c). The walk's effect is one pass over the references in the order
// it meets them; what that pass achieves is proved here about the pass.

module FixNames {
  import opened Basics

  // SrcListItem.zDatabase, the only field the walk assigns.
  class TableRef {
    var zDatabase: Option<string>

    constructor (zDatabase: Option<string>)
      ensures this.zDatabase == zDatabase
    {
      this.zDatabase := zDatabase;
    }
  }

  function Lower(c: char): char {
    if 'A' <= c <= 'Z' then c - 'A' + 'a' else c
  }

  // sqlite4_stricmp(a, b)==0.
  predicate SameName(a: string, b: string) {
    |a| == |b| && forall i | 0 <= i < |a| :: Lower(a[i]) == Lower(b[i])
  }

  // Names are the same up to the case of the letters A to Z.
  lemma SameNameMeans(a: string, b: string)
    ensures SameName(a, b) <==>
              |a| == |b| && forall i | 0 <= i < |a| ::
                || a[i] == b[i]
                || ('A' <= a[i] <= 'Z' && b[i] as int == a[i] as int + 32)
                || ('A' <= b[i] <= 'Z' && a[i] as int == b[i] as int + 32)
  {
    if |a| == |b| {
      forall i | 0 <= i < |a|
        ensures Lower(a[i]) == Lower(b[i]) <==>
                  || a[i] == b[i]
                  || ('A' <= a[i] <= 'Z' && b[i] as int == a[i] as int + 32)
                  || ('A' <= b[i] <= 'Z' && a[i] as int == b[i] as int + 32)
      {
        LowerPair(a[i], b[i]);
      }
    }
  }

  lemma LowerPair(c: char, d: char)
    ensures Lower(c) == Lower(d) <==>
              || c == d
              || ('A' <= c <= 'Z' && d as int == c as int + 32)
              || ('A' <= d <= 'Z' && c as int == d as int + 32)
  {
    assert Lower(c) as int == if 'A' <= c <= 'Z' then c as int + 32 else c as int;
    assert Lower(d) as int == if 'A' <= d <= 'Z' then d as int + 32 else d as int;
    assert Lower(c) == Lower(d) <==> Lower(c) as int == Lower(d) as int;
    assert c == d <==> c as int == d as int;
  }

  type Names = map<TableRef, Option<string>>

  ghost function Snapshot(all: set<TableRef>): (m: Names)
    reads all
    ensures m.Keys == all
  {
    map r | r in all :: r.zDatabase
  }

  // Visit the references in turn: name the unnamed, stop at one that names
  // another database.
  function Fix(m: Names, refs: seq<TableRef>, zDb: string): (r: (Names, bool))
    requires forall x | x in refs :: x in m
    ensures r.0.Keys == m.Keys
  {
    if refs == [] then (m, true)
    else
      assert refs[0] in m;
      match m[refs[0]]
      case None => Fix(m[refs[0] := Some(zDb)], refs[1..], zDb)
      case Some(name) => if SameName(name, zDb) then Fix(m, refs[1..], zDb) else (m, false)
  }

  lemma {:induction false} FixAppend(m: Names, a: seq<TableRef>, b: seq<TableRef>, zDb: string)
    requires forall x | x in a :: x in m
    requires forall x | x in b :: x in m
    ensures Fix(m, a + b, zDb) == if Fix(m, a, zDb).1 then Fix(Fix(m, a, zDb).0, b, zDb) else Fix(m, a, zDb)
  {
    if a == [] {
      assert a + b == b;
    } else {
      assert a[0] in m;
      assert (a + b)[1..] == a[1..] + b;
      FixAppend(m, a[1..], b, zDb);
      FixAppend(m[a[0] := Some(zDb)], a[1..], b, zDb);
    }
  }

  // One more stretch of the walk, after one that succeeded.
  lemma Extend(m: Names, done: seq<TableRef>, m': Names, a: seq<TableRef>, rest: seq<TableRef>, zDb: string)
    requires forall x | x in done + a + rest :: x in m
    requires Fix(m, done, zDb) == (m', true)
    ensures Fix(m, done + a, zDb) == Fix(m', a, zDb)
    ensures !Fix(m', a, zDb).1 ==> Fix(m, done + (a + rest), zDb) == Fix(m', a, zDb)
  {
    forall x | x in done || x in a || x in rest ensures x in m {
      assert x in done + a + rest;
    }
    assert done + (a + rest) == done + a + rest;
    FixAppend(m, done, a, zDb);
    FixAppend(m, done + a, rest, zDb);
  }

  predicate Foreign(m: Names, x: TableRef, zDb: string)
    requires x in m
  {
    m[x].Some? && !SameName(m[x].value, zDb)
  }

  // How many references the pass gets through.
  function Reached(m: Names, refs: seq<TableRef>, zDb: string): (n: nat)
    requires forall x | x in refs :: x in m
    ensures n <= |refs|
    ensures forall i | 0 <= i < n :: !Foreign(m, refs[i], zDb)
    ensures n < |refs| ==> Foreign(m, refs[n], zDb)
  {
    if refs == [] || Foreign(m, refs[0], zDb) then 0 else 1 + Reached(m, refs[1..], zDb)
  }

  lemma SameNameReflexive(s: string)
    ensures SameName(s, s)
  {
  }

  // Exactly the references before the first foreign one are named, and only if
  // they had no name; the pass succeeds exactly when there is no foreign one.
  lemma {:induction false} FixMeans(m: Names, refs: seq<TableRef>, zDb: string)
    requires forall x | x in refs :: x in m
    ensures Fix(m, refs, zDb).1 <==> forall x | x in refs :: !Foreign(m, x, zDb)
    ensures forall x | x in m ::
              Fix(m, refs, zDb).0[x] ==
              if x in refs[..Reached(m, refs, zDb)] && m[x].None? then Some(zDb) else m[x]
  {
    if refs != [] {
      assert refs[0] in m;
      var rest := refs[1..];
      assert refs == [refs[0]] + rest;
      if !Foreign(m, refs[0], zDb) {
        var n := Reached(m, rest, zDb);
        assert refs[..n+1] == [refs[0]] + rest[..n];
        if m[refs[0]].None? {
          var m' := m[refs[0] := Some(zDb)];
          SameNameReflexive(zDb);
          FixMeans(m', rest, zDb);
          SameReach(m, m', rest, zDb);
        } else {
          FixMeans(m, rest, zDb);
        }
      }
    }
  }

  lemma {:induction false} SameReach(m: Names, m': Names, refs: seq<TableRef>, zDb: string)
    requires m.Keys == m'.Keys
    requires forall x | x in refs :: x in m
    requires forall x | x in m :: Foreign(m, x, zDb) <==> Foreign(m', x, zDb)
    ensures Reached(m, refs, zDb) == Reached(m', refs, zDb)
  {
    if refs != [] {
      assert refs[0] in m;
      SameReach(m, m', refs[1..], zDb);
    }
  }

  lemma {:induction false} FixedAgain(m: Names, refs: seq<TableRef>, zDb: string)
    requires forall x | x in refs :: x in m
    requires forall x | x in refs :: m[x].Some? && SameName(m[x].value, zDb)
    ensures Fix(m, refs, zDb) == (m, true)
  {
    if refs != [] {
      assert refs[0] in m;
      FixedAgain(m, refs[1..], zDb);
    }
  }

  lemma {:induction false} ReachesAll(m: Names, refs: seq<TableRef>, zDb: string)
    requires forall x | x in refs :: x in m
    requires forall x | x in refs :: !Foreign(m, x, zDb)
    ensures Reached(m, refs, zDb) == |refs|
  {
    if refs != [] {
      assert refs[0] in refs;
      ReachesAll(m, refs[1..], zDb);
    }
  }

  // A pass that succeeded leaves every reference in the fixed database, and a
  // second pass changes nothing.
  lemma SecondPassIsNoOp(m: Names, refs: seq<TableRef>, zDb: string)
    requires forall x | x in refs :: x in m
    requires Fix(m, refs, zDb).1
    ensures forall x | x in refs :: Fix(m, refs, zDb).0[x].Some? && SameName(Fix(m, refs, zDb).0[x].value, zDb)
    ensures Fix(Fix(m, refs, zDb).0, refs, zDb) == Fix(m, refs, zDb)
  {
    FixMeans(m, refs, zDb);
    SameNameReflexive(zDb);
    ReachesAll(m, refs, zDb);
    assert refs[..|refs|] == refs;
    FixedAgain(Fix(m, refs, zDb).0, refs, zDb);
  }
}

// The page cache index of bt_pager.c: a chained hash table that finds a cached
// page by its number. A cached page is named by its number throughout; that
// the table never holds two pages of one number is what makes the name sound.

module PageHash {

  // Chain h of a table of n chains: page numbers that hash to h, each once.
  predicate ChainOk(c: seq<nat>, h: nat, n: nat) {
    && (forall k | 0 <= k < |c| :: n > 0 && c[k] % n == h)
    && (forall j, k | 0 <= j < k < |c| :: c[j] != c[k])
  }

  predicate TableOk(a: seq<seq<nat>>) {
    forall h | 0 <= h < |a| :: ChainOk(a[h], h, |a|)
  }

  predicate Holds(a: seq<seq<nat>>, q: nat) {
    |a| > 0 && q in a[q % |a|]
  }

  lemma PushKeepsTable(a: seq<seq<nat>>, q: nat)
    requires TableOk(a) && |a| > 0 && !Holds(a, q)
    ensures var a' := a[q % |a| := [q] + a[q % |a|]];
            TableOk(a') && forall r: nat :: Holds(a', r) <==> (r == q || Holds(a, r))
  {
    var h := q % |a|;
    var a' := a[h := [q] + a[h]];
    assert ChainOk(a[h], h, |a|);
    assert ChainOk(a'[h], h, |a|);
    forall g | 0 <= g < |a'|
      ensures ChainOk(a'[g], g, |a'|)
    {
      if g != h {
        assert ChainOk(a[g], g, |a|);
      }
    }
  }

  lemma DropKeepsTable(a: seq<seq<nat>>, h: nat, k: nat)
    requires TableOk(a) && h < |a| && k < |a[h]|
    ensures var a' := a[h := a[h][..k] + a[h][k+1..]];
            TableOk(a') && forall r: nat :: Holds(a', r) <==> (r != a[h][k] && Holds(a, r))
  {
    var c := a[h];
    var c' := c[..k] + c[k+1..];
    var a' := a[h := c'];
    assert ChainOk(c, h, |a|);
    assert ChainOk(c', h, |a|);
    assert forall r :: r in c <==> r == c[k] || r in c';
    assert c[k] !in c';
    forall g | 0 <= g < |a'|
      ensures ChainOk(a'[g], g, |a'|)
    {
      if g != h {
        assert ChainOk(a[g], g, |a|);
      }
    }
  }

  // struct BtPageHash: nHash == |aHash| chains, head first.
  datatype BtPageHash = BtPageHash(nEntry: nat, aHash: seq<seq<nat>>)

  // Exactly the pages of k, each in one place, load at most one half.
  ghost predicate Files(h: BtPageHash, k: set<nat>) {
    && h.nEntry == |k|
    && 2 * h.nEntry <= |h.aHash|
    && TableOk(h.aHash)
    && (forall q: nat :: q in k <==> Holds(h.aHash, q))
  }

  // While the table is rebuilt every page is in exactly one of the two tables.
  ghost predicate Between(a: seq<seq<nat>>, b: seq<seq<nat>>, k: set<nat>) {
    && TableOk(a) && TableOk(b)
    && (forall q: nat :: !(Holds(a, q) && Holds(b, q)))
    && (forall q: nat :: q in k <==> Holds(a, q) || Holds(b, q))
  }

  lemma ShiftKeeps(a: seq<seq<nat>>, b: seq<seq<nat>>, i: nat, k: set<nat>)
    requires Between(a, b, k) && i < |a| && a[i] != [] && |b| > 0
    ensures var p := a[i][0];
            var h := p % |b|;
            Between(a[i := a[i][1..]], b[h := [p] + b[h]], k)
  {
    var p := a[i][0];
    assert ChainOk(a[i], i, |a|) && Holds(a, p);
    DropKeepsTable(a, i, 0);
    assert a[i][..0] + a[i][1..] == a[i][1..];
    PushKeepsTable(b, p);
  }

  lemma GrowStart(a: seq<seq<nat>>, b: seq<seq<nat>>, k: set<nat>)
    requires TableOk(a) && (forall q: nat :: q in k <==> Holds(a, q))
    requires forall h | 0 <= h < |b| :: b[h] == []
    ensures Between(a, b, k)
  {
    assert forall q: nat :: !Holds(b, q);
  }

  lemma GrowDone(a: seq<seq<nat>>, b: seq<seq<nat>>, k: set<nat>)
    requires Between(a, b, k)
    requires forall h | 0 <= h < |a| :: a[h] == []
    ensures TableOk(b) && forall q: nat :: q in k <==> Holds(b, q)
  {
    assert forall q: nat :: !Holds(a, q);
  }
}

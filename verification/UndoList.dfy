// The per-page undo list of bt_pager.c: saved images, newest (innermost
// savepoint) first. One page at a time, on values; Pager.dfy threads these
// lists through the savepoints.

module UndoList {
  import opened PageTypes

  // struct BtSavepage. The same image is on the list of its page and on the
  // list of savepoint iSavepoint; page and level together name it.
  datatype Savepage = Savepage(iSavepoint: nat, aData: Bytes)

  // struct BtPage, less its links.
  datatype BtPage = BtPage(aData: Bytes, nRef: nat, dirty: bool, saves: seq<Savepage>)

  // btDebugCheckSavepagesInOrder: strictly descending levels, at most top.
  predicate Desc(s: seq<Savepage>, top: int) {
    s == [] || (3 <= s[0].iSavepoint <= top && Desc(s[1..], s[0].iSavepoint - 1))
  }

  predicate HasLevel(s: seq<Savepage>, l: int) {
    s != [] && (s[0].iSavepoint == l || HasLevel(s[1..], l))
  }

  // The content the page had when level l was opened: the oldest image saved
  // at level l or above, or the current content if there is none.
  function ViewAt(cur: Bytes, s: seq<Savepage>, l: nat): Bytes
    decreases s
  {
    if s == [] || s[0].iSavepoint < l then cur else ViewAt(s[0].aData, s[1..], l)
  }

  lemma {:induction false} DescBounds(s: seq<Savepage>, top: int, l: int)
    requires Desc(s, top) && HasLevel(s, l)
    ensures 3 <= l <= top
  {
    if s[0].iSavepoint != l {
      DescBounds(s[1..], s[0].iSavepoint - 1, l);
    }
  }

  lemma DescWiden(s: seq<Savepage>, top: int, top': int)
    requires Desc(s, top) && top <= top'
    ensures Desc(s, top')
  {
  }

  // The innermost saved level below the head image, 2 standing for "none".
  function NextLevel(s: seq<Savepage>): nat
    requires s != []
  {
    if |s| > 1 then s[1].iSavepoint else 2
  }

  function AddImage(pg: BtPage, level: nat): BtPage {
    if pg.saves == [] || pg.saves[0].iSavepoint != level
    then pg.(saves := [Savepage(level, pg.aData)] + pg.saves)
    else pg
  }

  // Saving an image changes no snapshot, and afterwards the current content is
  // free to change: no snapshot up to this level looks at it any more.
  lemma AddImageOk(pg: BtPage, level: nat, data: Bytes)
    requires level >= 3 && Desc(pg.saves, level)
    ensures var pg' := AddImage(pg, level);
            && Desc(pg'.saves, level)
            && (forall l: nat :: HasLevel(pg'.saves, l) <==> l == level || HasLevel(pg.saves, l))
            && (forall l: nat | l <= level :: ViewAt(data, pg'.saves, l) == ViewAt(pg.aData, pg.saves, l))
  {
    var pg' := AddImage(pg, level);
    if pg' != pg {
      assert pg'.saves[1..] == pg.saves;
      forall l: nat | l <= level
        ensures ViewAt(data, pg'.saves, l) == ViewAt(pg.aData, pg.saves, l)
      {
      }
    }
  }

  // What btCloseSavepoints does to a page whose head image belongs to the
  // savepoint being closed.
  predicate Relevels(pg: BtPage, k: nat) {
    pg.saves != [] && k > NextLevel(pg.saves)
  }

  function CloseImage(pg: BtPage, k: nat, rollback: bool): BtPage
    requires pg.saves != []
  {
    if rollback then pg.(aData := pg.saves[0].aData, saves := pg.saves[1..])
    else if Relevels(pg, k) then pg.(saves := [pg.saves[0].(iSavepoint := k)] + pg.saves[1..])
    else pg.(saves := pg.saves[1..])
  }

  // Rolling back level top restores the content as of top and keeps every
  // snapshot below; closing it on the way to level k keeps those up to k.
  lemma CloseImageOk(pg: BtPage, top: nat, k: nat, rollback: bool)
    requires Desc(pg.saves, top) && pg.saves != [] && pg.saves[0].iSavepoint == top && k < top
    ensures var pg' := CloseImage(pg, k, rollback);
            && Desc(pg'.saves, top - 1)
            && !HasLevel(pg'.saves, top)
            && (forall l: nat | l < top ::
                  HasLevel(pg'.saves, l) <==> HasLevel(pg.saves, l) || (!rollback && Relevels(pg, k) && l == k))
            && (forall l: nat | 3 <= l <= (if rollback then top else k) ::
                  ViewAt(pg'.aData, pg'.saves, l) == ViewAt(pg.aData, pg.saves, l))
            && (Relevels(pg, k) ==> !HasLevel(pg.saves, k))
  {
    var s, pg' := pg.saves, CloseImage(pg, k, rollback);
    assert Desc(s[1..], top - 1);
    if HasLevel(s[1..], top) {
      DescBounds(s[1..], top - 1, top);
    }
    if Relevels(pg, k) {
      if HasLevel(s[1..], k) {
        DescBounds(s[1..], NextLevel(s), k);
      }
      if !rollback {
        assert pg'.saves[1..] == s[1..];
        assert Desc(s[1..], k - 1);
      }
    }
  }

  lemma NoImages(pg: BtPage, top: nat, l: nat)
    requires Desc(pg.saves, top) && top < l
    ensures ViewAt(pg.aData, pg.saves, l) == pg.aData
  {
  }
}

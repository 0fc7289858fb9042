// The mutually recursive walk of attach.c over SELECTs, expressions and lists.

module ParseTreeFixer {
  import opened Basics
  import opened FixNames

  // The fields of the parse tree the walk follows. A null list is an empty one.
  datatype SrcItem = SrcItem(ref: TableRef, pSelect: Select, pOn: Expr)

  datatype Select =
    | NoSelect
    | Select(pEList: seq<Expr>, pSrc: seq<SrcItem>, pWhere: Expr, pHaving: Expr, pPrior: Select)

  // x: the union Expr.x, told apart by EP_xIsSelect.
  datatype Expr = NoExpr | Expr(tokenOnly: bool, x: SelectOrList, pRight: Expr, pLeft: Expr)

  datatype SelectOrList = ASelect(pSelect: Select) | AList(pList: seq<Expr>)

  datatype TriggerStep =
    | NoStep
    | TriggerStep(pSelect: Select, pWhere: Expr, pExprList: seq<Expr>, pNext: TriggerStep)

  // ---- The references of a tree, in the order of the walk

  function SelectRefs(s: Select): seq<TableRef> {
    if s.NoSelect? then []
    else ClauseRefs(s) + SelectRefs(s.pPrior)
  }

  // One SELECT of a compound.
  function ClauseRefs(s: Select): seq<TableRef>
    requires s.Select?
    decreases s, 0
  {
    ListRefs(s.pEList) + SrcRefs(s.pSrc) + ExprRefs(s.pWhere) + ExprRefs(s.pHaving)
  }

  function SrcRefs(l: seq<SrcItem>): seq<TableRef> {
    if l == [] then [] else ItemRefs(l[0]) + SrcRefs(l[1..])
  }

  function ItemRefs(item: SrcItem): seq<TableRef> {
    [item.ref] + SelectRefs(item.pSelect) + ExprRefs(item.pOn)
  }

  function ExprRefs(e: Expr): seq<TableRef> {
    if e.NoExpr? || e.tokenOnly then []
    else XRefs(e.x) + ExprRefs(e.pRight) + ExprRefs(e.pLeft)
  }

  function XRefs(x: SelectOrList): seq<TableRef> {
    match x
    case ASelect(s) => SelectRefs(s)
    case AList(l) => ListRefs(l)
  }

  function ListRefs(l: seq<Expr>): seq<TableRef> {
    if l == [] then [] else ExprRefs(l[0]) + ListRefs(l[1..])
  }

  function StepRefs(t: TriggerStep): seq<TableRef> {
    if t.NoStep? then []
    else OneStepRefs(t) + StepRefs(t.pNext)
  }

  function OneStepRefs(t: TriggerStep): seq<TableRef>
    requires t.TriggerStep?
  {
    SelectRefs(t.pSelect) + ExprRefs(t.pWhere) + ListRefs(t.pExprList)
  }

  // ---- Which references those are: what a path through the tree leads to

  datatype Node = SelectNode(s: Select) | ItemNode(item: SrcItem) | ExprNode(e: Expr) | StepNode(t: TriggerStep)

  // The fields that are followed from n, one by one.
  predicate Child(n: Node, c: Node) {
    match n
    case SelectNode(s) =>
      s.Select?
      && (|| (c.ExprNode? && c.e in s.pEList)
          || (c.ItemNode? && c.item in s.pSrc)
          || c == ExprNode(s.pWhere)
          || c == ExprNode(s.pHaving)
          || c == SelectNode(s.pPrior))
    case ItemNode(item) => c == SelectNode(item.pSelect) || c == ExprNode(item.pOn)
    case ExprNode(e) =>
      e.Expr? && !e.tokenOnly
      && (|| (match e.x case ASelect(s) => c == SelectNode(s) case AList(l) => c.ExprNode? && c.e in l)
          || c == ExprNode(e.pRight)
          || c == ExprNode(e.pLeft))
    case StepNode(t) =>
      t.TriggerStep?
      && (|| c == SelectNode(t.pSelect)
          || c == ExprNode(t.pWhere)
          || (c.ExprNode? && c.e in t.pExprList)
          || c == StepNode(t.pNext))
  }

  // The path leads from n to an item that holds r.
  predicate PathTo(n: Node, path: seq<Node>, r: TableRef)
    decreases |path|
  {
    if path == [] then n.ItemNode? && n.item.ref == r
    else Child(n, path[0]) && PathTo(path[0], path[1..], r)
  }

  function NodeRefs(n: Node): seq<TableRef> {
    match n
    case SelectNode(s) => SelectRefs(s)
    case ItemNode(item) => ItemRefs(item)
    case ExprNode(e) => ExprRefs(e)
    case StepNode(t) => StepRefs(t)
  }

  lemma {:induction false} InList(l: seq<Expr>, e: Expr, r: TableRef)
    requires e in l && r in ExprRefs(e)
    ensures r in ListRefs(l)
  {
    if e != l[0] {
      InList(l[1..], e, r);
    }
  }

  lemma {:induction false} InSrc(l: seq<SrcItem>, item: SrcItem, r: TableRef)
    requires item in l && r in ItemRefs(item)
    ensures r in SrcRefs(l)
  {
    if item != l[0] {
      InSrc(l[1..], item, r);
    }
  }

  lemma ChildRefs(n: Node, c: Node, r: TableRef)
    requires Child(n, c) && r in NodeRefs(c)
    ensures r in NodeRefs(n)
  {
    hide ListRefs, SrcRefs;
    match n
    case SelectNode(s) =>
      if c.ExprNode? && c.e in s.pEList {
        InList(s.pEList, c.e, r);
      } else if c.ItemNode? {
        InSrc(s.pSrc, c.item, r);
        assert r in SrcRefs(s.pSrc);
      }
      assert c == SelectNode(s.pPrior) || r in ClauseRefs(s);
    case ItemNode(item) =>
    case ExprNode(e) =>
      if e.x.AList? && c.ExprNode? && c.e in e.x.pList {
        InList(e.x.pList, c.e, r);
      }
      assert c == ExprNode(e.pRight) || c == ExprNode(e.pLeft) || r in XRefs(e.x);
    case StepNode(t) =>
      if c.ExprNode? && c.e in t.pExprList {
        InList(t.pExprList, c.e, r);
      }
  }

  lemma {:induction false} PathRefs(n: Node, path: seq<Node>, r: TableRef)
    requires PathTo(n, path, r)
    ensures r in NodeRefs(n)
    decreases |path|
  {
    hide Child;
    if path != [] {
      PathRefs(path[0], path[1..], r);
      ChildRefs(n, path[0], r);
    }
  }

  lemma Longer(n: Node, c: Node, path: seq<Node>, r: TableRef)
    requires Child(n, c) && PathTo(c, path, r)
    ensures PathTo(n, [c] + path, r)
  {
    assert ([c] + path)[1..] == path;
  }

  lemma {:induction false} ListHas(l: seq<Expr>, r: TableRef) returns (e: Expr)
    requires r in ListRefs(l)
    ensures e in l && r in ExprRefs(e)
  {
    if r in ExprRefs(l[0]) {
      e := l[0];
    } else {
      e := ListHas(l[1..], r);
    }
  }

  lemma {:induction false} SrcHas(l: seq<SrcItem>, r: TableRef) returns (item: SrcItem)
    requires r in SrcRefs(l)
    ensures item in l && r in ItemRefs(item)
  {
    if r in ItemRefs(l[0]) {
      item := l[0];
    } else {
      item := SrcHas(l[1..], r);
    }
  }

  lemma {:induction false} SelectPath(s: Select, r: TableRef) returns (path: seq<Node>)
    requires r in SelectRefs(s)
    ensures PathTo(SelectNode(s), path, r)
    decreases s
  {
    hide PathTo, ListRefs, SrcRefs, ExprRefs;
    var c;
    if r in ListRefs(s.pEList) {
      var e := ListHas(s.pEList, r);
      path := ExprPath(e, r);
      c := ExprNode(e);
    } else if r in SrcRefs(s.pSrc) {
      var item := SrcHas(s.pSrc, r);
      path := ItemPath(item, r);
      c := ItemNode(item);
    } else if r in ExprRefs(s.pWhere) {
      path := ExprPath(s.pWhere, r);
      c := ExprNode(s.pWhere);
    } else if r in ExprRefs(s.pHaving) {
      path := ExprPath(s.pHaving, r);
      c := ExprNode(s.pHaving);
    } else {
      path := SelectPath(s.pPrior, r);
      c := SelectNode(s.pPrior);
    }
    Longer(SelectNode(s), c, path, r);
    path := [c] + path;
  }

  lemma {:induction false} ItemPath(item: SrcItem, r: TableRef) returns (path: seq<Node>)
    requires r in ItemRefs(item)
    ensures PathTo(ItemNode(item), path, r)
    decreases item
  {
    hide SelectRefs, ExprRefs;
    path := [];
    if r in SelectRefs(item.pSelect) {
      path := SelectPath(item.pSelect, r);
      Longer(ItemNode(item), SelectNode(item.pSelect), path, r);
      path := [SelectNode(item.pSelect)] + path;
    } else if r in ExprRefs(item.pOn) {
      path := ExprPath(item.pOn, r);
      Longer(ItemNode(item), ExprNode(item.pOn), path, r);
      path := [ExprNode(item.pOn)] + path;
    }
  }

  lemma {:induction false} ExprPath(e: Expr, r: TableRef) returns (path: seq<Node>)
    requires r in ExprRefs(e)
    ensures PathTo(ExprNode(e), path, r)
    decreases e
  {
    hide PathTo, ListRefs, SelectRefs;
    var c;
    if r in XRefs(e.x) {
      match e.x {
        case ASelect(s) =>
          path := SelectPath(s, r);
          c := SelectNode(s);
        case AList(l) =>
          var e' := ListHas(l, r);
          path := ExprPath(e', r);
          c := ExprNode(e');
      }
    } else if r in ExprRefs(e.pRight) {
      path := ExprPath(e.pRight, r);
      c := ExprNode(e.pRight);
    } else {
      path := ExprPath(e.pLeft, r);
      c := ExprNode(e.pLeft);
    }
    Longer(ExprNode(e), c, path, r);
    path := [c] + path;
  }

  lemma {:induction false} StepPath(t: TriggerStep, r: TableRef) returns (path: seq<Node>)
    requires r in StepRefs(t)
    ensures PathTo(StepNode(t), path, r)
    decreases t
  {
    hide PathTo, ListRefs, SelectRefs, ExprRefs;
    var c;
    if r in SelectRefs(t.pSelect) {
      path := SelectPath(t.pSelect, r);
      c := SelectNode(t.pSelect);
    } else if r in ExprRefs(t.pWhere) {
      path := ExprPath(t.pWhere, r);
      c := ExprNode(t.pWhere);
    } else if r in ListRefs(t.pExprList) {
      var e := ListHas(t.pExprList, r);
      path := ExprPath(e, r);
      c := ExprNode(e);
    } else {
      path := StepPath(t.pNext, r);
      c := StepNode(t.pNext);
    }
    Longer(StepNode(t), c, path, r);
    path := [c] + path;
  }

  // A reference counts for a tree exactly if a path through the fields that are
  // followed leads to it.
  lemma RefsArePaths(n: Node, r: TableRef)
    ensures r in NodeRefs(n) <==> exists path: seq<Node> :: PathTo(n, path, r)
  {
    hide PathTo, SelectRefs, ItemRefs, ExprRefs, StepRefs;
    if r in NodeRefs(n) {
      var path;
      match n {
        case SelectNode(s) => path := SelectPath(s, r);
        case ItemNode(item) => path := ItemPath(item, r);
        case ExprNode(e) => path := ExprPath(e, r);
        case StepNode(t) => path := StepPath(t, r);
      }
      assert PathTo(n, path, r);
    }
    forall path: seq<Node> | PathTo(n, path, r)
      ensures r in NodeRefs(n)
    {
      PathRefs(n, path, r);
    }
  }

  // ---- In which order: that of a tree walked from the root down

  function ExprNodes(l: seq<Expr>): seq<Node> {
    seq(|l|, i requires 0 <= i < |l| => ExprNode(l[i]))
  }

  function ItemNodes(l: seq<SrcItem>): seq<Node> {
    seq(|l|, i requires 0 <= i < |l| => ItemNode(l[i]))
  }

  // The fields followed from n, in order.
  function Children(n: Node): seq<Node> {
    match n
    case SelectNode(s) =>
      if s.NoSelect? then []
      else ExprNodes(s.pEList) + ItemNodes(s.pSrc) + [ExprNode(s.pWhere), ExprNode(s.pHaving), SelectNode(s.pPrior)]
    case ItemNode(item) => [SelectNode(item.pSelect), ExprNode(item.pOn)]
    case ExprNode(e) =>
      if e.NoExpr? || e.tokenOnly then []
      else (match e.x case ASelect(s) => [SelectNode(s)] case AList(l) => ExprNodes(l)) + [ExprNode(e.pRight), ExprNode(e.pLeft)]
    case StepNode(t) =>
      if t.NoStep? then []
      else [SelectNode(t.pSelect), ExprNode(t.pWhere)] + ExprNodes(t.pExprList) + [StepNode(t.pNext)]
  }

  function AllRefs(ns: seq<Node>): seq<TableRef> {
    if ns == [] then [] else NodeRefs(ns[0]) + AllRefs(ns[1..])
  }

  lemma {:induction false} AllRefsAppend(a: seq<Node>, b: seq<Node>)
    ensures AllRefs(a + b) == AllRefs(a) + AllRefs(b)
  {
    if a == [] {
      assert a + b == b;
    } else {
      assert (a + b)[0] == a[0] && (a + b)[1..] == a[1..] + b;
      AllRefsAppend(a[1..], b);
    }
  }

  lemma {:induction false} ListNodes(l: seq<Expr>)
    ensures AllRefs(ExprNodes(l)) == ListRefs(l)
  {
    if l != [] {
      assert ExprNodes(l)[1..] == ExprNodes(l[1..]);
      ListNodes(l[1..]);
    }
  }

  lemma {:induction false} SrcNodes(l: seq<SrcItem>)
    ensures AllRefs(ItemNodes(l)) == SrcRefs(l)
  {
    if l != [] {
      assert ItemNodes(l)[1..] == ItemNodes(l[1..]);
      SrcNodes(l[1..]);
    }
  }

  lemma Two(a: Node, b: Node)
    ensures AllRefs([a, b]) == NodeRefs(a) + NodeRefs(b) && AllRefs([a]) == NodeRefs(a)
  {
    assert [a, b][1..] == [b] && [a][1..] == [] && [b][1..] == [];
    assert AllRefs([b]) == NodeRefs(b) + [] == NodeRefs(b);
    assert AllRefs([a]) == NodeRefs(a) + [] == NodeRefs(a);
  }

  lemma SelectInOrder(s: Select)
    ensures SelectRefs(s) == AllRefs(Children(SelectNode(s)))
  {
    hide AllRefs, ListRefs, SrcRefs, ExprRefs, ExprNodes, ItemNodes;
    if s.Select? {
      var lists, exprs := ExprNodes(s.pEList) + ItemNodes(s.pSrc), [ExprNode(s.pWhere), ExprNode(s.pHaving)];
      ListNodes(s.pEList);
      SrcNodes(s.pSrc);
      Two(ExprNode(s.pWhere), ExprNode(s.pHaving));
      Two(SelectNode(s.pPrior), SelectNode(s.pPrior));
      AllRefsAppend(ExprNodes(s.pEList), ItemNodes(s.pSrc));
      AllRefsAppend(lists, exprs);
      AllRefsAppend(lists + exprs, [SelectNode(s.pPrior)]);
      assert Children(SelectNode(s)) == lists + exprs + [SelectNode(s.pPrior)];
      assert AllRefs(lists + exprs) == ClauseRefs(s);
    } else {
      NoRefs();
    }
  }

  lemma ExprInOrder(e: Expr)
    ensures ExprRefs(e) == AllRefs(Children(ExprNode(e)))
  {
    hide AllRefs, ListRefs, SelectRefs, ExprNodes;
    if e.Expr? && !e.tokenOnly {
      var front := match e.x case ASelect(s) => [SelectNode(s)] case AList(l) => ExprNodes(l);
      match e.x {
        case ASelect(s) => Two(SelectNode(s), SelectNode(s));
        case AList(l) => ListNodes(l);
      }
      assert AllRefs(front) == XRefs(e.x);
      Two(ExprNode(e.pRight), ExprNode(e.pLeft));
      AllRefsAppend(front, [ExprNode(e.pRight), ExprNode(e.pLeft)]);
      assert Children(ExprNode(e)) == front + [ExprNode(e.pRight), ExprNode(e.pLeft)];
    } else {
      NoRefs();
    }
  }

  lemma StepInOrder(t: TriggerStep)
    ensures StepRefs(t) == AllRefs(Children(StepNode(t)))
  {
    hide AllRefs, ListRefs, SelectRefs, ExprRefs, ExprNodes;
    if t.TriggerStep? {
      var front := [SelectNode(t.pSelect), ExprNode(t.pWhere)];
      Two(SelectNode(t.pSelect), ExprNode(t.pWhere));
      ListNodes(t.pExprList);
      Two(StepNode(t.pNext), StepNode(t.pNext));
      AllRefsAppend(front, ExprNodes(t.pExprList));
      AllRefsAppend(front + ExprNodes(t.pExprList), [StepNode(t.pNext)]);
      assert AllRefs(front + ExprNodes(t.pExprList)) == OneStepRefs(t);
    } else {
      NoRefs();
    }
  }

  lemma NoRefs()
    ensures AllRefs([]) == []
  {
  }

  // A node's own reference comes first, then those of each field in turn.
  lemma RefsInOrder(n: Node)
    ensures NodeRefs(n) == (if n.ItemNode? then [n.item.ref] else []) + AllRefs(Children(n))
  {
    hide AllRefs, ListRefs, SrcRefs, ExprRefs, SelectRefs, StepRefs, Children;
    match n
    case SelectNode(s) => SelectInOrder(s);
    case ItemNode(item) => ItemInOrder(item);
    case ExprNode(e) => ExprInOrder(e);
    case StepNode(t) => StepInOrder(t);
  }

  lemma ItemInOrder(item: SrcItem)
    ensures ItemRefs(item) == [item.ref] + AllRefs(Children(ItemNode(item)))
  {
    hide AllRefs, SelectRefs, ExprRefs;
    Two(SelectNode(item.pSelect), ExprNode(item.pOn));
  }

  predicate Within(refs: seq<TableRef>, all: set<TableRef>) {
    forall r | r in refs :: r in all
  }

  // struct DbFixer. The caller names the references the tree may hold.
  class DbFixer {
    const zDb: string

    constructor (zDb: string)
      ensures this.zDb == zDb
    {
      this.zDb := zDb;
    }

    // The references were visited in order, and rc tells whether all passed.
    ghost predicate Did(m: Names, refs: seq<TableRef>, all: set<TableRef>, rc: int)
      requires forall x | x in refs :: x in m
      reads all
    {
      rc in {0, 1} && Fix(m, refs, zDb) == (Snapshot(all), rc == 0)
    }

    // sqlite4FixExprList.
    method FixExprList(pList: seq<Expr>, ghost all: set<TableRef>) returns (rc: int)
      requires Within(ListRefs(pList), all)
      modifies all
      ensures Did(old(Snapshot(all)), ListRefs(pList), all, rc)
      decreases pList
    {
      hide ExprRefs, Fix;
      ghost var m, done: seq<TableRef> := Snapshot(all), [];
      NoneDone(m);
      var i := 0;
      while i < |pList|
        invariant i <= |pList|
        invariant ListRefs(pList) == done + ListRefs(pList[i..])
        invariant Within(done, all) && Fix(m, done, zDb) == (Snapshot(all), true)
      {
        ghost var rest := ListRefs(pList[i+1..]);
        assert ListRefs(pList[i..]) == ExprRefs(pList[i]) + rest;
        Extend(m, done, Snapshot(all), ExprRefs(pList[i]), rest, zDb);
        rc := FixExpr(pList[i], all);
        if rc != 0 {
          return 1;
        }
        done := done + ExprRefs(pList[i]);
        i := i + 1;
      }
      assert done + [] == done;
      return 0;
    }

    lemma NoneDone(m: Names)
      ensures Fix(m, [], zDb) == (m, true)
    {
    }

    // sqlite4FixExpr.
    method FixExpr(pExpr: Expr, ghost all: set<TableRef>) returns (rc: int)
      requires Within(ExprRefs(pExpr), all)
      modifies all
      ensures Did(old(Snapshot(all)), ExprRefs(pExpr), all, rc)
      decreases pExpr
    {
      hide ListRefs, SelectRefs, Fix, XRefs;
      ghost var m, done: seq<TableRef> := Snapshot(all), [];
      NoneDone(m);
      var p := pExpr;
      while p.Expr? && !p.tokenOnly
        invariant p == pExpr || p < pExpr
        invariant ExprRefs(pExpr) == done + ExprRefs(p)
        invariant Within(done, all) && Fix(m, done, zDb) == (Snapshot(all), true)
        decreases p
      {
        ghost var a, rest := XRefs(p.x) + ExprRefs(p.pRight), ExprRefs(p.pLeft);
        Extend(m, done, Snapshot(all), a, rest, zDb);
        rc := FixUnionAndRight(p, all);
        if rc != 0 {
          return 1;
        }
        done := done + a;
        p := p.pLeft;
      }
      assert done + [] == done;
      return 0;
    }

    // What that loop does with one node.
    method FixUnionAndRight(p: Expr, ghost all: set<TableRef>) returns (rc: int)
      requires p.Expr? && Within(XRefs(p.x) + ExprRefs(p.pRight), all)
      modifies all
      ensures Did(old(Snapshot(all)), XRefs(p.x) + ExprRefs(p.pRight), all, rc)
      decreases p, 0
    {
      hide ListRefs, SelectRefs, ExprRefs, Fix;
      ghost var m, a, b := Snapshot(all), XRefs(p.x), ExprRefs(p.pRight);
      assert forall r :: r in a || r in b ==> r in a + b;
      FixAppend(m, a, b, zDb);
      match p.x {
        case ASelect(s) => rc := FixSelect(s, all);
        case AList(list) => rc := FixExprList(list, all);
      }
      if rc == 0 {
        rc := FixExpr(p.pRight, all);
      }
    }

    // sqlite4FixSelect.
    method FixSelect(pSelect: Select, ghost all: set<TableRef>) returns (rc: int)
      requires Within(SelectRefs(pSelect), all)
      modifies all
      ensures Did(old(Snapshot(all)), SelectRefs(pSelect), all, rc)
      decreases pSelect
    {
      hide ClauseRefs, Fix;
      ghost var m, done: seq<TableRef> := Snapshot(all), [];
      NoneDone(m);
      var p := pSelect;
      while p.Select?
        invariant p == pSelect || p < pSelect
        invariant SelectRefs(pSelect) == done + SelectRefs(p)
        invariant Within(done, all) && Fix(m, done, zDb) == (Snapshot(all), true)
        decreases p
      {
        ghost var a, rest := ClauseRefs(p), SelectRefs(p.pPrior);
        Extend(m, done, Snapshot(all), a, rest, zDb);
        rc := FixClauses(p, all);
        if rc != 0 {
          return 1;
        }
        done := done + a;
        p := p.pPrior;
      }
      assert done + [] == done;
      return 0;
    }

    // What that loop does with one SELECT.
    method FixClauses(p: Select, ghost all: set<TableRef>) returns (rc: int)
      requires p.Select? && Within(ClauseRefs(p), all)
      modifies all
      ensures Did(old(Snapshot(all)), ClauseRefs(p), all, rc)
      decreases p, 0
    {
      hide ListRefs, ExprRefs, SrcRefs, Fix;
      ghost var m, a, b := Snapshot(all), ListRefs(p.pEList), SrcRefs(p.pSrc);
      ghost var c, d := ExprRefs(p.pWhere), ExprRefs(p.pHaving);
      assert forall r :: r in a || r in b || r in c || r in d ==> r in ClauseRefs(p);
      FixAppend(m, a, b, zDb);
      FixAppend(m, a + b, c, zDb);
      FixAppend(m, a + b + c, d, zDb);
      rc := FixExprList(p.pEList, all);
      if rc == 0 {
        rc := FixSrcList(p.pSrc, all);
      }
      if rc == 0 {
        rc := FixExpr(p.pWhere, all);
      }
      if rc == 0 {
        rc := FixExpr(p.pHaving, all);
      }
    }

    // sqlite4FixSrcList.
    method FixSrcList(pList: seq<SrcItem>, ghost all: set<TableRef>) returns (rc: int)
      requires Within(SrcRefs(pList), all)
      modifies all
      ensures Did(old(Snapshot(all)), SrcRefs(pList), all, rc)
      decreases pList
    {
      hide ItemRefs, Fix;
      ghost var m, done: seq<TableRef> := Snapshot(all), [];
      NoneDone(m);
      var i := 0;
      while i < |pList|
        invariant i <= |pList|
        invariant SrcRefs(pList) == done + SrcRefs(pList[i..])
        invariant Within(done, all) && Fix(m, done, zDb) == (Snapshot(all), true)
      {
        ghost var rest := SrcRefs(pList[i+1..]);
        assert SrcRefs(pList[i..]) == ItemRefs(pList[i]) + rest;
        Extend(m, done, Snapshot(all), ItemRefs(pList[i]), rest, zDb);
        rc := FixItem(pList[i], all);
        if rc != 0 {
          return 1;
        }
        done := done + ItemRefs(pList[i]);
        i := i + 1;
      }
      assert done + [] == done;
      return 0;
    }

    // The body of that loop.
    method FixItem(pItem: SrcItem, ghost all: set<TableRef>) returns (rc: int)
      requires Within(ItemRefs(pItem), all)
      modifies all
      ensures Did(old(Snapshot(all)), ItemRefs(pItem), all, rc)
      decreases pItem
    {
      hide SelectRefs, ExprRefs;
      ghost var m := Snapshot(all);
      var ref := pItem.ref;
      ghost var a, b := SelectRefs(pItem.pSelect), ExprRefs(pItem.pOn);
      assert ItemRefs(pItem) == [ref] + (a + b);
      assert ref in ItemRefs(pItem);
      if ref.zDatabase.None? {
        ref.zDatabase := Some(zDb);
        assert Snapshot(all) == m[ref := Some(zDb)];
      } else if !SameName(ref.zDatabase.value, zDb) {
        return 1;
      }
      assert Fix(m, [ref], zDb) == (Snapshot(all), true);
      Extend(m, [ref], Snapshot(all), a, b, zDb);
      rc := FixSelect(pItem.pSelect, all);
      if rc != 0 {
        return 1;
      }
      Extend(m, [ref] + a, Snapshot(all), b, [], zDb);
      assert [ref] + a + b == [ref] + (a + b);
      assert [ref] + a + (b + []) == [ref] + (a + b);
      rc := FixExpr(pItem.pOn, all);
      if rc != 0 {
        return 1;
      }
      return 0;
    }

    // sqlite4FixTriggerStep.
    method FixTriggerStep(pStep: TriggerStep, ghost all: set<TableRef>) returns (rc: int)
      requires Within(StepRefs(pStep), all)
      modifies all
      ensures Did(old(Snapshot(all)), StepRefs(pStep), all, rc)
    {
      hide OneStepRefs, Fix;
      ghost var m, done: seq<TableRef> := Snapshot(all), [];
      NoneDone(m);
      var p := pStep;
      while p.TriggerStep?
        invariant StepRefs(pStep) == done + StepRefs(p)
        invariant Within(done, all) && Fix(m, done, zDb) == (Snapshot(all), true)
        decreases p
      {
        ghost var a, rest := OneStepRefs(p), StepRefs(p.pNext);
        Extend(m, done, Snapshot(all), a, rest, zDb);
        rc := FixOneStep(p, all);
        if rc != 0 {
          return 1;
        }
        done := done + a;
        p := p.pNext;
      }
      assert done + [] == done;
      return 0;
    }

    method FixOneStep(p: TriggerStep, ghost all: set<TableRef>) returns (rc: int)
      requires p.TriggerStep? && Within(OneStepRefs(p), all)
      modifies all
      ensures Did(old(Snapshot(all)), OneStepRefs(p), all, rc)
    {
      hide ListRefs, ExprRefs, SelectRefs, Fix;
      ghost var m, a, b, c := Snapshot(all), SelectRefs(p.pSelect), ExprRefs(p.pWhere), ListRefs(p.pExprList);
      assert forall r :: r in a || r in b || r in c ==> r in OneStepRefs(p);
      FixAppend(m, a, b, zDb);
      FixAppend(m, a + b, c, zDb);
      rc := FixSelect(p.pSelect, all);
      if rc == 0 {
        rc := FixExpr(p.pWhere, all);
      }
      if rc == 0 {
        rc := FixExprList(p.pExprList, all);
      }
    }
  }
}

/** Splitting a node, growing a new root, and setting parent pointers right
    (lib/btree.hh: split and insert_internal). */
module BTreeSplits {
  import opened BTrees
  import opened BTreeRows
  import opened BTreeShapes

  // ----- splitting an inner node -----

  /** btnode_internal::split of node `p`, whose new sibling is `np`. */
  function SplitInner(store: Store, p: Id, np: Id): Store
    requires IsInner(store, p) && |store[p].keys| == FANOUT - 1
  {
    var n := store[p];
    store[p := Inner(n.parent, n.keys[..ORDER], n.kids[..ORDER + 1])][np := Inner(Null, n.keys[ORDER + 1..],
      n.kids[ORDER + 1..])]
  }

  /** The key that a split pushes up. */
  function MiddleKey(store: Store, p: Id): Key {
    if IsInner(store, p) && |store[p].keys| > ORDER then store[p].keys[ORDER] else 0
  }

  /** The children that a split moves to the new sibling. */
  function MovedKids(store: Store, p: Id): set<Id> {
    if IsInner(store, p) then set j | ORDER < j < |store[p].kids| :: store[p].kids[j] else {}
  }

  function SplitRows(rows: seq<Row>, l: nat, a: Row, p: Slot, key: Key, np: Id, b: Row): seq<Row>
    requires l < |rows|
  {
    rows[l := a + [p, Slot(np, At(key))] + b]
  }

  /** A full inner node of row `l`, and a number for its sibling. */
  predicate Full(t: Tree, l: nat, a: Row, p: Slot, b: Row, np: Id) {
    && l < |t.rows| - 1 && t.rows[l] == a + [p] + b && IsInner(t.store, p.id) && |t.store[p.id].keys| == FANOUT - 1
    && np !in t.store
  }

  function AfterSplit(t: Tree, l: nat, a: Row, p: Slot, b: Row, np: Id): Tree
    requires Full(t, l, a, p, b, np) && p.id in t.height
  {
    Tree(SplitInner(t.store, p.id, np), t.root, SplitRows(t.rows, l, a, p, MiddleKey(t.store, p.id), np, b),
         t.height[np := t.height[p.id]])
  }

  lemma {:induction false} FullHeight(t: Tree, l: nat, a: Row, p: Slot, b: Row, np: Id)
    requires RowsOk(t) && Full(t, l, a, p, b, np)
    ensures p.id in t.height && t.height[p.id] == |t.rows| - 1 - l && np !in t.height && np != p.id
    ensures Without(a + [p] + b, np)
  {
    var row := t.rows[l];
    assert row[|a|] == p;
    InStore(t, l, |a|);
    forall n | 0 <= n < |row| ensures row[n].id != np { InStore(t, l, n); }
  }

  /** The fence of the new sibling lies between its neighbours' fences. */
  lemma {:induction false} FenceFits(store: Store, a: Row, p: Slot, b: Row, lower: Row)
    requires Linked(store, a + [p] + b, lower) && Ascending(lower) && IsInner(store, p.id) && |store[p.id].keys| > ORDER
    ensures Less(p.fence, At(MiddleKey(store, p.id)))
    ensures b != [] ==> Less(At(MiddleKey(store, p.id)), b[0].fence)
  {
    var row := a + [p] + b;
    assert row[|a|] == p && IsInner(store, p.id);
    var e := Expand(store, p);
    var n0 := KidIsBelow(store, row, lower, |a|, 0);
    var n4 := KidIsBelow(store, row, lower, |a|, ORDER + 1);
    assert Less(lower[n0].fence, lower[n4].fence);
    if b != [] {
      assert row[|a| + 1] == b[0] && IsInner(store, b[0].id);
      var n := KidIsBelow(store, row, lower, |a| + 1, 0);
      assert lower[n] == Expand(store, b[0])[0];
      assert n4 < n;
    }
  }

  lemma {:induction false} SplitRowsOk(t: Tree, l: nat, a: Row, p: Slot, b: Row, np: Id)
    requires RowsOk(t) && Full(t, l, a, p, b, np) && p.id in t.height
    requires Linked(t.store, t.rows[l], t.rows[l + 1])
    ensures RowsOk(AfterSplit(t, l, a, p, b, np))
  {
    var t' := AfterSplit(t, l, a, p, b, np);
    SplitRowOk(t, l, a, p, b, np);
    FullHeight(t, l, a, p, b, np);
    forall m | 0 <= m < |t'.rows| ensures RowOk(t'.height, t'.rows[m], |t'.rows| - 1 - m) {
      if m != l {
        assert RowOk(t.height, t.rows[m], |t.rows| - 1 - m);
      }
    }
  }

  lemma {:induction false} SplitRowOk(t: Tree, l: nat, a: Row, p: Slot, b: Row, np: Id)
    requires RowsOk(t) && Full(t, l, a, p, b, np) && p.id in t.height
    requires Linked(t.store, t.rows[l], t.rows[l + 1])
    ensures RowOk(t.height[np := t.height[p.id]], a + [p, Slot(np, At(MiddleKey(t.store, p.id)))] + b, |t.rows| - 1 - l)
  {
    var s := Slot(np, At(MiddleKey(t.store, p.id)));
    FullHeight(t, l, a, p, b, np);
    assert RowOk(t.height, t.rows[l], |t.rows| - 1 - l) && RowOk(t.height, t.rows[l + 1], |t.rows| - 2 - l);
    FenceFits(t.store, a, p, b, t.rows[l + 1]);
    AscendingInsert(a, p, b, s);
    NoDupInsert(a, p, b, s);
    InsertHeight(t.height, t.height[np := t.height[p.id]], a, p, b, s, |t.rows| - 1 - l);
  }

  lemma {:induction false} InsertHeight(height: map<Id, nat>, height': map<Id, nat>, a: Row, p: Slot, b: Row, s: Slot,
                                        h: nat)
    requires AtHeight(height, a + [p] + b, h) && height' == height[s.id := h]
    ensures AtHeight(height', a + [p, s] + b, h)
  {
    var row, row' := a + [p] + b, a + [p, s] + b;
    forall i | 0 <= i < |row'| ensures row'[i].id in height' && height'[row'[i].id] == h {
      if i <= |a| { assert row'[i] == row[i]; } else if i > |a| + 1 { assert row'[i] == row[i - 1]; }
    }
  }

  /** The halves expand to what the node did. */
  lemma {:induction false} SplitLinks(store: Store, a: Row, p: Slot, b: Row, np: Id, lower: Row)
    requires Linked(store, a + [p] + b, lower) && IsInner(store, p.id) && |store[p.id].keys| == FANOUT - 1 &&
             np !in store
    requires NoDup(a + [p] + b)
    ensures Linked(SplitInner(store, p.id, np), a + [p, Slot(np, At(MiddleKey(store, p.id)))] + b, lower)
  {
    var s := Slot(np, At(MiddleKey(store, p.id)));
    SplitSame(store, a, p, b, np);
    SplitInners(store, a, p, b, np);
    SplitNodeOf(store, p, np);
    SplitExpands(store, SplitInner(store, p.id, np), a, p, b, s);
  }

  lemma {:induction false} SplitNodeOf(store: Store, p: Slot, np: Id)
    requires IsInner(store, p.id) && |store[p.id].keys| == FANOUT - 1 && np !in store
    ensures var store' := SplitInner(store, p.id, np);
            Expand(store', p) + Expand(store', Slot(np, At(MiddleKey(store, p.id)))) == Expand(store, p)
  {
    SplitNode(p.fence, store[p.id].keys, store[p.id].kids, ORDER);
  }

  lemma {:induction false} SplitExpands(store: Store, store': Store, a: Row, p: Slot, b: Row, s: Slot)
    requires SameBodies(store, store', a) && SameBodies(store, store', b) &&
             Expand(store', p) + Expand(store', s) == Expand(store, p)
    ensures ExpandAll(store', a + [p, s] + b) == ExpandAll(store, a + [p] + b)
  {
    hide *;
    ExpandAllSame(store, store', a);
    ExpandAllSame(store, store', b);
    ExpandAllConcat(store, a + [p], b);
    ExpandAllSnoc(store, a, p);
    assert a + [p, s] + b == ((a + [p]) + [s]) + b;
    ExpandAllConcat(store', (a + [p]) + [s], b);
    ExpandAllSnoc(store', a + [p], s);
    ExpandAllSnoc(store', a, p);
    Assoc(ExpandAll(store, a), Expand(store', p), Expand(store', s));
  }

  lemma {:induction false} SplitSame(store: Store, a: Row, p: Slot, b: Row, np: Id)
    requires AllInner(store, a + [p] + b) && IsInner(store, p.id) && |store[p.id].keys| == FANOUT - 1 && np !in store &&
             NoDup(a + [p] + b)
    ensures SameBodies(store, SplitInner(store, p.id, np), a) && SameBodies(store, SplitInner(store, p.id, np), b)
  {
    var row := a + [p] + b;
    assert row[|a|] == p;
    forall i | 0 <= i < |a|
      ensures SameBody(store, SplitInner(store, p.id, np), a[i].id)
    {
      assert row[i] == a[i] && IsInner(store, row[i].id);
    }
    forall i | 0 <= i < |b| ensures SameBody(store, SplitInner(store, p.id, np), b[i].id) {
      assert row[|a| + 1 + i] == b[i] && IsInner(store, row[|a| + 1 + i].id);
    }
  }

  lemma {:induction false} SplitInners(store: Store, a: Row, p: Slot, b: Row, np: Id)
    requires AllInner(store, a + [p] + b) && IsInner(store, p.id) && |store[p.id].keys| == FANOUT - 1 && np !in store &&
             NoDup(a + [p] + b)
    ensures AllInner(SplitInner(store, p.id, np), a + [p, Slot(np, At(MiddleKey(store, p.id)))] + b)
  {
    var store', s := SplitInner(store, p.id, np), Slot(np, At(MiddleKey(store, p.id)));
    var row, row' := a + [p] + b, a + [p, s] + b;
    forall i | 0 <= i < |row'| ensures IsInner(store', row'[i].id) {
      if i <= |a| { assert row'[i] == row[i] && IsInner(store, row[i].id); }
      else if i > |a| + 1 { assert row'[i] == row[i - 1] && IsInner(store, row[i - 1].id); }
    }
  }

  lemma {:induction false} SplitOtherRow(t: Tree, l: nat, a: Row, p: Slot, b: Row, np: Id, m: nat)
    requires RowsOk(t) && Full(t, l, a, p, b, np) && m < |t.rows| && m != l
    ensures SameBodies(t.store, SplitInner(t.store, p.id, np), t.rows[m])
  {
    var row := t.rows[m];
    FullHeight(t, l, a, p, b, np);
    forall i | 0 <= i < |row| ensures SameBody(t.store, SplitInner(t.store, p.id, np), row[i].id) { InStore(t, m, i); }
  }

  // ----- parents and sizes -----

  predicate AllLoose(kids: seq<Id>, loose: set<Id>) {
    forall j :: 0 <= j < |kids| ==> kids[j] in loose
  }

  lemma {:induction false} SplitPointsBack(store: Store, row: Row, loose: set<Id>, p: Id, np: Id)
    requires RowPointsBack(store, row, loose) && IsInner(store, p) && |store[p].keys| == FANOUT - 1 && np !in store
    ensures RowPointsBack(SplitInner(store, p, np), row, loose)
  {
    var store' := SplitInner(store, p, np);
    forall i | 0 <= i < |row| ensures IsInner(store', row[i].id) && PointsBack(store', row[i].id, loose) {
      assert IsInner(store, row[i].id) && PointsBack(store, row[i].id, loose);
    }
  }

  lemma {:induction false} MoreLoose(store: Store, row: Row, loose: set<Id>, more: set<Id>)
    requires RowPointsBack(store, row, loose) && loose <= more
    ensures RowPointsBack(store, row, more)
  {
    forall i | 0 <= i < |row| ensures IsInner(store, row[i].id) && PointsBack(store, row[i].id, more) {
      assert PointsBack(store, row[i].id, loose);
    }
  }

  lemma {:induction false} SplitParentsOk(t: Tree, l: nat, a: Row, p: Slot, b: Row, np: Id, loose: set<Id>)
    requires RowsOk(t) && Full(t, l, a, p, b, np) && p.id in t.height && ParentsOk(t, loose) && np !in loose
    ensures ParentsOk(AfterSplit(t, l, a, p, b, np), loose + MovedKids(t.store, p.id))
  {
    var store', more := SplitInner(t.store, p.id, np), loose + MovedKids(t.store, p.id);
    var t' := AfterSplit(t, l, a, p, b, np);
    forall m | 0 <= m < |t'.rows| - 1 ensures RowPointsBack(store', t'.rows[m], more) {
      assert RowPointsBack(t.store, t.rows[m], loose);
      SplitPointsBack(t.store, t.rows[m], loose, p.id, np);
      MoreLoose(store', t.rows[m], loose, more);
      if m == l {
        InsertPointsBack(store', a, p, b, Slot(np, At(MiddleKey(t.store, p.id))), more);
      }
    }
  }

  lemma {:induction false} InsertPointsBack(store: Store, a: Row, p: Slot, b: Row, s: Slot, loose: set<Id>)
    requires RowPointsBack(store, a + [p] + b, loose) && IsInner(store, s.id) && AllLoose(store[s.id].kids, loose)
    ensures RowPointsBack(store, a + [p, s] + b, loose)
  {
    var row, row' := a + [p] + b, a + [p, s] + b;
    forall i | 0 <= i < |row'| ensures IsInner(store, row'[i].id) && PointsBack(store, row'[i].id, loose) {
      if i <= |a| { assert row'[i] == row[i]; } else if i > |a| + 1 { assert row'[i] == row[i - 1]; }
    }
  }

  lemma {:induction false} SplitSizesOk(t: Tree, l: nat, a: Row, p: Slot, b: Row, np: Id)
    requires RowsOk(t) && Full(t, l, a, p, b, np) && p.id in t.height && SizesOk(t, true, {p.id})
    requires l == 0 ==> a == [] && b == []
    ensures SizesOk(AfterSplit(t, l, a, p, b, np), l != 0, {})
  {
    var t' := AfterSplit(t, l, a, p, b, np);
    FullHeight(t, l, a, p, b, np);
    forall m | 0 <= m < |t'.rows| ensures RowSizes(t'.store, t'.rows[m], m == 0 && l != 0, {}) {
      assert RowSizes(t.store, t.rows[m], m == 0, {p.id});
      if m == l {
        SplitSizes(t.store, a, p, b, np, l != 0, l == 0);
      } else {
        SizesOther(t, l, a, p, b, np, m);
      }
    }
  }

  lemma {:induction false} SizesOther(t: Tree, l: nat, a: Row, p: Slot, b: Row, np: Id, m: nat)
    requires RowsOk(t) && Full(t, l, a, p, b, np) && m < |t.rows| && m != l &&
             RowSizes(t.store, t.rows[m], m == 0, {p.id})
    ensures RowSizes(SplitInner(t.store, p.id, np), t.rows[m], m == 0 && l != 0, {})
  {
    var row, store' := t.rows[m], SplitInner(t.store, p.id, np);
    FullHeight(t, l, a, p, b, np);
    forall i | 0 <= i < |row| ensures row[i].id in store' && SizeOk(store', row[i].id, m == 0 && l != 0, 0) {
      InStore(t, m, i);
      assert SizeOk(t.store, row[i].id, m == 0, Spare({p.id}, row[i].id));
    }
  }

  lemma {:induction false} SplitSizes(store: Store, a: Row, p: Slot, b: Row, np: Id, rooted: bool, isTop: bool)
    requires RowSizes(store, a + [p] + b, isTop, {p.id}) && IsInner(store, p.id) && |store[p.id].keys| == FANOUT - 1 &&
             np !in store
    requires NoDup(a + [p] + b) && (isTop ==> a == [] && b == [])
    ensures RowSizes(SplitInner(store, p.id, np), a + [p, Slot(np, At(MiddleKey(store, p.id)))] + b, false, {})
  {
    var store', s := SplitInner(store, p.id, np), Slot(np, At(MiddleKey(store, p.id)));
    var row, row' := a + [p] + b, a + [p, s] + b;
    assert row[|a|] == p;
    forall i | 0 <= i < |row'| ensures row'[i].id in store' && SizeOk(store', row'[i].id, false, 0) {
      if i < |a| { assert row'[i] == row[i] && SizeOk(store, row[i].id, isTop, Spare({p.id}, row[i].id)); }
      else if i > |a| + 1 {
        assert row'[i] == row[i - 1] && SizeOk(store, row[i - 1].id, isTop, Spare({p.id}, row[i - 1].id));
      }
    }
  }

  lemma {:induction false} GoodParts(t: Tree, loose: set<Id>, fat: set<Id>)
    requires Good(t, loose, fat)
    ensures RowsOk(t) && |t.rows| >= 1 && t.rows[0] == [Slot(t.root, Bottom)] && LinksOk(t, -1)
    ensures LeavesOk(t.store, t.rows[|t.rows| - 1]) && ParentsOk(t, loose) && SizesOk(t, true, fat)
  {
  }

  lemma {:induction false} GoodLink(t: Tree, l: nat)
    requires LinksOk(t, -1) && l < |t.rows| - 1
    ensures Linked(t.store, t.rows[l], t.rows[l + 1])
  {
  }

  lemma {:induction false} FullParts(t: Tree, l: nat, a: Row, p: Slot, b: Row, np: Id)
    requires Full(t, l, a, p, b, np)
    ensures l < |t.rows| - 1 && t.rows[l] == a + [p] + b && IsInner(t.store, p.id) &&
            |t.store[p.id].keys| == FANOUT - 1 && np !in t.store
  {
  }

  /** Rows above and below the split node link up as before. */
  lemma {:induction false} SplitLinked(t: Tree, l: nat, a: Row, p: Slot, b: Row, np: Id, m: nat)
    requires RowsOk(t) && Full(t, l, a, p, b, np) && p.id in t.height && LinksOk(t, -1) && m < |t.rows| - 1
    ensures var t' := AfterSplit(t, l, a, p, b, np);
            |t'.rows| == |t.rows| && Linked(t'.store, t'.rows[m], if m + 1 == l then t.rows[l] else t'.rows[m + 1])
  {
    var t' := AfterSplit(t, l, a, p, b, np);
    GoodLink(t, m);
    if m == l {
      assert RowOk(t.height, t.rows[l], |t.rows| - 1 - l);
      SplitLinks(t.store, a, p, b, np, t.rows[l + 1]);
    } else {
      SplitOtherRow(t, l, a, p, b, np, m);
      LinkedSame(t.store, t'.store, t.rows[m], t.rows[m + 1]);
    }
  }

  lemma {:induction false} SplitLinksOk(t: Tree, l: nat, a: Row, p: Slot, b: Row, np: Id)
    requires RowsOk(t) && Full(t, l, a, p, b, np) && p.id in t.height && LinksOk(t, -1)
    ensures var t' := AfterSplit(t, l, a, p, b, np);
            LinksOk(t', l - 1) && |t'.rows| == |t.rows| && (l > 0 ==> Linked(t'.store, t'.rows[l - 1], a + [p] + b))
  {
    var t' := AfterSplit(t, l, a, p, b, np);
    assert t.rows[l] == a + [p] + b && |t'.rows| == |t.rows|;
    hide Linked, RowsOk, AfterSplit, Full;
    forall m | 0 <= m < |t'.rows| - 1 && m != l - 1 ensures Linked(t'.store, t'.rows[m], t'.rows[m + 1]) {
      SplitLinked(t, l, a, p, b, np, m);
    }
    if l > 0 { SplitLinked(t, l, a, p, b, np, l - 1); }
  }

  lemma {:induction false} SplitLeavesOk(t: Tree, l: nat, a: Row, p: Slot, b: Row, np: Id)
    requires RowsOk(t) && Full(t, l, a, p, b, np) && p.id in t.height && LeavesOk(t.store, t.rows[|t.rows| - 1])
    ensures var t' := AfterSplit(t, l, a, p, b, np);
            |t'.rows| == |t.rows| && t'.rows[|t.rows| - 1] == t.rows[|t.rows| - 1] &&
            LeavesOk(t'.store, t'.rows[|t.rows| - 1])
  {
    SplitOtherRow(t, l, a, p, b, np, |t.rows| - 1);
    LeavesSame(t.store, SplitInner(t.store, p.id, np), t.rows[|t.rows| - 1]);
  }

  lemma {:induction false} NotOwnKid(t: Tree, l: nat, a: Row, p: Slot, b: Row, np: Id)
    requires RowsOk(t) && Full(t, l, a, p, b, np) && LinksOk(t, -1)
    ensures p.id !in MovedKids(t.store, p.id) && np !in MovedKids(t.store, p.id)
    ensures MovedKids(t.store, p.id) <= t.store.Keys
  {
    var kids := t.store[p.id].kids;
    FullHeight(t, l, a, p, b, np);
    GoodLink(t, l);
    assert t.rows[l][|a|] == p;
    forall j | 0 <= j < |kids| ensures kids[j] != p.id && kids[j] in t.store {
      var n := KidIsBelow(t.store, t.rows[l], t.rows[l + 1], |a|, j);
      InStore(t, l + 1, n);
    }
    var more := kids[ORDER + 1..];
    forall j | 0 <= j < |more| ensures more[j] != p.id && more[j] in t.store { assert more[j] == kids[ORDER + 1 + j]; }
  }

  lemma {:induction false} SplitShape(t: Tree, l: nat, a: Row, p: Slot, b: Row, np: Id)
    requires Full(t, l, a, p, b, np) && p.id in t.height
    ensures var t' := AfterSplit(t, l, a, p, b, np);
            && t'.root == t.root && |t'.rows| == |t.rows| &&
               t'.rows[l] == a + [p, Slot(np, At(MiddleKey(t.store, p.id)))] + b
            && (l > 0 ==> t'.rows[0] == t.rows[0]) && t'.store == SplitInner(t.store, p.id, np)
  {
  }

  lemma {:induction false} TopRow(t: Tree, l: nat, a: Row, p: Slot, b: Row, np: Id)
    requires Full(t, l, a, p, b, np) && t.rows[0] == [Slot(t.root, Bottom)]
    ensures l == 0 ==> a == [] && b == [] && p == Slot(t.root, Bottom)
  {
    if l == 0 {
      assert |a + [p] + b| == 1;
      assert (a + [p] + b)[0] == p;
    }
  }

  lemma {:induction false} MakePending(t: Tree, l: nat, x: Row, left: Slot, key: Key, right: Id, y: Row, loose: set<Id>)
    requires RowsOk(t) && l < |t.rows| && t.rows[l] == x + [left, Slot(right, At(key))] + y
    requires if l == 0 then x == [] && y == [] && left == Slot(t.root, Bottom)
             else t.rows[0] == [Slot(t.root, Bottom)] && Linked(t.store, t.rows[l - 1], x + [left] + y)
    requires LinksOk(t, l - 1) && LeavesOk(t.store, t.rows[|t.rows| - 1]) && ParentsOk(t, loose) &&
             SizesOk(t, l != 0, {})
    requires left.id !in loose && right !in loose
    ensures Pending(t, l, x, left, key, right, y, loose)
  {
  }

  /** Splitting a node that has become too big leaves its new half pending one row up. */
  lemma {:induction false} NodeSplit(t: Tree, l: nat, a: Row, p: Slot, b: Row, np: Id, loose: set<Id>)
    requires Good(t, loose, {p.id}) && Full(t, l, a, p, b, np) && p.id in t.height && p.id !in loose && np !in loose
    ensures var t' := AfterSplit(t, l, a, p, b, np);
            Pending(t', l, a, p, MiddleKey(t.store, p.id), np, b, loose + MovedKids(t.store, p.id))
  {
    hide *;
    GoodParts(t, loose, {p.id});
    FullParts(t, l, a, p, b, np);
    TopRow(t, l, a, p, b, np);
    GoodLink(t, l);
    var t' := AfterSplit(t, l, a, p, b, np);
    SplitShape(t, l, a, p, b, np);
    SplitRowsOk(t, l, a, p, b, np);
    SplitLinksOk(t, l, a, p, b, np);
    SplitLeavesOk(t, l, a, p, b, np);
    SplitParentsOk(t, l, a, p, b, np, loose);
    SplitSizesOk(t, l, a, p, b, np);
    NotOwnKid(t, l, a, p, b, np);
    MakePending(t', l, a, p, MiddleKey(t.store, p.id), np, b, loose + MovedKids(t.store, p.id));
  }

  // ----- a new root -----

  function GrownStore(store: Store, left: Id, key: Key, right: Id, nr: Id): Store
    requires left in store && right in store
  {
    var store1 := store[nr := Inner(Null, [key], [left, right])];
    var store2 := store1[left := WithParent(store1[left], To(nr))];
    store2[right := WithParent(store2[right], To(nr))]
  }

  function Grown(t: Tree, left: Id, key: Key, right: Id, nr: Id): Tree
    requires left in t.store && right in t.store
  {
    Tree(GrownStore(t.store, left, key, right, nr), nr, [[Slot(nr, Bottom)]] + t.rows, t.height[nr := |t.rows|])
  }

  /** Parent pointers aside, the old nodes are as they were. */
  lemma {:induction false} GrownSame(t: Tree, left: Id, key: Key, right: Id, nr: Id, m: nat)
    requires RowsOk(t) && left in t.store && right in t.store && nr !in t.store && m < |t.rows|
    ensures SameBodies(t.store, GrownStore(t.store, left, key, right, nr), t.rows[m])
  {
    var row := t.rows[m];
    forall i | 0 <= i < |row|
      ensures SameBody(t.store, GrownStore(t.store, left, key, right, nr), row[i].id)
    {
      InStore(t, m, i);
    }
  }

  lemma {:induction false} GrownRowsOk(t: Tree, left: Id, key: Key, right: Id, nr: Id)
    requires RowsOk(t) && left in t.store && right in t.store && nr !in t.store
    ensures RowsOk(Grown(t, left, key, right, nr))
  {
    var t' := Grown(t, left, key, right, nr);
    forall l | 0 <= l < |t'.rows| ensures RowOk(t'.height, t'.rows[l], |t'.rows| - 1 - l) {
      if l > 0 {
        assert t'.rows[l] == t.rows[l - 1];
        assert RowOk(t.height, t.rows[l - 1], |t.rows| - l);
      }
    }
  }

  lemma {:induction false} GrownLinksOk(t: Tree, left: Slot, key: Key, right: Id, nr: Id)
    requires RowsOk(t) && t.rows[0] == [left, Slot(right, At(key))] && left.fence == Bottom && LinksOk(t, -1)
    requires left.id in t.store && right in t.store && nr !in t.store && left.id != right
    ensures LinksOk(Grown(t, left.id, key, right, nr), -1)
  {
    var t' := Grown(t, left.id, key, right, nr);
    var top := Slot(nr, Bottom);
    assert Expand(t'.store, top) == [left, Slot(right, At(key))];
    assert ExpandAll(t'.store, []) == [];
    assert ExpandAll(t'.store, [top]) == [] + Expand(t'.store, top);
    assert IsInner(t'.store, nr);
    forall l | 0 <= l < |t'.rows| - 1 ensures Linked(t'.store, t'.rows[l], t'.rows[l + 1]) {
      if l > 0 {
        assert t'.rows[l] == t.rows[l - 1] && t'.rows[l + 1] == t.rows[l];
        GrownSame(t, left.id, key, right, nr, l - 1);
        GoodLink(t, l - 1);
        LinkedSame(t.store, t'.store, t.rows[l - 1], t.rows[l]);
      }
    }
  }

  lemma {:induction false} GrownRow(t: Tree, left: Id, key: Key, right: Id, nr: Id, loose: set<Id>, m: nat)
    requires RowsOk(t) && left in t.height && right in t.height && t.height[left] == t.height[right] == |t.rows| - 1 &&
             nr !in t.store
    requires m < |t.rows| - 1 && Linked(t.store, t.rows[m], t.rows[m + 1]) && RowPointsBack(t.store, t.rows[m], loose)
    ensures RowPointsBack(GrownStore(t.store, left, key, right, nr), t.rows[m], loose)
  {
    var store', row := GrownStore(t.store, left, key, right, nr), t.rows[m];
    RowWithout(t, m + 1, left);
    RowWithout(t, m + 1, right);
    GrownSame(t, left, key, right, nr, m);
    forall i | 0 <= i < |row| ensures IsInner(store', row[i].id) && PointsBack(store', row[i].id, loose) {
      KidsAreBelow(t.store, row, t.rows[m + 1], i, left);
      KidsAreBelow(t.store, row, t.rows[m + 1], i, right);
      assert SameBody(t.store, store', row[i].id) && PointsBack(t.store, row[i].id, loose);
    }
  }

  lemma {:induction false} GrownParentsOk(t: Tree, left: Slot, key: Key, right: Id, nr: Id, loose: set<Id>)
    requires RowsOk(t) && t.rows[0] == [left, Slot(right, At(key))] && LinksOk(t, -1) && ParentsOk(t, loose)
    requires left.id in t.store && right in t.store && nr !in t.store && left.id != right
    ensures ParentsOk(Grown(t, left.id, key, right, nr), loose)
  {
    var t' := Grown(t, left.id, key, right, nr);
    assert PointsBack(t'.store, nr, loose);
    InStore(t, 0, 0);
    InStore(t, 0, 1);
    forall l | 0 <= l < |t'.rows| - 1 ensures RowPointsBack(t'.store, t'.rows[l], loose) {
      if l > 0 {
        assert t'.rows[l] == t.rows[l - 1];
        GoodLink(t, l - 1);
        GrownRow(t, left.id, key, right, nr, loose, l - 1);
      }
    }
  }

  lemma {:induction false} GrownSizesOk(t: Tree, left: Id, key: Key, right: Id, nr: Id)
    requires RowsOk(t) && SizesOk(t, false, {}) && left in t.store && right in t.store && nr !in t.store
    ensures SizesOk(Grown(t, left, key, right, nr), true, {})
  {
    var t' := Grown(t, left, key, right, nr);
    forall l | 0 <= l < |t'.rows| ensures RowSizes(t'.store, t'.rows[l], l == 0, {}) {
      if l > 0 {
        assert t'.rows[l] == t.rows[l - 1] && RowSizes(t.store, t.rows[l - 1], false, {});
        GrownSame(t, left, key, right, nr, l - 1);
        SizesSame(t.store, t'.store, t.rows[l - 1], false, {});
      }
    }
  }

  lemma {:induction false} TopPending(t: Tree, left: Slot, key: Key, right: Id, loose: set<Id>)
    requires Pending(t, 0, [], left, key, right, [], loose)
    ensures RowsOk(t) && |t.rows| >= 1 && t.rows[0] == [left, Slot(right, At(key))] && left.fence == Bottom &&
            LinksOk(t, -1)
    ensures LeavesOk(t.store, t.rows[|t.rows| - 1]) && ParentsOk(t, loose) && SizesOk(t, false, {})
  {
    assert [] + [left, Slot(right, At(key))] + [] == [left, Slot(right, At(key))];
  }

  lemma {:induction false} GrownShape(t: Tree, left: Id, key: Key, right: Id, nr: Id)
    requires left in t.store && right in t.store && |t.rows| >= 1
    ensures var t' := Grown(t, left, key, right, nr);
            && t'.root == nr && |t'.rows| == |t.rows| + 1 && t'.rows[0] == [Slot(nr, Bottom)] && t'.rows[1..] == t.rows
            && t'.rows[|t.rows|] == t.rows[|t.rows| - 1] && t'.store == GrownStore(t.store, left, key, right, nr)
  {
  }

  /** A new root over the old one and its new sibling makes the tree whole. */
  lemma {:induction false} RootGrown(t: Tree, left: Slot, key: Key, right: Id, nr: Id, loose: set<Id>)
    requires Pending(t, 0, [], left, key, right, [], loose) && left.id in t.store && right in t.store && nr !in t.store
    ensures Good(Grown(t, left.id, key, right, nr), loose, {})
  {
    hide *;
    TopPending(t, left, key, right, loose);
    PendingRight(t, 0, [], left, key, right, [], loose);
    GrownShape(t, left.id, key, right, nr);
    GrownRowsOk(t, left.id, key, right, nr);
    GrownLinksOk(t, left, key, right, nr);
    GrownParentsOk(t, left, key, right, nr, loose);
    GrownSizesOk(t, left.id, key, right, nr);
    GrownSame(t, left.id, key, right, nr, |t.rows| - 1);
    LeavesSame(t.store, GrownStore(t.store, left.id, key, right, nr), t.rows[|t.rows| - 1]);
    MakeGood(Grown(t, left.id, key, right, nr), loose, {});
  }

  // ----- setting a parent pointer right -----

  function FixedStore(store: Store, k: Id, np: Id): Store
    requires k in store
  {
    store[k := WithParent(store[k], To(np))]
  }

  lemma {:induction false} FixedSame(t: Tree, k: Id, np: Id, m: nat)
    requires RowsOk(t) && k in t.store && m < |t.rows|
    ensures SameBodies(t.store, FixedStore(t.store, k, np), t.rows[m])
  {
    var row := t.rows[m];
    forall i | 0 <= i < |row| ensures SameBody(t.store, FixedStore(t.store, k, np), row[i].id) { InStore(t, m, i); }
  }

  lemma {:induction false} ExpandGrows(store: Store, row: Row, i: nat, j: nat)
    requires i <= j <= |row|
    ensures |ExpandAll(store, row[..i])| <= |ExpandAll(store, row[..j])|
  {
    assert row[..j] == row[..i] + row[i..j];
    ExpandAllConcat(store, row[..i], row[i..j]);
  }

  /** No two nodes of a row share a child. */
  lemma {:induction false} OneParent(store: Store, upper: Row, lower: Row, i: nat, j: nat, i': nat, j': nat)
    requires Linked(store, upper, lower) && NoDup(lower) && i < |upper| && i' < |upper|
    requires IsInner(store, upper[i].id) && IsInner(store, upper[i'].id)
    requires j < |store[upper[i].id].kids| && j' < |store[upper[i'].id].kids|
    requires store[upper[i].id].kids[j] == store[upper[i'].id].kids[j']
    ensures i == i'
  {
    var n := KidIsBelow(store, upper, lower, i, j);
    var n' := KidIsBelow(store, upper, lower, i', j');
    assert n == n';
    if i < i' { ExpandGrows(store, upper, i + 1, i'); }
    if i' < i { ExpandGrows(store, upper, i' + 1, i); }
  }

  lemma {:induction false} FixedRow(t: Tree, l: nat, i: nat, j: nat, loose: set<Id>, m: nat)
    requires RowsOk(t) && LinksOk(t, -1) && IsKid(t, l, i, j) && ParentsOk(t, loose + {KidAt(t, l, i, j)}) &&
             m < |t.rows| - 1
    ensures RowPointsBack(FixedStore(t.store, KidAt(t, l, i, j), t.rows[l][i].id), t.rows[m], loose)
  {
    var k, np := KidAt(t, l, i, j), t.rows[l][i].id;
    var store', row := FixedStore(t.store, k, np), t.rows[m];
    GoodLink(t, m);
    GoodLink(t, l);
    assert RowPointsBack(t.store, row, loose + {k});
    FixedSame(t, k, np, m);
    KidHeight(t, l, i, j);
    forall q | 0 <= q < |row| ensures IsInner(store', row[q].id) && PointsBack(store', row[q].id, loose) {
      assert SameBody(t.store, store', row[q].id) && PointsBack(t.store, row[q].id, loose + {k});
      if m == l {
        OnlyOne(t, l, i, j, q);
      } else {
        RowWithout(t, m + 1, k);
        KidsAreBelow(t.store, row, t.rows[m + 1], q, k);
      }
    }
  }

  predicate IsKid(t: Tree, l: nat, i: nat, j: nat) {
    l < |t.rows| - 1 && i < |t.rows[l]| && IsInner(t.store, t.rows[l][i].id) && j < |t.store[t.rows[l][i].id].kids|
    && t.store[t.rows[l][i].id].kids[j] in t.store
  }

  function KidAt(t: Tree, l: nat, i: nat, j: nat): Id
    requires IsKid(t, l, i, j)
  {
    t.store[t.rows[l][i].id].kids[j]
  }

  lemma {:induction false} KidHeight(t: Tree, l: nat, i: nat, j: nat)
    requires RowsOk(t) && IsKid(t, l, i, j) && Linked(t.store, t.rows[l], t.rows[l + 1])
    ensures KidAt(t, l, i, j) in t.height && t.height[KidAt(t, l, i, j)] == |t.rows| - 2 - l
  {
    var n := KidIsBelow(t.store, t.rows[l], t.rows[l + 1], i, j);
    InStore(t, l + 1, n);
  }

  /** Of the nodes of its row, only its parent has the child. */
  lemma {:induction false} OnlyOne(t: Tree, l: nat, i: nat, j: nat, q: nat)
    requires RowsOk(t) && IsKid(t, l, i, j) && Linked(t.store, t.rows[l], t.rows[l + 1]) && q < |t.rows[l]|
    ensures IsInner(t.store, t.rows[l][q].id) &&
            (KidAt(t, l, i, j) in t.store[t.rows[l][q].id].kids ==> t.rows[l][q].id == t.rows[l][i].id)
  {
    assert RowOk(t.height, t.rows[l + 1], |t.rows| - 2 - l);
    assert IsInner(t.store, t.rows[l][q].id);
    if KidAt(t, l, i, j) in t.store[t.rows[l][q].id].kids {
      var j' :| 0 <= j' < |t.store[t.rows[l][q].id].kids| && t.store[t.rows[l][q].id].kids[j'] == KidAt(t, l, i, j);
      OneParent(t.store, t.rows[l], t.rows[l + 1], i, j, q, j');
    }
  }

  lemma {:induction false} FixedParentsOk(t: Tree, l: nat, i: nat, j: nat, loose: set<Id>)
    requires RowsOk(t) && LinksOk(t, -1) && IsKid(t, l, i, j) && ParentsOk(t, loose + {KidAt(t, l, i, j)}) &&
             t.rows[0] == [Slot(t.root, Bottom)]
    ensures ParentsOk(t.(store := FixedStore(t.store, KidAt(t, l, i, j), t.rows[l][i].id)), loose)
  {
    GoodLink(t, l);
    KidHeight(t, l, i, j);
    InStore(t, 0, 0);
    forall m | 0 <= m < |t.rows| - 1
      ensures RowPointsBack(FixedStore(t.store, KidAt(t, l, i, j), t.rows[l][i].id), t.rows[m], loose)
    {
      FixedRow(t, l, i, j, loose, m);
    }
  }

  lemma {:induction false} FixedLinksOk(t: Tree, k: Id, np: Id)
    requires RowsOk(t) && LinksOk(t, -1) && k in t.store
    ensures LinksOk(t.(store := FixedStore(t.store, k, np)), -1)
  {
    forall m | 0 <= m < |t.rows| - 1 ensures Linked(FixedStore(t.store, k, np), t.rows[m], t.rows[m + 1]) {
      GoodLink(t, m);
      FixedSame(t, k, np, m);
      LinkedSame(t.store, FixedStore(t.store, k, np), t.rows[m], t.rows[m + 1]);
    }
  }

  lemma {:induction false} FixedSizesOk(t: Tree, k: Id, np: Id)
    requires RowsOk(t) && SizesOk(t, true, {}) && k in t.store
    ensures SizesOk(t.(store := FixedStore(t.store, k, np)), true, {})
  {
    forall m | 0 <= m < |t.rows| ensures RowSizes(FixedStore(t.store, k, np), t.rows[m], m == 0, {}) {
      FixedSame(t, k, np, m);
      SizesSame(t.store, FixedStore(t.store, k, np), t.rows[m], m == 0, {});
    }
  }

  /** Pointing a child to its parent takes it off the list of loose ones. */
  lemma {:induction false} PointerFixed(t: Tree, l: nat, i: nat, j: nat, loose: set<Id>)
    requires IsKid(t, l, i, j) && Good(t, loose + {KidAt(t, l, i, j)}, {})
    ensures Good(t.(store := FixedStore(t.store, KidAt(t, l, i, j), t.rows[l][i].id)), loose, {})
  {
    var k, np := KidAt(t, l, i, j), t.rows[l][i].id;
    var t' := t.(store := FixedStore(t.store, k, np));
    assert t'.store.Keys == t.store.Keys;
    hide *;
    GoodParts(t, loose + {k}, {});
    SameKeys(t, t'.store);
    FixedParentsOk(t, l, i, j, loose);
    FixedLinksOk(t, k, np);
    FixedSizesOk(t, k, np);
    FixedSame(t, k, np, |t.rows| - 1);
    LeavesSame(t.store, t'.store, t.rows[|t.rows| - 1]);
    MakeGood(t', loose, {});
  }
}

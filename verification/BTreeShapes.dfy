/** What is right about a B+tree of Metis (lib/btree.hh), and what each step of an
    insertion does to it. */
module BTreeShapes {
  import opened BTrees
  import opened BTreeRows

  /** A tree with its rows, and the height of each node above the leaves. */
  datatype Tree = Tree(store: Store, root: Id, rows: seq<Row>, height: map<Id, nat>)

  // ----- the parts of the invariant -----

  predicate AllInner(store: Store, row: Row) {
    forall i :: 0 <= i < |row| ==> IsInner(store, row[i].id)
  }

  predicate Linked(store: Store, upper: Row, lower: Row) {
    AllInner(store, upper) && ExpandAll(store, upper) == lower
  }

  predicate RowOk(height: map<Id, nat>, row: Row, h: nat) {
    Ascending(row) && NoDup(row) && AtHeight(height, row, h)
  }

  /** Rows go up in fences, and no node is in two places. */
  predicate RowsOk(t: Tree) {
    && |t.rows| >= 1
    && (forall l :: 0 <= l < |t.rows| ==> RowOk(t.height, t.rows[l], |t.rows| - 1 - l))
    && t.height.Keys == t.store.Keys
  }

  /** Each row expands to the next, but perhaps for row `skip`. */
  predicate LinksOk(t: Tree, skip: int) {
    forall l :: 0 <= l < |t.rows| - 1 && l != skip ==> Linked(t.store, t.rows[l], t.rows[l + 1])
  }

  /** A key may stand in leaf `i` of the row. */
  predicate Fits(row: Row, i: nat, k: Key)
    requires i < |row|
  {
    !Less(At(k), row[i].fence) && (i + 1 < |row| ==> Less(At(k), row[i + 1].fence))
  }

  predicate LeafOk(store: Store, row: Row, i: nat)
    requires i < |row|
  {
    && IsLeaf(store, row[i].id)
    && SortedPairs(store[row[i].id].pairs)
    && (forall j :: 0 <= j < |store[row[i].id].pairs| ==> Fits(row, i, store[row[i].id].pairs[j].key))
    && store[row[i].id].next == if i + 1 < |row| then To(row[i + 1].id) else Null
  }

  /** The leaves hold sorted keys between their fences, and are chained in order. */
  predicate LeavesOk(store: Store, row: Row) {
    forall i :: 0 <= i < |row| ==> LeafOk(store, row, i)
  }

  /** The children of node `id` point back to it, but perhaps for some. */
  predicate PointsBack(store: Store, id: Id, loose: set<Id>)
    requires IsInner(store, id)
  {
    forall j :: 0 <= j < |store[id].kids| ==>
      store[id].kids[j] in loose || (store[id].kids[j] in store && store[store[id].kids[j]].parent == To(id))
  }

  predicate RowPointsBack(store: Store, row: Row, loose: set<Id>) {
    forall i :: 0 <= i < |row| ==> IsInner(store, row[i].id) && PointsBack(store, row[i].id, loose)
  }

  predicate ParentsOk(t: Tree, loose: set<Id>) {
    && t.root in t.store && t.store[t.root].parent == Null
    && forall l :: 0 <= l < |t.rows| - 1 ==> RowPointsBack(t.store, t.rows[l], loose)
  }

  /** How full a node may be; `spare` more than it should be. */
  predicate SizeOk(store: Store, id: Id, isRoot: bool, spare: nat)
    requires id in store
  {
    match store[id]
    case Leaf(_, pairs, _) => (if isRoot then 0 else ORDER + 1) <= |pairs| < FANOUT + spare
    case Inner(_, keys, _) => (if isRoot then 1 else ORDER) <= |keys| < FANOUT - 1 + spare
  }

  function Spare(fat: set<Id>, id: Id): nat { if id in fat then 1 else 0 }

  predicate RowSizes(store: Store, row: Row, isRoot: bool, fat: set<Id>) {
    forall i :: 0 <= i < |row| ==> row[i].id in store && SizeOk(store, row[i].id, isRoot, Spare(fat, row[i].id))
  }

  /** Every node but the root is at least half full, and none overflows, but perhaps for
      nodes that are about to be split. */
  predicate SizesOk(t: Tree, rooted: bool, fat: set<Id>) {
    forall l :: 0 <= l < |t.rows| ==> RowSizes(t.store, t.rows[l], l == 0 && rooted, fat)
  }

  /** A proper tree, but for parent pointers of the nodes in `loose` and for nodes in
      `fat` that are one too big. */
  predicate Good(t: Tree, loose: set<Id>, fat: set<Id>) {
    && RowsOk(t) && t.rows[0] == [Slot(t.root, Bottom)] && LinksOk(t, -1)
    && LeavesOk(t.store, t.rows[|t.rows| - 1]) && ParentsOk(t, loose) && SizesOk(t, true, fat)
  }

  /** Row `l` has a new node `right` next to `left` that its parent does not know of. */
  predicate Pending(t: Tree, l: nat, x: Row, left: Slot, key: Key, right: Id, y: Row, loose: set<Id>) {
    && RowsOk(t) && l < |t.rows| && t.rows[l] == x + [left, Slot(right, At(key))] + y
    && (if l == 0 then x == [] && y == [] && left == Slot(t.root, Bottom)
        else t.rows[0] == [Slot(t.root, Bottom)] && Linked(t.store, t.rows[l - 1], x + [left] + y))
    && LinksOk(t, l - 1)
    && LeavesOk(t.store, t.rows[|t.rows| - 1]) && ParentsOk(t, loose) && SizesOk(t, l != 0, {})
    && left.id !in loose && right !in loose
  }

  // ----- frames -----

  /** Nodes of different heights are different nodes. */
  lemma {:induction false} OtherRow(t: Tree, l: nat, i: nat, m: nat, j: nat)
    requires RowsOk(t) && l < |t.rows| && m < |t.rows| && l != m && i < |t.rows[l]| && j < |t.rows[m]|
    ensures t.rows[l][i].id != t.rows[m][j].id
  {
    assert RowOk(t.height, t.rows[l], |t.rows| - 1 - l) && RowOk(t.height, t.rows[m], |t.rows| - 1 - m);
  }

  lemma {:induction false} LinkedSame(store: Store, store': Store, upper: Row, lower: Row)
    requires Linked(store, upper, lower) && SameBodies(store, store', upper)
    ensures Linked(store', upper, lower)
  {
    ExpandAllSame(store, store', upper);
    forall i | 0 <= i < |upper| ensures IsInner(store', upper[i].id) { assert SameBody(store, store', upper[i].id); }
  }

  lemma {:induction false} LeavesSame(store: Store, store': Store, row: Row)
    requires LeavesOk(store, row) && SameBodies(store, store', row)
    ensures LeavesOk(store', row)
  {
    forall i | 0 <= i < |row| ensures LeafOk(store', row, i) {
      assert LeafOk(store, row, i) && SameBody(store, store', row[i].id);
    }
  }

  lemma {:induction false} SizesSame(store: Store, store': Store, row: Row, isRoot: bool, fat: set<Id>)
    requires RowSizes(store, row, isRoot, fat) && SameBodies(store, store', row)
    ensures RowSizes(store', row, isRoot, fat)
  {
    forall i | 0 <= i < |row| ensures row[i].id in store' && SizeOk(store', row[i].id, isRoot, Spare(fat, row[i].id)) {
      assert SameBody(store, store', row[i].id);
    }
  }

  /** A child is a slot of the next row. */
  lemma {:induction false} KidIsBelow(store: Store, upper: Row, lower: Row, i: nat, j: nat) returns (n: nat)
    requires Linked(store, upper, lower) && i < |upper| && j < |store[upper[i].id].kids|
    ensures n < |lower| && lower[n].id == store[upper[i].id].kids[j] && n == |ExpandAll(store, upper[..i])| + j
    ensures |ExpandAll(store, upper[..i + 1])| == |ExpandAll(store, upper[..i])| + |store[upper[i].id].kids|
    ensures lower[n] == Expand(store, upper[i])[j]
  {
    var a, b := upper[..i], upper[i + 1..];
    assert upper == (a + [upper[i]]) + b;
    ExpandAllConcat(store, a + [upper[i]], b);
    ExpandAllSnoc(store, a, upper[i]);
    assert IsInner(store, upper[i].id);
    assert upper[..i + 1] == a + [upper[i]];
    n := |ExpandAll(store, a)| + j;
  }

  function WithParent(n: Node, p: Link): Node {
    match n
    case Leaf(_, pairs, next) => Leaf(p, pairs, next)
    case Inner(_, keys, kids) => Inner(p, keys, kids)
  }

  // ----- a new child for a parent -----

  /** The store with `right` added to node `p` after child `pos`. */
  function AddedKid(store: Store, p: Id, pos: nat, key: Key, right: Id): Store
    requires IsInner(store, p) && pos <= |store[p].keys| && right in store
  {
    var n := store[p];
    var store1 := store[p := Inner(n.parent, n.keys[..pos] + [key] + n.keys[pos..],
                                   n.kids[..pos + 1] + [right] + n.kids[pos + 1..])];
    store1[right := WithParent(store1[right], To(p))]
  }

  /** Where a pending node is to be added. */
  predicate Spot(t: Tree, l: nat, x: Row, left: Slot, y: Row, a: Row, p: Slot, b: Row, p1: Row, p2: Row) {
    && 0 < l < |t.rows| && t.rows[l - 1] == a + [p] + b && IsInner(t.store, p.id)
    && Expand(t.store, p) == p1 + [left] + p2
    && x == ExpandAll(t.store, a) + p1 && y == p2 + ExpandAll(t.store, b)
  }

  lemma {:induction false} FindSpot(t: Tree, l: nat, x: Row, left: Slot, key: Key, right: Id, y: Row, loose: set<Id>)
    returns (a: Row, p: Slot, b: Row, p1: Row, p2: Row)
    requires Pending(t, l, x, left, key, right, y, loose) && l > 0
    ensures Spot(t, l, x, left, y, a, p, b, p1, p2)
    ensures left.id in t.store && t.store[left.id].parent == To(p.id)
  {
    a, p, b, p1, p2 := Locate(t.store, t.rows[l - 1], x, left, y);
    assert t.rows[l - 1][|a|] == p;
    assert IsInner(t.store, p.id);
    assert RowPointsBack(t.store, t.rows[l - 1], loose);
    assert PointsBack(t.store, p.id, loose);
    assert Expand(t.store, p)[|p1|] == left;
    assert t.store[p.id].kids[|p1|] == left.id;
  }

  /** The right place for the key is right after `left`. */
  lemma {:induction false} SpotIsUpperBound(t: Tree, l: nat, x: Row, left: Slot, key: Key, right: Id, y: Row,
                                            loose: set<Id>,
                                            a: Row, p: Slot, b: Row, p1: Row, p2: Row)
    requires Pending(t, l, x, left, key, right, y, loose) && Spot(t, l, x, left, y, a, p, b, p1, p2)
    ensures |p1| <= |t.store[p.id].keys|
    ensures forall i :: 0 <= i < |p1| ==> t.store[p.id].keys[i] < key
    ensures forall i :: |p1| <= i < |t.store[p.id].keys| ==> key < t.store[p.id].keys[i]
  {
    var keys, row := t.store[p.id].keys, t.rows[l];
    var e := Expand(t.store, p);
    assert Ascending(row) by { assert RowOk(t.height, row, |t.rows| - 1 - l); }
    AroundNew(row, ExpandAll(t.store, a), p1, left, Slot(right, At(key)), p2, ExpandAll(t.store, b));
    forall i | 0 <= i < |keys| ensures if i < |p1| then keys[i] < key else key < keys[i] {
      assert e[i + 1].fence == At(keys[i]);
    }
  }

  /** The new slot's fence lies between those of its neighbours under the same parent. */
  lemma {:induction false} AroundNew(row: Row, ea: Row, p1: Row, left: Slot, new_: Slot, p2: Row, eb: Row)
    requires Ascending(row) && row == (ea + p1) + [left, new_] + (p2 + eb)
    ensures forall i :: 0 <= i < |p1 + [left] + p2| ==>
              if i <= |p1| then Less((p1 + [left] + p2)[i].fence, new_.fence)
                else Less(new_.fence, (p1 + [left] + p2)[i].fence)
  {
    var e, n := p1 + [left] + p2, |ea| + |p1| + 1;
    assert row[n] == new_;
    forall i | 0 <= i < |e| ensures if i <= |p1| then Less(e[i].fence, new_.fence) else Less(new_.fence, e[i].fence) {
      if i <= |p1| { assert row[|ea| + i] == e[i]; } else { assert row[|ea| + i + 1] == e[i]; }
    }
  }

  lemma {:induction false} AddedSame(t: Tree, l: nat, a: Row, p: Slot, b: Row, pos: nat, key: Key, right: Id, m: nat)
    requires RowsOk(t) && 0 < l < |t.rows| && t.rows[l - 1] == a + [p] + b
    requires IsInner(t.store, p.id) && pos <= |t.store[p.id].keys| && right in t.store && right != p.id
    requires m < |t.rows| && forall i :: 0 <= i < |t.rows[m]| ==> t.rows[m][i].id in t.store
    ensures m != l - 1 ==> SameBodies(t.store, AddedKid(t.store, p.id, pos, key, right), t.rows[m])
    ensures m == l - 1 ==>
              SameBodies(t.store, AddedKid(t.store, p.id, pos, key, right), a) &&
              SameBodies(t.store, AddedKid(t.store, p.id, pos, key, right), b)
  {
    var row := t.rows[m];
    assert RowOk(t.height, t.rows[l - 1], |t.rows| - l) && t.rows[l - 1][|a|] == p;
    if m != l - 1 {
      forall i | 0 <= i < |row| ensures SameBody(t.store, AddedKid(t.store, p.id, pos, key, right), row[i].id) {
        OtherRow(t, m, i, l - 1, |a|);
      }
    } else {
      forall i | 0 <= i < |a| ensures SameBody(t.store, AddedKid(t.store, p.id, pos, key, right), a[i].id) {
        assert row[i] == a[i];
      }
      forall i | 0 <= i < |b| ensures SameBody(t.store, AddedKid(t.store, p.id, pos, key, right), b[i].id) {
        assert row[|a| + 1 + i] == b[i];
      }
    }
  }

  /** With the new child, the upper row expands to the lower one. */
  lemma {:induction false} AddedLinks(store: Store, store': Store, a: Row, p: Slot, b: Row, p1: Row, left: Slot,
                                      p2: Row, key: Key, right: Id)
    requires AllInner(store, a + [p] + b) && IsInner(store, p.id) && right in store && right != p.id
    requires Expand(store, p) == p1 + [left] + p2 && |p1| <= |store[p.id].keys|
    requires store' == AddedKid(store, p.id, |p1|, key, right)
    requires SameBodies(store, store', a) && SameBodies(store, store', b)
    ensures Linked(store', a + [p] + b,
                   (ExpandAll(store, a) + p1) + [left, Slot(right, At(key))] + (p2 + ExpandAll(store, b)))
  {
    var n, n' := store[p.id], store'[p.id];
    InsertKid(p.fence, n.keys, n.kids, |p1|, key, right);
    var e, e' := Expand(store, p), Expand(store', p);
    assert e[..|p1| + 1] == p1 + [left] && e[|p1| + 1..] == p2;
    assert e' == p1 + [left, Slot(right, At(key))] + p2;
    ExpandAllSame(store, store', a);
    ExpandAllSame(store, store', b);
    ExpandAllConcat(store', a + [p], b);
    ExpandAllSnoc(store', a, p);
    forall i | 0 <= i < |a + [p] + b| ensures IsInner(store', (a + [p] + b)[i].id) {
      if i < |a| {
        assert SameBody(store, store', a[i].id) && (a + [p] + b)[i] == a[i];
      } else if i > |a| {
        assert SameBody(store, store', b[i - |a| - 1].id) && (a + [p] + b)[i] == b[i - |a| - 1];
      }
    }
    Regroup(ExpandAll(store, a), p1, [left, Slot(right, At(key))], p2, ExpandAll(store, b));
  }

  lemma {:induction false} InStore(t: Tree, l: nat, i: nat)
    requires RowsOk(t) && l < |t.rows| && i < |t.rows[l]|
    ensures t.rows[l][i].id in t.store && t.rows[l][i].id in t.height && t.height[t.rows[l][i].id] == |t.rows| - 1 - l
  {
    assert RowOk(t.height, t.rows[l], |t.rows| - 1 - l);
  }

  /** What adding a child needs to know of a pending tree. */
  lemma {:induction false} PendingRight(t: Tree, l: nat, x: Row, left: Slot, key: Key, right: Id, y: Row,
                                        loose: set<Id>)
    requires Pending(t, l, x, left, key, right, y, loose)
    ensures right in t.store && right in t.height && t.height[right] == |t.rows| - 1 - l && left.id in t.store &&
            left.id != right
    ensures Without(x + [left] + y, right)
  {
    var row, old_ := t.rows[l], x + [left] + y;
    assert row[|x| + 1] == Slot(right, At(key)) && row[|x|] == left;
    InStore(t, l, |x| + 1);
    InStore(t, l, |x|);
    assert RowOk(t.height, row, |t.rows| - 1 - l);
    forall i | 0 <= i < |old_| ensures old_[i].id != right {
      if i <= |x| { assert row[i] == old_[i]; } else { assert row[i + 1] == old_[i]; }
    }
  }

  lemma {:induction false} SpotHeight(t: Tree, l: nat, x: Row, left: Slot, y: Row, a: Row, p: Slot, b: Row, p1: Row,
                                      p2: Row)
    requires RowsOk(t) && Spot(t, l, x, left, y, a, p, b, p1, p2)
    ensures p.id in t.height && t.height[p.id] == |t.rows| - l
  {
    assert t.rows[l - 1][|a|] == p;
    InStore(t, l - 1, |a|);
  }

  lemma {:induction false} AddedPointsBack(store: Store, p: Id, pos: nat, key: Key, right: Id, loose: set<Id>)
    requires IsInner(store, p) && pos <= |store[p].keys| && right in store && right != p && right !in store[p].kids
    requires PointsBack(store, p, loose)
    ensures IsInner(AddedKid(store, p, pos, key, right), p) && PointsBack(AddedKid(store, p, pos, key, right), p, loose)
  {
    var store' := AddedKid(store, p, pos, key, right);
    var kids, kids' := store[p].kids, store'[p].kids;
    forall j | 0 <= j < |kids'| ensures kids'[j] in loose || (kids'[j] in store' && store'[kids'[j]].parent == To(p)) {
      if j <= pos { assert kids'[j] == kids[j]; } else if j > pos + 1 { assert kids'[j] == kids[j - 1]; }
    }
  }

  /** The row that row `m` expands to, while a node is pending. */
  function RowUnder(t: Tree, l: nat, x: Row, left: Slot, y: Row, m: nat): Row
    requires m < |t.rows| - 1
  {
    if m + 1 == l then x + [left] + y else t.rows[m + 1]
  }

  predicate Without(row: Row, id: Id) {
    forall n :: 0 <= n < |row| ==> row[n].id != id
  }

  lemma {:induction false} RowWithout(t: Tree, m: nat, id: Id)
    requires RowsOk(t) && m < |t.rows| && id in t.height && t.height[id] != |t.rows| - 1 - m
    ensures Without(t.rows[m], id)
  {
    var row := t.rows[m];
    forall n | 0 <= n < |row| ensures row[n].id != id { InStore(t, m, n); }
  }

  lemma {:induction false} BelowIsLinked(t: Tree, l: nat, x: Row, left: Slot, key: Key, right: Id, y: Row,
                                         loose: set<Id>, m: nat)
    requires Pending(t, l, x, left, key, right, y, loose) && m < |t.rows| - 1
    ensures Linked(t.store, t.rows[m], RowUnder(t, l, x, left, y, m)) && RowPointsBack(t.store, t.rows[m], loose)
    ensures Without(RowUnder(t, l, x, left, y, m), right)
  {
    hide *;
    PendingRight(t, l, x, left, key, right, y, loose);
    PendingLink(t, l, x, left, key, right, y, loose, m);
    if m + 1 != l { RowWithout(t, m + 1, right); }
  }

  lemma {:induction false} PendingLink(t: Tree, l: nat, x: Row, left: Slot, key: Key, right: Id, y: Row,
                                       loose: set<Id>, m: nat)
    requires Pending(t, l, x, left, key, right, y, loose) && m < |t.rows| - 1
    ensures Linked(t.store, t.rows[m], RowUnder(t, l, x, left, y, m)) && RowPointsBack(t.store, t.rows[m], loose) &&
            RowsOk(t)
    ensures RowUnder(t, l, x, left, y, m) == if m + 1 == l then x + [left] + y else t.rows[m + 1]
  {
    hide Linked, RowPointsBack, RowsOk, LeavesOk, SizesOk;
  }

  /** Only node `p` has changed, and the parent of `right`. */
  predicate Rest(store: Store, store': Store, p: Id, right: Id) {
    && (forall id :: id in store ==> id in store' && (id != right ==> store'[id].parent == store[id].parent))
    && (forall id :: id in store && id != p ==> SameBody(store, store', id))
  }

  lemma {:induction false} AddedRest(store: Store, p: Id, pos: nat, key: Key, right: Id)
    requires IsInner(store, p) && pos <= |store[p].keys| && right in store && right != p
    ensures Rest(store, AddedKid(store, p, pos, key, right), p, right)
  {
  }

  lemma {:induction false} AddedRow(store: Store, upper: Row, lower: Row, loose: set<Id>, p: Id, pos: nat, key: Key,
                                    right: Id)
    requires IsInner(store, p) && p != right && pos <= |store[p].keys| && right in store
    requires RowPointsBack(store, upper, loose) && Linked(store, upper, lower) && Without(lower, right)
    ensures RowPointsBack(AddedKid(store, p, pos, key, right), upper, loose)
  {
    var store' := AddedKid(store, p, pos, key, right);
    AddedRest(store, p, pos, key, right);
    forall i | 0 <= i < |upper| ensures IsInner(store', upper[i].id) && PointsBack(store', upper[i].id, loose) {
      assert IsInner(store, upper[i].id) && PointsBack(store, upper[i].id, loose);
      KidsAreBelow(store, upper, lower, i, right);
      if upper[i].id == p {
        AddedPointsBack(store, p, pos, key, right, loose);
      } else {
        StillPointsBack(store, store', upper[i].id, loose, p, right);
      }
    }
  }

  lemma {:induction false} KidsAreBelow(store: Store, upper: Row, lower: Row, i: nat, right: Id)
    requires Linked(store, upper, lower) && i < |upper| && Without(lower, right)
    ensures IsInner(store, upper[i].id) && right !in store[upper[i].id].kids
  {
    assert IsInner(store, upper[i].id);
    var kids := store[upper[i].id].kids;
    forall j | 0 <= j < |kids| ensures kids[j] != right { var n := KidIsBelow(store, upper, lower, i, j); }
  }

  /** A node that points back still does once `right` has its parent. */
  lemma {:induction false} StillPointsBack(store: Store, store': Store, q: Id, loose: set<Id>, p: Id, right: Id)
    requires Rest(store, store', p, right) && IsInner(store, q) && PointsBack(store, q, loose) && q != p &&
             right !in store[q].kids
    ensures IsInner(store', q) && PointsBack(store', q, loose)
  {
    assert SameBody(store, store', q);
  }

  lemma {:induction false} AddedSizes(t: Tree, l: nat, a: Row, p: Slot, b: Row, pos: nat, key: Key, right: Id, m: nat)
    requires RowsOk(t) && SizesOk(t, true, {}) && 0 < l < |t.rows| && t.rows[l - 1] == a + [p] + b
    requires IsInner(t.store, p.id) && pos <= |t.store[p.id].keys| && right in t.store && right != p.id && m < |t.rows|
    ensures RowSizes(AddedKid(t.store, p.id, pos, key, right), t.rows[m], m == 0, {p.id})
  {
    var store', row := AddedKid(t.store, p.id, pos, key, right), t.rows[m];
    assert RowSizes(t.store, row, m == 0, {});
    forall i | 0 <= i < |row|
      ensures row[i].id in store' && SizeOk(store', row[i].id, m == 0, Spare({p.id}, row[i].id))
    {
      assert SizeOk(t.store, row[i].id, m == 0, 0);
    }
  }

  lemma {:induction false} AddedLinked(t: Tree, l: nat, x: Row, left: Slot, key: Key, right: Id, y: Row, loose: set<Id>,
                                       a: Row, p: Slot, b: Row, p1: Row, p2: Row, m: nat)
    requires Pending(t, l, x, left, key, right, y, loose) && Spot(t, l, x, left, y, a, p, b, p1, p2) && right != p.id
    requires |p1| <= |t.store[p.id].keys| && right in t.store && m < |t.rows|
    ensures m < |t.rows| - 1 ==> Linked(AddedKid(t.store, p.id, |p1|, key, right), t.rows[m], t.rows[m + 1])
    ensures m == |t.rows| - 1 ==> LeavesOk(AddedKid(t.store, p.id, |p1|, key, right), t.rows[m])
  {
    var store' := AddedKid(t.store, p.id, |p1|, key, right);
    forall i | 0 <= i < |t.rows[m]| ensures t.rows[m][i].id in t.store { InStore(t, m, i); }
    AddedSame(t, l, a, p, b, |p1|, key, right, m);
    if m == |t.rows| - 1 {
      LeavesSame(t.store, store', t.rows[m]);
    } else if m == l - 1 {
      AddedLinks(t.store, store', a, p, b, p1, left, p2, key, right);
    } else {
      LinkedSame(t.store, store', t.rows[m], t.rows[m + 1]);
    }
  }

  lemma {:induction false} MakeLinks(t: Tree)
    requires forall m :: 0 <= m < |t.rows| - 1 ==> Linked(t.store, t.rows[m], Next(t.rows, m))
    ensures LinksOk(t, -1)
  {
    forall l | 0 <= l < |t.rows| - 1 ensures Linked(t.store, t.rows[l], t.rows[l + 1]) {
      assert Linked(t.store, t.rows[l], Next(t.rows, l));
    }
  }

  function Next(rows: seq<Row>, m: nat): Row { if m + 1 < |rows| then rows[m + 1] else [] }

  lemma {:induction false} AddedLinksOk(t: Tree, l: nat, x: Row, left: Slot, key: Key, right: Id, y: Row,
                                        loose: set<Id>,
                                        a: Row, p: Slot, b: Row, p1: Row, p2: Row)
    requires Pending(t, l, x, left, key, right, y, loose) && Spot(t, l, x, left, y, a, p, b, p1, p2) && right != p.id
    requires |p1| <= |t.store[p.id].keys| && right in t.store
    ensures LinksOk(t.(store := AddedKid(t.store, p.id, |p1|, key, right)), -1)
    ensures t.rows != [] && LeavesOk(AddedKid(t.store, p.id, |p1|, key, right), t.rows[|t.rows| - 1])
  {
    hide *;
    PendingBasics(t, l, x, left, key, right, y, loose);
    SpotBasics(t, l, x, left, y, a, p, b, p1, p2);
    var store' := AddedKid(t.store, p.id, |p1|, key, right);
    AddedLinked(t, l, x, left, key, right, y, loose, a, p, b, p1, p2, |t.rows| - 1);
    forall m | 0 <= m < |t.rows| - 1 ensures Linked(store', t.rows[m], Next(t.rows, m)) {
      AddedLinked(t, l, x, left, key, right, y, loose, a, p, b, p1, p2, m);
      NextIs(t.rows, m);
    }
    MakeLinks(t.(store := store'));
  }

  lemma {:induction false} PendingBasics(t: Tree, l: nat, x: Row, left: Slot, key: Key, right: Id, y: Row,
                                         loose: set<Id>)
    requires Pending(t, l, x, left, key, right, y, loose)
    ensures RowsOk(t) && |t.rows| >= 1 && l < |t.rows| && SizesOk(t, l != 0, {}) &&
            (l > 0 ==> t.rows[0] == [Slot(t.root, Bottom)])
  {
  }

  lemma {:induction false} SpotBasics(t: Tree, l: nat, x: Row, left: Slot, y: Row, a: Row, p: Slot, b: Row, p1: Row,
                                      p2: Row)
    requires Spot(t, l, x, left, y, a, p, b, p1, p2)
    ensures 0 < l < |t.rows| && t.rows[l - 1] == a + [p] + b && IsInner(t.store, p.id)
  {
  }

  lemma {:induction false} AddedKeys(store: Store, p: Id, pos: nat, key: Key, right: Id)
    requires IsInner(store, p) && pos <= |store[p].keys| && right in store
    ensures AddedKid(store, p, pos, key, right).Keys == store.Keys
  {
  }

  lemma {:induction false} MakeGood(t: Tree, loose: set<Id>, fat: set<Id>)
    requires RowsOk(t) && |t.rows| >= 1 && t.rows[0] == [Slot(t.root, Bottom)] && LinksOk(t, -1)
    requires LeavesOk(t.store, t.rows[|t.rows| - 1]) && ParentsOk(t, loose) && SizesOk(t, true, fat)
    ensures Good(t, loose, fat)
  {
  }

  lemma {:induction false} NextIs(rows: seq<Row>, m: nat)
    requires m + 1 < |rows|
    ensures Next(rows, m) == rows[m + 1]
  {
  }

  lemma {:induction false} AddedParentsOk(t: Tree, l: nat, x: Row, left: Slot, key: Key, right: Id, y: Row,
                                          loose: set<Id>, p: Id, pos: nat)
    requires Pending(t, l, x, left, key, right, y, loose) && IsInner(t.store, p) && p != right && l > 0
    requires pos <= |t.store[p].keys| && right in t.store
    ensures ParentsOk(t.(store := AddedKid(t.store, p, pos, key, right)), loose)
  {
    var store' := AddedKid(t.store, p, pos, key, right);
    PendingRight(t, l, x, left, key, right, y, loose);
    InStore(t, 0, 0);
    assert store'[t.root].parent == Null;
    forall m | 0 <= m < |t.rows| - 1 ensures RowPointsBack(store', t.rows[m], loose) {
      hide *;
      BelowIsLinked(t, l, x, left, key, right, y, loose, m);
      AddedRow(t.store, t.rows[m], RowUnder(t, l, x, left, y, m), loose, p, pos, key, right);
    }
  }

  lemma {:induction false} AddedSizesOk(t: Tree, l: nat, a: Row, p: Slot, b: Row, pos: nat, key: Key, right: Id)
    requires RowsOk(t) && SizesOk(t, true, {}) && 0 < l < |t.rows| && t.rows[l - 1] == a + [p] + b
    requires IsInner(t.store, p.id) && pos <= |t.store[p.id].keys| && right in t.store && right != p.id
    ensures SizesOk(t.(store := AddedKid(t.store, p.id, pos, key, right)), true, {p.id})
  {
    forall m | 0 <= m < |t.rows| ensures RowSizes(AddedKid(t.store, p.id, pos, key, right), t.rows[m], m == 0, {p.id}) {
      AddedSizes(t, l, a, p, b, pos, key, right, m);
    }
  }

  lemma {:induction false} SameKeys(t: Tree, store': Store)
    requires RowsOk(t) && store'.Keys == t.store.Keys
    ensures RowsOk(t.(store := store'))
  {
  }

  /** Adding the pending node to its parent makes the tree whole, though the parent may
      now be too big. */
  lemma {:induction false} KidAdded(t: Tree, l: nat, x: Row, left: Slot, key: Key, right: Id, y: Row, loose: set<Id>,
                                    a: Row, p: Slot, b: Row, p1: Row, p2: Row)
    requires Pending(t, l, x, left, key, right, y, loose) && Spot(t, l, x, left, y, a, p, b, p1, p2)
    requires |p1| <= |t.store[p.id].keys| && right in t.store
    ensures Good(t.(store := AddedKid(t.store, p.id, |p1|, key, right)), loose, {p.id})
  {
    hide *;
    PendingBasics(t, l, x, left, key, right, y, loose);
    SpotBasics(t, l, x, left, y, a, p, b, p1, p2);
    var store' := AddedKid(t.store, p.id, |p1|, key, right);
    PendingRight(t, l, x, left, key, right, y, loose);
    SpotHeight(t, l, x, left, y, a, p, b, p1, p2);
    AddedKeys(t.store, p.id, |p1|, key, right);
    SameKeys(t, store');
    AddedSizesOk(t, l, a, p, b, |p1|, key, right);
    AddedLinksOk(t, l, x, left, key, right, y, loose, a, p, b, p1, p2);
    AddedParentsOk(t, l, x, left, key, right, y, loose, p.id, |p1|);
    MakeGood(t.(store := store'), loose, {p.id});
  }
}

/** The leaves of a B+tree of Metis (lib/btree.hh): what they hold, finding one,
    changing one, splitting one. */
module BTreeLeaves {
  import opened BTrees
  import opened BTreeRows
  import opened BTreeShapes
  import opened BTreeSplits

  // ----- what a tree holds -----

  function PairsOf(store: Store, s: Slot): seq<Pair> {
    if IsLeaf(store, s.id) then store[s.id].pairs else []
  }

  /** The pairs of a row of leaves, from left to right. */
  function Contents(store: Store, row: Row): seq<Pair> {
    if row == [] then [] else Contents(store, row[..|row| - 1]) + PairsOf(store, row[|row| - 1])
  }

  lemma {:induction false} ContentsSnoc(store: Store, row: Row, s: Slot)
    ensures Contents(store, row + [s]) == Contents(store, row) + PairsOf(store, s)
  {
    assert (row + [s])[..|row|] == row;
  }

  lemma {:induction false} ContentsConcat(store: Store, a: Row, b: Row)
    ensures Contents(store, a + b) == Contents(store, a) + Contents(store, b)
  {
    if b == [] {
      assert a + b == a;
    } else {
      var m := |b| - 1;
      assert a + b == (a + b[..m]) + [b[m]];
      ContentsSnoc(store, a + b[..m], b[m]);
      ContentsConcat(store, a, b[..m]);
    }
  }

  lemma {:induction false} ContentsSame(store: Store, store': Store, row: Row)
    requires SameBodies(store, store', row)
    ensures Contents(store', row) == Contents(store, row)
  {
    if row != [] {
      assert SameBody(store, store', row[|row| - 1].id);
      ContentsSame(store, store', row[..|row| - 1]);
    }
  }

  lemma {:induction false} FenceTrans(row: Row, i: nat, j: nat, k: Key)
    requires Ascending(row) && i < j < |row| && Fits(row, i, k)
    ensures Less(At(k), row[j].fence)
  {
    assert Less(row[i].fence, row[j].fence);
    if i + 1 < j { assert Less(row[i + 1].fence, row[j].fence); }
  }

  /** The keys of the leaves before one are smaller than any that fit it, and those of
      the leaves after it greater. */
  lemma {:induction false} ContentsBefore(store: Store, row: Row, n: nat, i: nat, k: Key)
    requires Ascending(row) && LeavesOk(store, row) && n <= i < |row| && !Less(At(k), row[i].fence)
    ensures forall p :: p in Contents(store, row[..n]) ==> p.key < k
  {
    if n > 0 {
      ContentsBefore(store, row, n - 1, i, k);
      assert row[..n] == row[..n - 1] + [row[n - 1]];
      ContentsSnoc(store, row[..n - 1], row[n - 1]);
      assert LeafOk(store, row, n - 1);
      var pairs := PairsOf(store, row[n - 1]);
      forall j | 0 <= j < |pairs| ensures pairs[j].key < k { FenceTrans(row, n - 1, i, pairs[j].key); }
    }
  }

  lemma {:induction false} ContentsAfter(store: Store, row: Row, n: nat, i: nat, k: Key)
    requires Ascending(row) && LeavesOk(store, row) && i < n <= |row| && Fits(row, i, k)
    ensures forall p :: p in Contents(store, row[n..]) ==> k < p.key
    decreases |row| - n
  {
    hide *;
    ContentsNothing(store);
    if n < |row| {
      ContentsAfter(store, row, n + 1, i, k);
      LeafAbove(store, row, n, i, k);
      assert row[n..] == [row[n]] + row[n + 1..] && [] + [row[n]] == [row[n]];
      ContentsConcat(store, [row[n]], row[n + 1..]);
      ContentsSnoc(store, [], row[n]);
    } else {
      assert row[n..] == [];
    }
  }

  lemma {:induction false} ContentsNothing(store: Store)
    ensures Contents(store, []) == []
  {
  }

  lemma {:induction false} LeafAbove(store: Store, row: Row, n: nat, i: nat, k: Key)
    requires Ascending(row) && LeavesOk(store, row) && i < n < |row| && Fits(row, i, k)
    ensures forall p :: p in PairsOf(store, row[n]) ==> k < p.key
  {
    assert LeafOk(store, row, n);
    FenceTrans(row, i, n, k);
  }

  /** Where the pairs of a leaf stand among all pairs. */
  lemma {:induction false} ContentsAround(store: Store, row: Row, i: nat)
    requires i < |row|
    ensures Contents(store, row) == Contents(store, row[..i]) + PairsOf(store, row[i]) + Contents(store, row[i + 1..])
  {
    assert row == row[..i] + [row[i]] + row[i + 1..];
    ContentsConcat(store, row[..i] + [row[i]], row[i + 1..]);
    ContentsSnoc(store, row[..i], row[i]);
  }

  lemma {:induction false} ContentsSorted(store: Store, row: Row, n: nat)
    requires Ascending(row) && LeavesOk(store, row) && n <= |row|
    ensures SortedPairs(Contents(store, row[..n]))
  {
    if n > 0 {
      ContentsSorted(store, row, n - 1);
      assert row[..n] == row[..n - 1] + [row[n - 1]];
      ContentsSnoc(store, row[..n - 1], row[n - 1]);
      assert LeafOk(store, row, n - 1);
      var before, pairs := Contents(store, row[..n - 1]), PairsOf(store, row[n - 1]);
      forall i, j | 0 <= i < |before| && 0 <= j < |pairs| ensures before[i].key < pairs[j].key {
        ContentsBefore(store, row, n - 1, n - 1, pairs[j].key);
        assert before[i] in before;
      }
    }
  }

  // ----- finding a leaf -----

  /** Where the children of node `i` of a row begin in the next row. */
  function Offset(store: Store, upper: Row, i: nat): nat
    requires i <= |upper|
  {
    |ExpandAll(store, upper[..i])|
  }

  lemma {:induction false} OffsetEnd(store: Store, upper: Row, lower: Row)
    requires Linked(store, upper, lower)
    ensures Offset(store, upper, |upper|) == |lower|
  {
    assert upper[..|upper|] == upper;
  }

  /** The children of a node stand in the next row from `off` on. */
  predicate Segment(lower: Row, off: nat, fence: Fence, keys: seq<Key>, kids: seq<Id>) {
    |kids| == |keys| + 1 && off + |kids| <= |lower| && lower[off..off + |kids|] == ExpandNode(fence, keys, kids)
  }

  lemma {:induction false} SegmentAt(lower: Row, off: nat, fence: Fence, keys: seq<Key>, kids: seq<Id>, j: nat)
    requires Segment(lower, off, fence, keys, kids) && j <= |keys|
    ensures |kids| == |keys| + 1 && off + |kids| <= |lower|
    ensures lower[off + j] == Slot(kids[j], if j == 0 then fence else At(keys[j - 1]))
  {
    assert lower[off + j] == lower[off..off + |kids|][j];
  }

  lemma {:induction false} SegmentOf(store: Store, upper: Row, lower: Row, i: nat)
    requires Linked(store, upper, lower) && i < |upper|
    ensures IsInner(store, upper[i].id)
    ensures Segment(lower, Offset(store, upper, i), upper[i].fence, store[upper[i].id].keys, store[upper[i].id].kids)
    ensures Offset(store, upper, i + 1) == Offset(store, upper, i) + |store[upper[i].id].kids|
  {
    assert IsInner(store, upper[i].id);
    ExpandSlice(store, upper, i);
  }

  lemma {:induction false} ExpandSlice(store: Store, upper: Row, i: nat)
    requires i < |upper|
    ensures var off, e, all := Offset(store, upper, i), Expand(store, upper[i]), ExpandAll(store, upper);
            off + |e| == Offset(store, upper, i + 1) <= |all| && all[off..off + |e|] == e
  {
    var a, b := upper[..i], upper[i + 1..];
    assert upper == (a + [upper[i]]) + b && upper[..i + 1] == a + [upper[i]];
    ExpandAllConcat(store, a + [upper[i]], b);
    ExpandAllSnoc(store, a, upper[i]);
    hide ExpandAll, Expand;
    Slice(ExpandAll(store, a), Expand(store, upper[i]), ExpandAll(store, b));
  }

  lemma {:induction false} Slice<T>(a: seq<T>, e: seq<T>, b: seq<T>)
    ensures ((a + e) + b)[|a|..|a| + |e|] == e
  {
  }

  /** The child that a search goes on to is the one the key fits. */
  lemma {:induction false} Descend(store: Store, upper: Row, lower: Row, i: nat, k: Key, keys: seq<Key>,
                                   kids: seq<Id>, pos: nat) returns (n: nat)
    requires Linked(store, upper, lower) && i < |upper| && Fits(upper, i, k)
    requires IsInner(store, upper[i].id) && keys == store[upper[i].id].keys && kids == store[upper[i].id].kids &&
             pos <= |keys|
    requires forall j :: 0 <= j < pos ==> keys[j] <= k
    requires forall j :: pos <= j < |keys| ==> k < keys[j]
    ensures n < |lower| && |kids| == |keys| + 1 && lower[n].id == kids[pos] && Fits(lower, n, k)
  {
    hide *;
    var off := Offset(store, upper, i);
    n := off + pos;
    SegmentOf(store, upper, lower, i);
    SegmentAt(lower, off, upper[i].fence, keys, kids, pos);
    if pos < |keys| {
      SegmentAt(lower, off, upper[i].fence, keys, kids, pos + 1);
      FitsChild(upper, i, lower, n, k, keys, pos);
    } else {
      if i + 1 < |upper| {
        SegmentOf(store, upper, lower, i + 1);
        SegmentAt(lower, off + |kids|, upper[i + 1].fence, store[upper[i + 1].id].keys, store[upper[i + 1].id].kids, 0);
      } else {
        OffsetEnd(store, upper, lower);
      }
      FitsChild(upper, i, lower, n, k, keys, pos);
    }
  }

  lemma {:induction false} FitsChild(upper: Row, i: nat, lower: Row, n: nat, k: Key, keys: seq<Key>, pos: nat)
    requires i < |upper| && Fits(upper, i, k) && pos <= |keys| && n < |lower|
    requires pos > 0 ==> keys[pos - 1] <= k
    requires pos < |keys| ==> k < keys[pos]
    requires lower[n].fence == if pos == 0 then upper[i].fence else At(keys[pos - 1])
    requires n + 1 < |lower| ==>
               if pos < |keys| then lower[n + 1].fence == At(keys[pos])
                 else i + 1 < |upper| && lower[n + 1].fence == upper[i + 1].fence
    ensures Fits(lower, n, k)
  {
  }

  /** The keys of an inner node go up. */
  lemma {:induction false} KeysIncrease(store: Store, upper: Row, lower: Row, i: nat)
    requires Linked(store, upper, lower) && Ascending(lower) && i < |upper|
    ensures IsInner(store, upper[i].id) && Increasing(store[upper[i].id].keys)
  {
    SegmentOf(store, upper, lower, i);
    SegmentIncreases(lower, Offset(store, upper, i), upper[i].fence, store[upper[i].id].keys, store[upper[i].id].kids);
  }

  lemma {:induction false} SegmentIncreases(lower: Row, off: nat, fence: Fence, keys: seq<Key>, kids: seq<Id>)
    requires Segment(lower, off, fence, keys, kids) && Ascending(lower)
    ensures Increasing(keys)
  {
    forall a, b | 0 <= a < b < |keys| ensures keys[a] < keys[b] {
      SegmentAt(lower, off, fence, keys, kids, a + 1);
      SegmentAt(lower, off, fence, keys, kids, b + 1);
      assert Less(lower[off + a + 1].fence, lower[off + b + 1].fence);
    }
  }

  // ----- changing a leaf -----

  /** The tree's row of leaves, and the store with other pairs in one of them. */
  function Leaves(t: Tree): Row
    requires |t.rows| >= 1
  {
    t.rows[|t.rows| - 1]
  }

  function WithPairs(store: Store, id: Id, pairs: seq<Pair>): Store
    requires IsLeaf(store, id)
  {
    store[id := Leaf(store[id].parent, pairs, store[id].next)]
  }

  lemma {:induction false} LeafHeight(t: Tree, i: nat)
    requires RowsOk(t) && i < |Leaves(t)|
    ensures Leaves(t)[i].id in t.height && t.height[Leaves(t)[i].id] == 0 && Leaves(t)[i].id in t.store
  {
    InStore(t, |t.rows| - 1, i);
  }

  /** Rows of inner nodes do not change when a leaf does. */
  lemma {:induction false} InnerSame(t: Tree, store': Store, id: Id, m: nat)
    requires RowsOk(t) && id in t.height && t.height[id] == 0 && m < |t.rows| - 1
    requires forall q :: q in t.store && q != id ==> q in store' && store'[q] == t.store[q]
    ensures SameBodies(t.store, store', t.rows[m])
  {
    var row := t.rows[m];
    forall i | 0 <= i < |row| ensures SameBody(t.store, store', row[i].id) { InStore(t, m, i); }
  }

  predicate Only(store: Store, store': Store, id: Id) {
    && (forall q :: q in store && q != id ==> q in store' && store'[q] == store[q])
    && id in store && id in store' && store'[id].parent == store[id].parent && (store[id].Inner? <==> store'[id].Inner?)
  }

  /** The rows of inner nodes are the same. */
  predicate SameUpper(t: Tree, t': Tree) {
    |t'.rows| == |t.rows| && forall m :: 0 <= m < |t.rows| - 1 ==> t'.rows[m] == t.rows[m]
  }

  lemma {:induction false} InnerLink(t: Tree, t': Tree, id: Id, m: nat)
    requires RowsOk(t) && id in t.height && t.height[id] == 0 && Only(t.store, t'.store, id) && LinksOk(t, -1)
    requires SameUpper(t, t') && m < |t.rows| - 1
    ensures Linked(t'.store, t'.rows[m], t.rows[m + 1]) && (m < |t.rows| - 2 ==> t'.rows[m + 1] == t.rows[m + 1])
  {
    assert t'.rows[m] == t.rows[m];
    GoodLink(t, m);
    InnerSame(t, t'.store, id, m);
    LinkedSame(t.store, t'.store, t.rows[m], t.rows[m + 1]);
  }

  lemma {:induction false} InnerLinks(t: Tree, t': Tree, id: Id)
    requires RowsOk(t) && |t.rows| >= 1 && id in t.height && t.height[id] == 0 && Only(t.store, t'.store, id) &&
             LinksOk(t, -1)
    requires SameUpper(t, t') && |t'.rows| == |t.rows|
    ensures LinksOk(t', |t.rows| - 2)
    ensures |t.rows| >= 2 ==> Linked(t'.store, t'.rows[|t.rows| - 2], t.rows[|t.rows| - 1])
  {
    hide Linked, RowsOk, Only, SameUpper;
    forall m | 0 <= m < |t'.rows| - 1 && m != |t.rows| - 2 ensures Linked(t'.store, t'.rows[m], t'.rows[m + 1]) {
      InnerLink(t, t', id, m);
    }
    if |t.rows| >= 2 { InnerLink(t, t', id, |t.rows| - 2); }
  }

  lemma {:induction false} InnerParents(t: Tree, t': Tree, id: Id, loose: set<Id>)
    requires RowsOk(t) && id in t.height && t.height[id] == 0 && Only(t.store, t'.store, id) && ParentsOk(t, loose)
    requires SameUpper(t, t') && t'.root == t.root
    ensures ParentsOk(t', loose)
  {
    forall m | 0 <= m < |t.rows| - 1 ensures RowPointsBack(t'.store, t'.rows[m], loose) {
      assert t'.rows[m] == t.rows[m];
      InnerSame(t, t'.store, id, m);
      RowStillPointsBack(t.store, t'.store, t.rows[m], loose, id);
    }
  }

  lemma {:induction false} RowStillPointsBack(store: Store, store': Store, row: Row, loose: set<Id>, id: Id)
    requires RowPointsBack(store, row, loose) && SameBodies(store, store', row) && Only(store, store', id)
    ensures RowPointsBack(store', row, loose)
  {
    forall i | 0 <= i < |row| ensures IsInner(store', row[i].id) && PointsBack(store', row[i].id, loose) {
      assert SameBody(store, store', row[i].id) && PointsBack(store, row[i].id, loose);
    }
  }

  lemma {:induction false} InnerSizes(t: Tree, t': Tree, id: Id, fat: set<Id>)
    requires RowsOk(t) && id in t.height && t.height[id] == 0 && Only(t.store, t'.store, id) && SizesOk(t, true, {})
    requires SameUpper(t, t')
    ensures forall m :: 0 <= m < |t.rows| - 1 ==> RowSizes(t'.store, t'.rows[m], m == 0, fat)
  {
    forall m | 0 <= m < |t.rows| - 1 ensures RowSizes(t'.store, t'.rows[m], m == 0, fat) {
      assert t'.rows[m] == t.rows[m];
      assert RowSizes(t.store, t.rows[m], m == 0, {});
      InnerSame(t, t'.store, id, m);
      SizesSame(t.store, t'.store, t.rows[m], m == 0, {});
      FatSizes(t'.store, t.rows[m], m == 0, fat);
    }
  }

  lemma {:induction false} FatSizes(store: Store, row: Row, isRoot: bool, fat: set<Id>)
    requires RowSizes(store, row, isRoot, {})
    ensures RowSizes(store, row, isRoot, fat)
  {
    forall i | 0 <= i < |row| ensures row[i].id in store && SizeOk(store, row[i].id, isRoot, Spare(fat, row[i].id)) {
      assert SizeOk(store, row[i].id, isRoot, Spare({}, row[i].id));
    }
  }

  /** A leaf with one more pair that fits is still a leaf of the row. */
  lemma {:induction false} PutLeaves(store: Store, row: Row, i: nat, pairs: seq<Pair>)
    requires Ascending(row) && NoDup(row) && LeavesOk(store, row) && i < |row| && IsLeaf(store, row[i].id)
    requires SortedPairs(pairs) && forall j :: 0 <= j < |pairs| ==> Fits(row, i, pairs[j].key)
    ensures LeavesOk(WithPairs(store, row[i].id, pairs), row)
  {
    var store' := WithPairs(store, row[i].id, pairs);
    forall n | 0 <= n < |row| ensures LeafOk(store', row, n) { assert LeafOk(store, row, n); }
  }

  lemma {:induction false} PutFits(apply: Apply, row: Row, i: nat, pairs: seq<Pair>, k: Key, v: int)
    requires i < |row| && SortedPairs(pairs) && Fits(row, i, k) &&
             forall j :: 0 <= j < |pairs| ==> Fits(row, i, pairs[j].key)
    ensures SortedPairs(Put(apply, pairs, k, v)) && |pairs| <= |Put(apply, pairs, k, v)| <= |pairs| + 1
    ensures forall j :: 0 <= j < |Put(apply, pairs, k, v)| ==> Fits(row, i, Put(apply, pairs, k, v)[j].key)
  {
    PutIsUpdate(apply, pairs, k, v);
    var put := Put(apply, pairs, k, v);
    hide Put;
    forall j | 0 <= j < |put| ensures Fits(row, i, put[j].key) {
      if put[j].key != k {
        assert put[j] in pairs;
        var n :| 0 <= n < |pairs| && pairs[n] == put[j];
      }
    }
  }

  lemma {:induction false} PutContents(apply: Apply, store: Store, row: Row, i: nat, k: Key, v: int)
    requires Ascending(row) && NoDup(row) && LeavesOk(store, row) && i < |row| && IsLeaf(store, row[i].id) &&
             Fits(row, i, k)
    ensures Contents(WithPairs(store, row[i].id, Put(apply, store[row[i].id].pairs, k, v)), row) ==
            Put(apply, Contents(store, row), k, v)
    ensures Holds(Contents(store, row), k) <==> Holds(store[row[i].id].pairs, k)
  {
    var m, put := store[row[i].id].pairs, Put(apply, store[row[i].id].pairs, k, v);
    var store' := WithPairs(store, row[i].id, put);
    var a, b := Contents(store, row[..i]), Contents(store, row[i + 1..]);
    ContentsAround(store, row, i);
    ContentsAround(store', row, i);
    OthersSame(store, row, i, put);
    ContentsSame(store, store', row[..i]);
    ContentsSame(store, store', row[i + 1..]);
    ContentsBefore(store, row, i, i, k);
    ContentsAfter(store, row, i + 1, i, k);
    assert PairsOf(store, row[i]) == m && PairsOf(store', row[i]) == put;
    hide *;
    AllBelow(a, k);
    AllAbove(b, k);
    BelowIsLocal(a, m, b, k);
    PutIsLocal(apply, a, m, b, k, v);
  }

  lemma {:induction false} AllBelow(a: seq<Pair>, k: Key)
    requires forall p :: p in a ==> p.key < k
    ensures forall i :: 0 <= i < |a| ==> a[i].key < k
  {
  }

  lemma {:induction false} AllAbove(b: seq<Pair>, k: Key)
    requires forall p :: p in b ==> k < p.key
    ensures forall i :: 0 <= i < |b| ==> k < b[i].key
  {
  }

  lemma {:induction false} OthersSame(store: Store, row: Row, i: nat, pairs: seq<Pair>)
    requires NoDup(row) && LeavesOk(store, row) && i < |row| && IsLeaf(store, row[i].id)
    ensures SameBodies(store, WithPairs(store, row[i].id, pairs), row[..i]) &&
            SameBodies(store, WithPairs(store, row[i].id, pairs), row[i + 1..])
  {
    var store', x, y := WithPairs(store, row[i].id, pairs), row[..i], row[i + 1..];
    forall j | 0 <= j < |x| ensures SameBody(store, store', x[j].id) { assert LeafOk(store, row, j); }
    forall j | 0 <= j < |y| ensures SameBody(store, store', y[j].id) { assert LeafOk(store, row, i + 1 + j); }
  }

  lemma {:induction false} PutSizes(t: Tree, i: nat, pairs: seq<Pair>)
    requires RowsOk(t) && SizesOk(t, true, {}) && i < |Leaves(t)| && LeavesOk(t.store, Leaves(t)) &&
             IsLeaf(t.store, Leaves(t)[i].id)
    requires |t.store[Leaves(t)[i].id].pairs| <= |pairs| <= |t.store[Leaves(t)[i].id].pairs| + 1
    ensures SizesOk(t.(store := WithPairs(t.store, Leaves(t)[i].id, pairs)), true, {Leaves(t)[i].id})
  {
    var id, row := Leaves(t)[i].id, Leaves(t);
    var t' := t.(store := WithPairs(t.store, id, pairs));
    LeafHeight(t, i);
    InnerSizes(t, t', id, {id});
    forall m | 0 <= m < |t.rows| ensures RowSizes(t'.store, t'.rows[m], m == 0, {id}) {
      if m == |t.rows| - 1 {
        assert RowSizes(t.store, row, m == 0, {});
        forall n | 0 <= n < |row|
          ensures row[n].id in t'.store && SizeOk(t'.store, row[n].id, m == 0, Spare({id}, row[n].id))
        {
          assert SizeOk(t.store, row[n].id, m == 0, Spare({}, row[n].id)) && LeafOk(t.store, row, n);
        }
      }
    }
  }

  lemma {:induction false} OnlyPairs(store: Store, id: Id, pairs: seq<Pair>)
    requires IsLeaf(store, id)
    ensures Only(store, WithPairs(store, id, pairs), id) && WithPairs(store, id, pairs).Keys == store.Keys
  {
  }

  lemma {:induction false} SameUpperSelf(t: Tree, store': Store)
    ensures SameUpper(t, t.(store := store')) && t.(store := store').rows == t.rows
  {
  }

  lemma {:induction false} AllLinks(t: Tree)
    requires |t.rows| >= 1 && LinksOk(t, |t.rows| - 2)
    requires |t.rows| >= 2 ==> Linked(t.store, t.rows[|t.rows| - 2], t.rows[|t.rows| - 1])
    ensures LinksOk(t, -1)
  {
  }

  lemma {:induction false} LeafRowOk(t: Tree)
    requires RowsOk(t)
    ensures |t.rows| >= 1 && Ascending(Leaves(t)) && NoDup(Leaves(t))
  {
    assert RowOk(t.height, Leaves(t), 0);
  }

  lemma {:induction false} LeafAt(store: Store, row: Row, i: nat)
    requires LeavesOk(store, row) && i < |row|
    ensures IsLeaf(store, row[i].id) && LeafOk(store, row, i) && SortedPairs(store[row[i].id].pairs)
    ensures forall j :: 0 <= j < |store[row[i].id].pairs| ==> Fits(row, i, store[row[i].id].pairs[j].key)
  {
    assert LeafOk(store, row, i);
  }

  /** Applying a value in the leaf its key fits is Put on what the tree holds; only the
      leaf may have become too big. */
  lemma {:induction false} LeafPut(apply: Apply, t: Tree, i: nat, k: Key, v: int)
    requires Good(t, {}, {}) && i < |Leaves(t)| && Fits(Leaves(t), i, k) && IsLeaf(t.store, Leaves(t)[i].id)
    ensures var id := Leaves(t)[i].id;
            var store' := WithPairs(t.store, id, Put(apply, t.store[id].pairs, k, v));
            Good(t.(store := store'), {}, {id}) &&
            Contents(store', Leaves(t)) == Put(apply, Contents(t.store, Leaves(t)), k, v)
    ensures Holds(Contents(t.store, Leaves(t)), k) <==> Holds(t.store[Leaves(t)[i].id].pairs, k)
  {
    var row := Leaves(t);
    var id := row[i].id;
    hide *;
    GoodParts(t, {}, {});
    LeavesAre(t);
    LeafAt(t.store, row, i);
    LeafRowOk(t);
    LeafHeight(t, i);
    var put := Put(apply, t.store[id].pairs, k, v);
    var t' := t.(store := WithPairs(t.store, id, put));
    PutFits(apply, row, i, t.store[id].pairs, k, v);
    PutContents(apply, t.store, row, i, k, v);
    PutLeaves(t.store, row, i, put);
    PutSizes(t, i, put);
    OnlyPairs(t.store, id, put);
    SameUpperSelf(t, t'.store);
    InnerLinks(t, t', id);
    InnerParents(t, t', id, {});
    AllLinks(t');
    SameKeys(t, t'.store);
    MakeGood(t', {}, {id});
  }

  lemma {:induction false} LeavesAre(t: Tree)
    requires |t.rows| >= 1
    ensures Leaves(t) == t.rows[|t.rows| - 1]
  {
  }

  // ----- splitting a leaf -----

  /** btnode_leaf::split of leaf `id`, whose new sibling is `right`. */
  function SplitLeaf(store: Store, id: Id, right: Id): Store
    requires IsLeaf(store, id) && |store[id].pairs| == FANOUT
  {
    var n := store[id];
    store[right := Leaf(Null, n.pairs[ORDER + 1..], n.next)][id := Leaf(n.parent, n.pairs[..ORDER + 1], To(right))]
  }

  function FirstKeyRight(store: Store, id: Id): Key {
    if IsLeaf(store, id) && |store[id].pairs| > ORDER + 1 then store[id].pairs[ORDER + 1].key else 0
  }

  /** Leaf `i` is full, and `right` is a number for its sibling. */
  predicate FullLeaf(t: Tree, i: nat, right: Id) {
    |t.rows| >= 1 && i < |Leaves(t)| && IsLeaf(t.store, Leaves(t)[i].id) &&
    |t.store[Leaves(t)[i].id].pairs| == FANOUT && right !in t.store
  }

  function NewSlot(t: Tree, i: nat, right: Id): Slot
    requires FullLeaf(t, i, right)
  {
    Slot(right, At(FirstKeyRight(t.store, Leaves(t)[i].id)))
  }

  function SplitLeafTree(t: Tree, i: nat, right: Id): Tree
    requires FullLeaf(t, i, right)
  {
    var row := Leaves(t);
    Tree(SplitLeaf(t.store, row[i].id, right), t.root,
         t.rows[|t.rows| - 1 := row[..i] + [row[i], NewSlot(t, i, right)] + row[i + 1..]], t.height[right := 0])
  }

  lemma {:induction false} SplitFence(row: Row, i: nat, pairs: seq<Pair>, s: Slot)
    requires i < |row| && SortedPairs(pairs) && |pairs| == FANOUT &&
             forall j :: 0 <= j < |pairs| ==> Fits(row, i, pairs[j].key)
    requires s.fence == At(pairs[ORDER + 1].key)
    ensures Less(row[i].fence, s.fence) && (i + 1 < |row| ==> Less(s.fence, row[i + 1].fence))
  {
    assert Fits(row, i, pairs[0].key) && Fits(row, i, pairs[ORDER + 1].key);
    assert pairs[0].key < pairs[ORDER + 1].key;
  }

  lemma {:induction false} NewRowOk(height: map<Id, nat>, row: Row, i: nat, s: Slot)
    requires RowOk(height, row, 0) && i < |row| && s.id !in height
    requires Less(row[i].fence, s.fence) && (i + 1 < |row| ==> Less(s.fence, row[i + 1].fence))
    ensures RowOk(height[s.id := 0], row[..i] + [row[i], s] + row[i + 1..], 0)
  {
    var x, left, y := row[..i], row[i], row[i + 1..];
    assert row == x + [left] + y;
    AscendingInsert(x, left, y, s);
    NoDupInsert(x, left, y, s);
    InsertHeight(height, height[s.id := 0], x, left, y, s, 0);
  }

  lemma {:induction false} SplitLeafRowsOk(t: Tree, i: nat, right: Id)
    requires RowsOk(t) && FullLeaf(t, i, right) && LeavesOk(t.store, Leaves(t))
    ensures RowsOk(SplitLeafTree(t, i, right))
  {
    var t', row, s := SplitLeafTree(t, i, right), Leaves(t), NewSlot(t, i, right);
    LeafAt(t.store, row, i);
    LeafHeight(t, i);
    SplitFence(row, i, t.store[row[i].id].pairs, s);
    assert RowOk(t.height, row, 0);
    NewRowOk(t.height, row, i, s);
    forall m | 0 <= m < |t'.rows| ensures RowOk(t'.height, t'.rows[m], |t'.rows| - 1 - m) {
      if m < |t.rows| - 1 { assert RowOk(t.height, t.rows[m], |t.rows| - 1 - m); }
    }
  }

  /** The halves of the leaf stand in the new row as leaves should. */
  lemma {:induction false} SplitLeavesAre(store: Store, row: Row, i: nat, right: Id, s: Slot)
    requires NoDup(row) && LeavesOk(store, row) && i < |row| && right !in store
    requires IsLeaf(store, row[i].id) && |store[row[i].id].pairs| == FANOUT &&
             s == Slot(right, At(store[row[i].id].pairs[ORDER + 1].key))
    ensures LeavesOk(SplitLeaf(store, row[i].id, right), row[..i] + [row[i], s] + row[i + 1..])
  {
    var store', row' := SplitLeaf(store, row[i].id, right), row[..i] + [row[i], s] + row[i + 1..];
    LeafAt(store, row, i);
    forall n | 0 <= n < |row'| ensures LeafOk(store', row', n) {
      if n < i {
        SplitBefore(store, store', row, row', i, n);
      } else if n > i + 1 {
        assert LeafOk(store, row, n - 1);
        assert row'[n] == row[n - 1] && (n + 1 < |row'| ==> row'[n + 1] == row[n]);
      } else {
        SplitHalves(store, store', row, row', i, right, s);
      }
    }
  }

  lemma {:induction false} SplitBefore(store: Store, store': Store, row: Row, row': Row, i: nat, n: nat)
    requires NoDup(row) && LeavesOk(store, row) && n < i < |row| && |row'| == |row| + 1 && row'[..i + 1] == row[..i + 1]
    requires store'.Keys >= store.Keys && forall q :: q in store && q != row[i].id ==> store'[q] == store[q]
    ensures LeafOk(store', row', n)
  {
    assert LeafOk(store, row, n);
    assert row'[n] == row'[..i + 1][n] && row'[n + 1] == row'[..i + 1][n + 1];
  }

  lemma {:induction false} SplitHalves(store: Store, store': Store, row: Row, row': Row, i: nat, right: Id, s: Slot)
    requires LeavesOk(store, row) && i < |row| && right !in store
    requires IsLeaf(store, row[i].id) && |store[row[i].id].pairs| == FANOUT &&
             s == Slot(right, At(store[row[i].id].pairs[ORDER + 1].key))
    requires store' == SplitLeaf(store, row[i].id, right) && row' == row[..i] + [row[i], s] + row[i + 1..]
    ensures LeafOk(store', row', i) && LeafOk(store', row', i + 1)
  {
    LeafAt(store, row, i);
    var pairs := store[row[i].id].pairs;
    assert row'[i] == row[i] && row'[i + 1] == s && (i + 2 < |row'| ==> row'[i + 2] == row[i + 1]);
    var lows, highs := pairs[..ORDER + 1], pairs[ORDER + 1..];
    forall j | 0 <= j < |lows| ensures Fits(row', i, lows[j].key) { assert Fits(row, i, pairs[j].key); }
    forall j | 0 <= j < |highs|
      ensures Fits(row', i + 1, highs[j].key)
    {
      assert Fits(row, i, pairs[ORDER + 1 + j].key);
    }
  }

  lemma {:induction false} SplitLeafSizes(t: Tree, i: nat, right: Id)
    requires RowsOk(t) && FullLeaf(t, i, right) && LeavesOk(t.store, Leaves(t)) && SizesOk(t, true, {Leaves(t)[i].id})
    requires |t.rows| == 1 ==> |Leaves(t)| == 1
    ensures SizesOk(SplitLeafTree(t, i, right), |t.rows| != 1, {})
  {
    var t', row, id := SplitLeafTree(t, i, right), Leaves(t), Leaves(t)[i].id;
    LeafHeight(t, i);
    forall m | 0 <= m < |t'.rows| ensures RowSizes(t'.store, t'.rows[m], m == 0 && |t.rows| != 1, {}) {
      assert RowSizes(t.store, t.rows[m], m == 0, {id});
      if m == |t.rows| - 1 {
        NewLeafSizes(t.store, row, i, right, NewSlot(t, i, right), m == 0);
      } else {
        ThinSizes(t, id, m);
        SplitLeafInner(t, i, right, m);
        SizesSame(t.store, t'.store, t.rows[m], m == 0, {});
      }
    }
  }

  lemma {:induction false} SplitLeafInner(t: Tree, i: nat, right: Id, m: nat)
    requires RowsOk(t) && FullLeaf(t, i, right) && m < |t.rows| - 1
    ensures SameBodies(t.store, SplitLeaf(t.store, Leaves(t)[i].id, right), t.rows[m])
  {
    LeafHeight(t, i);
    InnerSame(t, SplitLeaf(t.store, Leaves(t)[i].id, right), Leaves(t)[i].id, m);
  }

  lemma {:induction false} ThinSizes(t: Tree, id: Id, m: nat)
    requires RowsOk(t) && id in t.height && m < |t.rows| && t.height[id] != |t.rows| - 1 - m &&
             RowSizes(t.store, t.rows[m], m == 0, {id})
    ensures RowSizes(t.store, t.rows[m], m == 0, {})
  {
    var row := t.rows[m];
    RowWithout(t, m, id);
    forall n | 0 <= n < |row| ensures row[n].id in t.store && SizeOk(t.store, row[n].id, m == 0, Spare({}, row[n].id)) {
      assert SizeOk(t.store, row[n].id, m == 0, Spare({id}, row[n].id));
    }
  }

  lemma {:induction false} NewLeafSizes(store: Store, row: Row, i: nat, right: Id, s: Slot, isTop: bool)
    requires i < |row| && NoDup(row) && IsLeaf(store, row[i].id) && |store[row[i].id].pairs| == FANOUT &&
             right !in store && s.id == right
    requires RowSizes(store, row, isTop, {row[i].id}) && (isTop ==> |row| == 1)
    ensures RowSizes(SplitLeaf(store, row[i].id, right), row[..i] + [row[i], s] + row[i + 1..], false, {})
  {
    var store', row' := SplitLeaf(store, row[i].id, right), row[..i] + [row[i], s] + row[i + 1..];
    forall n | 0 <= n < |row'| ensures row'[n].id in store' && SizeOk(store', row'[n].id, false, 0) {
      if n < i { assert row'[n] == row[n] && SizeOk(store, row[n].id, isTop, Spare({row[i].id}, row[n].id)); }
      else if n > i + 1 {
        assert row'[n] == row[n - 1] && SizeOk(store, row[n - 1].id, isTop, Spare({row[i].id}, row[n - 1].id));
      }
    }
  }

  lemma {:induction false} SplitContents(store: Store, row: Row, i: nat, right: Id, s: Slot)
    requires i < |row| && NoDup(row) && LeavesOk(store, row) && IsLeaf(store, row[i].id) &&
             |store[row[i].id].pairs| == FANOUT
    requires right !in store && s.id == right
    ensures Contents(SplitLeaf(store, row[i].id, right), row[..i] + [row[i], s] + row[i + 1..]) == Contents(store, row)
  {
    var store', x, y := SplitLeaf(store, row[i].id, right), row[..i], row[i + 1..];
    ContentsAround(store, row, i);
    forall j | 0 <= j < |x| ensures SameBody(store, store', x[j].id) { assert LeafOk(store, row, j); }
    forall j | 0 <= j < |y| ensures SameBody(store, store', y[j].id) { assert LeafOk(store, row, i + 1 + j); }
    assert PairsOf(store', row[i]) + PairsOf(store', s) == PairsOf(store, row[i]);
    SplitContentsOf(store, store', x, row[i], y, s);
  }

  lemma {:induction false} SplitContentsOf(store: Store, store': Store, x: Row, left: Slot, y: Row, s: Slot)
    requires SameBodies(store, store', x) && SameBodies(store, store', y) &&
             PairsOf(store', left) + PairsOf(store', s) == PairsOf(store, left)
    ensures Contents(store', x + [left, s] + y) == Contents(store, x) + PairsOf(store, left) + Contents(store, y)
  {
    hide *;
    ContentsSame(store, store', x);
    ContentsSame(store, store', y);
    assert x + [left, s] + y == ((x + [left]) + [s]) + y;
    ContentsConcat(store', (x + [left]) + [s], y);
    ContentsSnoc(store', x + [left], s);
    ContentsSnoc(store', x, left);
    Assoc(Contents(store, x), PairsOf(store', left), PairsOf(store', s));
  }

  lemma {:induction false} SplitLeafShape(t: Tree, i: nat, right: Id)
    requires FullLeaf(t, i, right)
    ensures var t', row := SplitLeafTree(t, i, right), Leaves(t);
            && t'.root == t.root && |t'.rows| == |t.rows| && SameUpper(t, t')
            && t'.rows[|t.rows| - 1] == row[..i] + [row[i], NewSlot(t, i, right)] + row[i + 1..]
            && t'.store == SplitLeaf(t.store, row[i].id, right) && Only(t.store, t'.store, row[i].id)
            && row == row[..i] + [row[i]] + row[i + 1..]
            && NewSlot(t, i, right) == Slot(right, At(FirstKeyRight(t.store, row[i].id)))
            && FirstKeyRight(t.store, row[i].id) == t.store[row[i].id].pairs[ORDER + 1].key
  {
  }

  lemma {:induction false} FullLeafParts(t: Tree, i: nat, right: Id)
    requires FullLeaf(t, i, right)
    ensures |t.rows| >= 1 && i < |Leaves(t)| && IsLeaf(t.store, Leaves(t)[i].id) &&
            |t.store[Leaves(t)[i].id].pairs| == FANOUT && right !in t.store
  {
  }

  lemma {:induction false} OnlyLeaf(t: Tree, i: nat)
    requires t.rows != [] && t.rows[0] == [Slot(t.root, Bottom)] && i < |Leaves(t)|
    ensures |t.rows| == 1 ==>
              |Leaves(t)| == 1 && Leaves(t)[..i] == [] && Leaves(t)[i + 1..] == [] &&
              Leaves(t)[i] == Slot(t.root, Bottom)
  {
  }

  /** Splitting a leaf that has become too big leaves its new half pending, and the tree
      holds what it did. */
  lemma {:induction false} LeafSplit(t: Tree, i: nat, right: Id)
    requires FullLeaf(t, i, right) && Good(t, {}, {Leaves(t)[i].id})
    ensures var t', row := SplitLeafTree(t, i, right), Leaves(t);
            && Pending(t', |t.rows| - 1, row[..i], row[i], FirstKeyRight(t.store, row[i].id), right, row[i + 1..], {})
            && |t'.rows| == |t.rows| && Contents(t'.store, Leaves(t')) == Contents(t.store, row)
  {
    hide *;
    FullLeafParts(t, i, right);
    var t', row, id := SplitLeafTree(t, i, right), Leaves(t), Leaves(t)[i].id;
    var s := NewSlot(t, i, right);
    GoodParts(t, {}, {id});
    LeavesAre(t);
    LeafRowOk(t);
    LeafHeight(t, i);
    SplitLeafShape(t, i, right);
    LeavesAre(t');
    OnlyLeaf(t, i);
    SplitLeafRowsOk(t, i, right);
    SplitLeavesAre(t.store, row, i, right, s);
    SplitLeafSizes(t, i, right);
    SplitContents(t.store, row, i, right, s);
    InnerLinks(t, t', id);
    InnerParents(t, t', id, {});
    MakePending(t', |t.rows| - 1, row[..i], row[i], FirstKeyRight(t.store, id), right, row[i + 1..], {});
  }
}

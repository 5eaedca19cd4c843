/** The shape of a B+tree, level by level. A row lists the nodes of a level from left to
    right, each with the lower fence of its keys; expanding every inner node of a row
    into its children gives the next row. */
module BTreeRows {
  import opened BTrees

  /** A lower bound on the keys of a subtree. */
  datatype Fence = Bottom | At(key: Key)

  predicate Less(a: Fence, b: Fence) {
    b.At? && (a.Bottom? || a.key < b.key)
  }

  datatype Slot = Slot(id: Id, fence: Fence)
  type Row = seq<Slot>

  predicate IsInner(store: Store, id: Id) {
    id in store && store[id].Inner? && |store[id].kids| == |store[id].keys| + 1
  }

  predicate IsLeaf(store: Store, id: Id) {
    id in store && store[id].Leaf?
  }

  /** The children of a node: the first has the node's own fence, each other one the key
      before it. */
  function ExpandNode(fence: Fence, keys: seq<Key>, kids: seq<Id>): (row: Row)
    ensures |row| == |kids|
  {
    seq(|kids|, j requires 0 <= j < |kids| => Slot(kids[j], if 0 < j <= |keys| then At(keys[j - 1]) else fence))
  }

  function Expand(store: Store, s: Slot): Row {
    if IsInner(store, s.id) then ExpandNode(s.fence, store[s.id].keys, store[s.id].kids) else []
  }

  function ExpandAll(store: Store, row: Row): Row {
    if row == [] then [] else ExpandAll(store, row[..|row| - 1]) + Expand(store, row[|row| - 1])
  }

  lemma {:induction false} ExpandAllSnoc(store: Store, row: Row, s: Slot)
    ensures ExpandAll(store, row + [s]) == ExpandAll(store, row) + Expand(store, s)
  {
    assert (row + [s])[..|row|] == row;
  }

  lemma {:induction false} ExpandAllConcat(store: Store, a: Row, b: Row)
    ensures ExpandAll(store, a + b) == ExpandAll(store, a) + ExpandAll(store, b)
  {
    if b == [] {
      assert a + b == a;
    } else {
      var m := |b| - 1;
      assert a + b == (a + b[..m]) + [b[m]];
      ExpandAllSnoc(store, a + b[..m], b[m]);
      ExpandAllConcat(store, a, b[..m]);
    }
  }

  /** The same node but perhaps for its parent pointer. */
  predicate SameBody(store: Store, store': Store, id: Id) {
    && id in store && id in store'
    && match store[id]
       case Leaf(_, pairs, next) => store'[id].Leaf? && store'[id].pairs == pairs && store'[id].next == next
       case Inner(_, keys, kids) => store'[id].Inner? && store'[id].keys == keys && store'[id].kids == kids
  }

  predicate SameBodies(store: Store, store': Store, row: Row) {
    forall i :: 0 <= i < |row| ==> SameBody(store, store', row[i].id)
  }

  lemma {:induction false} ExpandAllSame(store: Store, store': Store, row: Row)
    requires SameBodies(store, store', row)
    ensures ExpandAll(store', row) == ExpandAll(store, row)
  {
    if row != [] {
      var m := |row| - 1;
      assert SameBody(store, store', row[m].id);
      ExpandAllSame(store, store', row[..m]);
    }
  }

  /** Which node of the upper row a slot of the lower row comes from. */
  lemma {:induction false} Locate(store: Store, row: Row, x: Row, left: Slot, y: Row)
    returns (a: Row, p: Slot, b: Row, p1: Row, p2: Row)
    requires ExpandAll(store, row) == x + [left] + y
    ensures row == a + [p] + b && Expand(store, p) == p1 + [left] + p2
    ensures x == ExpandAll(store, a) + p1 && y == p2 + ExpandAll(store, b)
  {
    ExpandAllLast(store, row);
    hide *;
    var m := |row| - 1;
    var head, last := ExpandAll(store, row[..m]), Expand(store, row[m]);
    assert row == row[..m] + [row[m]];
    if |y| >= |last| {
      var n := |y| - |last|;
      LocateHead(x, left, y, head, last, n);
      var b';
      a, p, b', p1, p2 := Locate(store, row[..m], x, left, y[..n]);
      b := b' + [row[m]];
      ExpandAllSnoc(store, b', row[m]);
      Assoc(p2, ExpandAll(store, b'), last);
      Assoc(a + [p], b', [row[m]]);
    } else {
      a, p, b, p1, p2 := row[..m], row[m], [], x[|head|..], y;
      LocateLast(x, left, y, head, last);
      ExpandNothing(store);
      assert a + [p] + b == a + [p] && p2 + [] == p2;
    }
  }

  lemma {:induction false} Assoc<T>(a: seq<T>, b: seq<T>, c: seq<T>)
    ensures (a + b) + c == a + (b + c)
  {
  }

  lemma {:induction false} ExpandNothing(store: Store)
    ensures ExpandAll(store, []) == []
  {
  }

  lemma {:induction false} ExpandAllLast(store: Store, row: Row)
    requires ExpandAll(store, row) != []
    ensures row != [] && ExpandAll(store, row) == ExpandAll(store, row[..|row| - 1]) + Expand(store, row[|row| - 1])
  {
  }

  lemma {:induction false} LocateHead(x: Row, left: Slot, y: Row, head: Row, last: Row, n: nat)
    requires head + last == x + [left] + y && n == |y| - |last|
    ensures head == x + [left] + y[..n] && y == y[..n] + last
  {
    var all := head + last;
    assert head == all[..|x| + 1 + n] && last == all[|x| + 1 + n..];
    assert last == y[n..];
  }

  lemma {:induction false} LocateLast(x: Row, left: Slot, y: Row, head: Row, last: Row)
    requires head + last == x + [left] + y && |y| < |last|
    ensures |head| <= |x| && x == head + x[|head|..] && last == x[|head|..] + [left] + y
  {
    var all := head + last;
    assert head == all[..|head|] && last == all[|head|..];
    assert head == x[..|head|];
  }

  // ----- changing a node -----

  /** A new child, with its key, to the right of child `pos`. */
  lemma {:induction false} InsertKid(fence: Fence, keys: seq<Key>, kids: seq<Id>, pos: nat, k: Key, r: Id)
    requires |kids| == |keys| + 1 && pos <= |keys|
    ensures var e := ExpandNode(fence, keys, kids);
            ExpandNode(fence, keys[..pos] + [k] + keys[pos..], kids[..pos + 1] + [r] + kids[pos + 1..])
            == e[..pos + 1] + [Slot(r, At(k))] + e[pos + 1..]
  {
  }

  /** A node cut in two at key `m`, which goes to neither half. */
  lemma {:induction false} SplitNode(fence: Fence, keys: seq<Key>, kids: seq<Id>, m: nat)
    requires |kids| == |keys| + 1 && m < |keys|
    ensures ExpandNode(fence, keys[..m], kids[..m + 1]) + ExpandNode(At(keys[m]), keys[m + 1..], kids[m + 1..])
            == ExpandNode(fence, keys, kids)
  {
  }

  // ----- rows -----

  predicate Ascending(row: Row) {
    && row != [] && row[0].fence == Bottom
    && forall i, j :: 0 <= i < j < |row| ==> Less(row[i].fence, row[j].fence)
  }

  predicate NoDup(row: Row) {
    forall i, j :: 0 <= i < j < |row| ==> row[i].id != row[j].id
  }

  predicate AtHeight(height: map<Id, nat>, row: Row, h: nat) {
    forall i :: 0 <= i < |row| ==> row[i].id in height && height[row[i].id] == h
  }

  lemma {:induction false} AscendingInsert(x: Row, left: Slot, y: Row, new_: Slot)
    requires Ascending(x + [left] + y) && Less(left.fence, new_.fence)
    requires y != [] ==> Less(new_.fence, y[0].fence)
    ensures Ascending(x + [left, new_] + y)
  {
    var row, row' := x + [left] + y, x + [left, new_] + y;
    forall i, j | 0 <= i < j < |row'| ensures Less(row'[i].fence, row'[j].fence) {
      var n := |x| + 1;
      if j > n { assert row'[j] == row[j - 1] && y[0] == row[n]; }
      if i > n { assert row'[i] == row[i - 1]; }
      if i < n { assert row'[i] == row[i] && left == row[n - 1]; }
      if j < n { assert row'[j] == row[j]; }
    }
  }

  lemma {:induction false} NoDupInsert(x: Row, left: Slot, y: Row, new_: Slot)
    requires NoDup(x + [left] + y) && forall i :: 0 <= i < |x + [left] + y| ==> (x + [left] + y)[i].id != new_.id
    ensures NoDup(x + [left, new_] + y)
  {
    var row, row' := x + [left] + y, x + [left, new_] + y;
    var n := |x| + 1;
    forall i, j | 0 <= i < j < |row'| ensures row'[i].id != row'[j].id {
      if j > n { assert row'[j] == row[j - 1]; }
      if i > n { assert row'[i] == row[i - 1]; }
      if i < n { assert row'[i] == row[i]; }
      if j < n { assert row'[j] == row[j]; }
    }
  }
}

/** The B+tree itself (lib/btree.hh: btree_type): insertion with splits that go up the
    parent pointers, and the walk along the chain of leaves. */
module BTreeInserts {
  import opened BTrees
  import opened BTreeRows
  import opened BTreeShapes
  import opened BTreeSplits
  import opened BTreeLeaves

  // ----- what an insertion into a row leaves alone -----

  /** From row `l` down, `t'` has the rows of `t` and their nodes but for parent pointers. */
  ghost predicate Kept(t: Tree, t': Tree, l: nat) {
    && l <= |t.rows| <= |t'.rows| + l && t'.rows[|t'.rows| - (|t.rows| - l)..] == t.rows[l..]
    && (forall id :: id in t.height ==> id in t'.height && t'.height[id] == t.height[id])
    && (forall id :: id in t.height && t.height[id] + l < |t.rows| ==> SameBody(t.store, t'.store, id))
  }

  /** Nodes with loose parent pointers lie below row `l`. */
  ghost predicate LooseBelow(t: Tree, loose: set<Id>, l: nat) {
    forall id :: id in loose ==> id in t.height && t.height[id] + l + 1 < |t.rows|
  }

  lemma {:induction false} KeptRow(t: Tree, t': Tree, l: nat, m: nat)
    requires Kept(t, t', l) && l <= m < |t.rows|
    ensures |t'.rows| >= |t.rows| - m && t'.rows[|t'.rows| - (|t.rows| - m)] == t.rows[m]
  {
    var off := |t'.rows| - (|t.rows| - l);
    assert t'.rows[off..][m - l] == t.rows[l..][m - l];
  }

  lemma {:induction false} KeptTrans(t: Tree, t1: Tree, t2: Tree, l: nat)
    requires l > 0 && |t1.rows| == |t.rows| && l <= |t.rows| && t1.rows[l..] == t.rows[l..]
    requires forall id :: id in t.height ==> id in t1.height && t1.height[id] == t.height[id]
    requires forall id :: id in t.height && t.height[id] + l < |t.rows| ==> SameBody(t.store, t1.store, id)
    requires Kept(t1, t2, l - 1)
    ensures Kept(t, t2, l)
  {
    var n := |t.rows| - (l - 1);
    assert t2.rows[|t2.rows| - n..] == t1.rows[l - 1..];
    assert t2.rows[|t2.rows| - n + 1..] == t2.rows[|t2.rows| - n..][1..];
    assert t1.rows[l..] == t1.rows[l - 1..][1..];
    forall id | id in t.height && t.height[id] + l < |t.rows| ensures SameBody(t.store, t2.store, id) {
      assert SameBody(t.store, t1.store, id) && SameBody(t1.store, t2.store, id);
    }
  }

  lemma {:induction false} KeptBodies(t: Tree, t': Tree, l: nat)
    requires |t'.rows| == |t.rows| && l <= |t.rows| && t'.rows[l..] == t.rows[l..] && t'.height == t.height
    requires forall id :: id in t.height && t.height[id] + l < |t.rows| ==> SameBody(t.store, t'.store, id)
    ensures Kept(t, t', l)
  {
  }

  lemma {:induction false} KeptParents(t: Tree, t1: Tree, t2: Tree, l: nat)
    requires Kept(t, t1, l) && t2.rows == t1.rows && t2.height == t1.height
    requires forall id :: id in t1.store ==> SameBody(t1.store, t2.store, id)
    requires t1.height.Keys == t1.store.Keys
    ensures Kept(t, t2, l)
  {
    forall id | id in t.height && t.height[id] + l < |t.rows| ensures SameBody(t.store, t2.store, id) {
      assert SameBody(t.store, t1.store, id) && SameBody(t1.store, t2.store, id);
    }
  }

  // ----- steps of insert_internal -----

  lemma {:induction false} TopOrNot(t: Tree, l: nat, x: Row, left: Slot, key: Key, right: Id, y: Row, loose: set<Id>)
    requires Pending(t, l, x, left, key, right, y, loose)
    ensures left.id in t.store && right in t.store && (l == 0 ==> t.store[left.id].parent == Null && x == [] && y == [])
  {
    PendingRight(t, l, x, left, key, right, y, loose);
  }

  lemma {:induction false} AscendingRemove(x: Row, left: Slot, new_: Slot, y: Row)
    requires Ascending(x + [left, new_] + y)
    ensures Ascending(x + [left] + y)
  {
    var row, row' := x + [left, new_] + y, x + [left] + y;
    assert row'[0] == row[0];
    forall i, j | 0 <= i < j < |row'| ensures Less(row'[i].fence, row'[j].fence) {
      if i <= |x| { assert row'[i] == row[i]; } else { assert row'[i] == row[i + 1]; }
      if j <= |x| { assert row'[j] == row[j]; } else { assert row'[j] == row[j + 1]; }
    }
  }

  /** The search for the key in the parent is a search among increasing keys, and finds
      the place right after `left`. */
  lemma {:induction false} ParentKeys(t: Tree, l: nat, x: Row, left: Slot, key: Key, right: Id, y: Row, loose: set<Id>,
                                      a: Row, p: Slot, b: Row, p1: Row, p2: Row)
    requires Pending(t, l, x, left, key, right, y, loose) && Spot(t, l, x, left, y, a, p, b, p1, p2)
    ensures IsInner(t.store, p.id) && Increasing(t.store[p.id].keys)
  {
    assert RowOk(t.height, t.rows[l], |t.rows| - 1 - l);
    AscendingRemove(x, left, Slot(right, At(key)), y);
    assert t.rows[l - 1][|a|] == p;
    KeysIncrease(t.store, t.rows[l - 1], x + [left] + y, |a|);
  }

  lemma {:induction false} SamePlace(keys: seq<Key>, key: Key, p: nat, q: nat)
    requires p <= |keys| && q <= |keys|
    requires (forall i :: 0 <= i < p ==> keys[i] <= key) && (forall i :: p <= i < |keys| ==> key < keys[i])
    requires (forall i :: 0 <= i < q ==> keys[i] < key) && (forall i :: q <= i < |keys| ==> key < keys[i])
    ensures p == q
  {
    var atP, atQ := if p < |keys| then keys[p] else key, if q < |keys| then keys[q] else key;
  }

  lemma {:induction false} Trim(t: Tree, p: Id, loose: set<Id>)
    requires Good(t, loose, {p}) && IsInner(t.store, p) && |t.store[p].keys| < KSplitAt()
    ensures Good(t, loose, {})
  {
    forall l | 0 <= l < |t.rows| ensures RowSizes(t.store, t.rows[l], l == 0, {}) {
      var row := t.rows[l];
      assert RowSizes(t.store, row, l == 0, {p});
      forall i | 0 <= i < |row|
        ensures row[i].id in t.store && SizeOk(t.store, row[i].id, l == 0, Spare({}, row[i].id))
      {
        assert SizeOk(t.store, row[i].id, l == 0, Spare({p}, row[i].id));
      }
    }
    assert SizesOk(t, true, {});
  }

  lemma {:induction false} AddedKept(t: Tree, l: nat, x: Row, left: Slot, key: Key, right: Id, y: Row, loose: set<Id>,
                                     a: Row, p: Slot, b: Row, p1: Row, p2: Row)
    requires Pending(t, l, x, left, key, right, y, loose) && Spot(t, l, x, left, y, a, p, b, p1, p2)
    requires |p1| <= |t.store[p.id].keys| && right in t.store
    ensures p.id in t.height && t.height[p.id] == |t.rows| - l && p.id != right
    ensures Kept(t, t.(store := AddedKid(t.store, p.id, |p1|, key, right)), l)
    ensures IsInner(AddedKid(t.store, p.id, |p1|, key, right), p.id)
    ensures |AddedKid(t.store, p.id, |p1|, key, right)[p.id].keys| == |t.store[p.id].keys| + 1
  {
    SpotHeight(t, l, x, left, y, a, p, b, p1, p2);
    PendingRight(t, l, x, left, key, right, y, loose);
    AddedRest(t.store, p.id, |p1|, key, right);
    assert t.height.Keys == t.store.Keys;
    KeptBodies(t, t.(store := AddedKid(t.store, p.id, |p1|, key, right)), l);
  }

  lemma {:induction false} GrownKept(t: Tree, left: Id, key: Key, right: Id, nr: Id)
    requires RowsOk(t) && left in t.store && right in t.store && nr !in t.store
    ensures Kept(t, Grown(t, left, key, right, nr), 0)
  {
    var t' := Grown(t, left, key, right, nr);
    assert t'.rows[1..] == t.rows;
  }

  lemma {:induction false} SplitKept(t: Tree, l: nat, a: Row, p: Slot, b: Row, np: Id)
    requires RowsOk(t) && Full(t, l, a, p, b, np) && p.id in t.height
    ensures var t' := AfterSplit(t, l, a, p, b, np);
            && |t'.rows| == |t.rows| && t'.rows[l + 1..] == t.rows[l + 1..]
            && (forall id :: id in t.height ==> id in t'.height && t'.height[id] == t.height[id])
            && (forall id :: id in t.height && t.height[id] + l + 1 < |t.rows| ==> SameBody(t.store, t'.store, id))
            && IsInner(t'.store, np) && np in t'.height
  {
    FullHeight(t, l, a, p, b, np);
  }

  lemma {:induction false} MovedBelow(t: Tree, l: nat, a: Row, p: Slot, b: Row, np: Id, loose: set<Id>)
    requires RowsOk(t) && LinksOk(t, -1) && Full(t, l, a, p, b, np) && p.id in t.height && LooseBelow(t, loose, l + 1)
    ensures LooseBelow(AfterSplit(t, l, a, p, b, np), loose + MovedKids(t.store, p.id), l)
    ensures p.id !in loose && np !in loose
  {
    FullHeight(t, l, a, p, b, np);
    GoodLink(t, l);
    var kids := t.store[p.id].kids;
    assert t.rows[l][|a|] == p;
    forall j | 0 <= j < |kids| ensures kids[j] in t.height && t.height[kids[j]] == |t.rows| - 2 - l && kids[j] != np {
      var n := KidIsBelow(t.store, t.rows[l], t.rows[l + 1], |a|, j);
      InStore(t, l + 1, n);
    }
  }

  /** Where the sibling of a split node is after the insertion above it. */
  lemma {:induction false} FindSibling(t: Tree, t': Tree, l: nat, a: Row, p: Slot, key: Key, np: Id, b: Row)
    requires l < |t.rows| && t.rows[l] == a + [p, Slot(np, At(key))] + b && Kept(t, t', l)
    requires np in t.height && t.height[np] + l < |t.rows| && IsInner(t.store, np)
    ensures |t'.rows| >= |t.rows| - l
    ensures var l' := |t'.rows| - (|t.rows| - l); |a| + 1 < |t'.rows[l']| && t'.rows[l'][|a| + 1].id == np
    ensures IsInner(t'.store, np) && t'.store[np].kids == t.store[np].kids
  {
    KeptRow(t, t', l, l);
    assert SameBody(t.store, t'.store, np);
  }

  function KidsFrom(kids: seq<Id>, j: nat): set<Id> {
    set i | j <= i < |kids| :: kids[i]
  }

  lemma {:induction false} KidsFromNext(kids: seq<Id>, j: nat)
    requires j < |kids|
    ensures KidsFrom(kids, j) == KidsFrom(kids, j + 1) + {kids[j]}
  {
  }

  lemma {:induction false} SiblingKid(t: Tree, l: nat, i: nat, j: nat, loose: set<Id>)
    requires Good(t, loose, {}) && l < |t.rows| - 1 && i < |t.rows[l]| && IsInner(t.store, t.rows[l][i].id) &&
             j < |t.store[t.rows[l][i].id].kids|
    ensures IsKid(t, l, i, j)
  {
    GoodLink(t, l);
    var n := KidIsBelow(t.store, t.rows[l], t.rows[l + 1], i, j);
    InStore(t, l + 1, n);
  }

  lemma {:induction false} FixedBodies(store: Store, k: Id, np: Id)
    requires k in store
    ensures forall id :: id in store ==> SameBody(store, FixedStore(store, k, np), id)
    ensures FixedStore(store, k, np).Keys == store.Keys
  {
  }

  lemma {:induction false} NothingFrom(kids: seq<Id>)
    ensures KidsFrom(kids, |kids|) == {}
  {
  }

  lemma {:induction false} BodyTrans(store: Store, store1: Store, store2: Store)
    requires forall id :: id in store ==> SameBody(store, store1, id)
    requires forall id :: id in store1 ==> SameBody(store1, store2, id)
    ensures forall id :: id in store ==> SameBody(store, store2, id)
  {
    forall id | id in store ensures SameBody(store, store2, id) {
      assert SameBody(store, store1, id) && SameBody(store1, store2, id);
    }
  }

  class BTree {
    const apply: Apply
    var store: Store
    var root: Id
    var nlevel: nat
    var nk: nat
    /** The next number for a node. */
    var unused: Id
    ghost var rows: seq<Row>
    ghost var height: map<Id, nat>

    ghost function View(): (t: Tree)
      reads this
      ensures t == Tree(store, root, rows, height)
    {
      Tree(store, root, rows, height)
    }


    /** The loop that points the children of a new node to it. */
    method FixParents(np: Id, ghost l: nat, ghost i: nat, ghost loose: set<Id>)
      requires l < |rows| - 1 && i < |rows[l]| && rows[l][i].id == np && IsInner(store, np)
      requires Good(View(), loose + KidsFrom(store[np].kids, 0), {})
      modifies this`store
      ensures Good(View(), loose, {}) && store.Keys == old(store).Keys
      ensures forall id :: id in old(store) ==> SameBody(old(store), store, id)
    {
      hide *;
      InnerIs(store, np);
      var kids := store[np].kids;
      ghost var t0 := View();
      FixingStart(t0, np, l, i, kids, loose);
      var j := 0;
      while j < |kids|
        invariant 0 <= j <= |kids| && rows == t0.rows && root == t0.root && height == t0.height
        invariant Fixing(t0, Tree(store, root, rows, height), np, l, i, kids, j, loose)
      {
        FixingStep(t0, Tree(store, root, rows, height), np, l, i, kids, j, loose);
        store := FixedStore(store, kids[j], np);
        j := j + 1;
      }
      FixingEnd(t0, Tree(store, root, rows, height), np, l, i, kids, loose);
    }

    /** insert_internal: gives `right`, the new sibling of `left`, to the parent of
        `left`, and splits that in turn if it gets too big. */
    method InsertInternal(key: Key, left: Id, right: Id, ghost l: nat, ghost x: Row, ghost s: Slot, ghost y: Row,
                          ghost loose: set<Id>)
      requires Pending(View(), l, x, s, key, right, y, loose) && s.id == left && LooseBelow(View(), loose, l)
      requires nlevel == |rows| && Numbered(store, unused)
      modifies this`store, this`root, this`nlevel, this`unused, this`rows, this`height
      ensures Good(View(), loose, {}) && nlevel == |rows| && Kept(old(View()), View(), l)
      ensures Numbered(store, unused)
      decreases l, 1
    {
      hide *;
      ghost var t := View();
      TopOrNot(t, l, x, s, key, right, y, loose);
      PendingBasics(t, l, x, s, key, right, y, loose);
      ghost var a, p, b, p1, p2 := [], s, [], [], [];
      if l > 0 {
        a, p, b, p1, p2 := FindSpot(t, l, x, s, key, right, y, loose);
        SpotBasics(t, l, x, s, y, a, p, b, p1, p2);
      }
      var link := store[left].parent;
      if link == Null {
        var nr := unused;
        GrownNumbers(t, left, key, right, nr, unused);
        RootGrown(t, s, key, right, nr, loose);
        GrownKept(t, left, key, right, nr);
        store := GrownStore(store, left, key, right, nr);
        root := nr;
        nlevel := nlevel + 1;
        unused := unused + 1;
        rows, height := [[Slot(nr, Bottom)]] + rows, height[nr := |rows|];
        assert View() == Grown(t, left, key, right, nr) by { GrownIs(t, left, key, right, nr); }
      } else {
        AddToParent(link.id, key, right, l, x, s, y, loose, a, p, b, p1, p2);
        ghost var t1 := View();
        InnerIs(store, link.id);
        if |store[link.id].keys| == KSplitAt() {
          SplitParent(link.id, l, a, p, b, loose);
          KeptChain(t, t1, View(), l);
        } else {
          Trim(t1, link.id, loose);
        }
      }
    }

    /** The part of insert_internal that shifts keys and children to make room. */
    method AddToParent(pid: Id, key: Key, right: Id, ghost l: nat, ghost x: Row, ghost s: Slot, ghost y: Row,
                       ghost loose: set<Id>,
                       ghost a: Row, ghost p: Slot, ghost b: Row, ghost p1: Row, ghost p2: Row)
      requires Pending(View(), l, x, s, key, right, y, loose) && Spot(View(), l, x, s, y, a, p, b, p1, p2) &&
               p.id == pid
      requires LooseBelow(View(), loose, l) && Numbered(store, unused)
      modifies this`store
      ensures Good(View(), loose, {pid}) && Kept(old(View()), View(), l) && IsInner(store, pid) &&
              |store[pid].keys| <= KSplitAt()
      ensures LooseBelow(View(), loose, l) && Numbered(store, unused)
    {
      hide *;
      ghost var t := View();
      SpotBasics(t, l, x, s, y, a, p, b, p1, p2);
      InnerIs(store, pid);
      ParentKeys(t, l, x, s, key, right, y, loose, a, p, b, p1, p2);
      SpotIsUpperBound(t, l, x, s, key, right, y, loose, a, p, b, p1, p2);
      var ikey := UpperBound(key, store[pid].keys);
      SamePlace(store[pid].keys, key, ikey, |p1|);
      TopOrNot(t, l, x, s, key, right, y, loose);
      KidAdded(t, l, x, s, key, right, y, loose, a, p, b, p1, p2);
      AddedKept(t, l, x, s, key, right, y, loose, a, p, b, p1, p2);
      AddedKeys(store, pid, ikey, key, right);
      store := AddedKid(store, pid, ikey, key, right);
      NotTooFat(View(), loose, l - 1, a, p, b);
      SameNumbers(t.store, store, unused);
      SameLoose(t, View(), loose, l);
    }

    /** The part of insert_internal that splits the parent: the new half goes up, and
        then its children are pointed to it. */
    method SplitParent(pid: Id, ghost l: nat, ghost a: Row, ghost p: Slot, ghost b: Row, ghost loose: set<Id>)
      requires Good(View(), loose, {pid}) && 0 < l < |rows| && rows[l - 1] == a + [p] + b && p.id == pid
      requires IsInner(store, pid) && |store[pid].keys| == KSplitAt() && LooseBelow(View(), loose, l)
      requires nlevel == |rows| && Numbered(store, unused)
      modifies this`store, this`root, this`nlevel, this`unused, this`rows, this`height
      ensures Good(View(), loose, {}) && nlevel == |rows| && Kept(old(View()), View(), l)
      ensures Numbered(store, unused)
      decreases l, 0
    {
      hide *;
      ghost var t1 := View();
      var np := unused;
      InnerIs(store, pid);
      MakeFull(t1, l - 1, a, p, b, np, unused, loose);
      MovedBelow(t1, l - 1, a, p, b, np, loose);
      NodeSplit(t1, l - 1, a, p, b, np, loose);
      SplitKept(t1, l - 1, a, p, b, np);
      SplitShape(t1, l - 1, a, p, b, np);
      SplitIs(t1, l - 1, a, p, b, np);
      var newkey := store[pid].keys[KOrder()];
      ghost var moved := MovedKids(store, pid);
      store := SplitInner(store, pid, np);
      unused := unused + 1;
      rows, height := SplitRows(rows, l - 1, a, p, newkey, np, b), height[np := height[pid]];
      ghost var t2 := View();
      InsertInternal(newkey, pid, np, l - 1, a, p, b, loose + moved);
      ghost var t3 := View();
      FindSibling(t2, t3, l - 1, a, p, newkey, np, b);
      FixParents(np, |t3.rows| - (|t2.rows| - (l - 1)), |a| + 1, loose);
      KeptTrans(t1, t2, t3, l);
      GoodKeys(t3, loose + moved);
      KeptParents(t1, t3, View(), l);
      SameNumbers(t3.store, store, unused);
    }

    /** A proper tree, or none yet. */
    ghost predicate Ok()
      reads this
    {
      && Numbered(store, unused)
      && if nlevel == 0 then nk == 0 && store == map[] && rows == [] && height == map[]
         else Good(View(), {}, {}) && nlevel == |rows| && nk == |Contents(store, LeafRow(rows))|
    }

    /** What the tree holds, in order. */
    ghost function Pairs(): seq<Pair>
      reads this
    {
      if rows == [] then [] else Contents(store, LeafRow(rows))
    }

    constructor (apply: Apply)
      ensures Ok() && Pairs() == [] && this.apply == apply
    {
      this.apply := apply;
      store, root, nlevel, nk, unused := map[], 0, 0, 0, 0;
      rows, height := [], map[];
    }

    method Size() returns (n: nat)
      requires Ok()
      ensures n == |Pairs()|
    {
      n := nk;
    }

    /** get_leaf: the leaf that `key` fits, in a tree that is made if there is none. */
    method GetLeaf(key: Key) returns (leaf: Id, ghost i: nat)
      requires Ok()
      modifies this
      ensures Ok() && nlevel > 0 && Pairs() == old(Pairs())
      ensures i < |LeafRow(rows)| && LeafRow(rows)[i].id == leaf && Fits(LeafRow(rows), i, key)
    {
      hide *;
      OkUnfold();
      if nlevel == 0 {
        NoTree();
        root, nlevel, nk := unused, 1, 0;
        store := store[root := Leaf(Null, [], Null)];
        unused := unused + 1;
        rows, height := [[Slot(root, Bottom)]], map[root := 0];
        FirstLeafGood(View(), root, key, unused);
        OkFold();
        return root, 0;
      }
      leaf, i := SearchLeaf(key);
    }

    lemma {:induction false} NoTree()
      requires Ok() && nlevel == 0
      ensures store == map[] && Pairs() == []
    {
    }

    /** The search of get_leaf. */
    method SearchLeaf(key: Key) returns (leaf: Id, ghost i: nat)
      requires nlevel > 0 && Good(View(), {}, {}) && nlevel == |rows|
      ensures i < |LeafRow(rows)| && LeafRow(rows)[i].id == leaf && Fits(LeafRow(rows), i, key)
    {
      hide *;
      ghost var t := View();
      OkParts(t, nlevel, |rows|);
      var node := root;
      i := 0;
      var l := 0;
      while l < nlevel - 1
        invariant 0 <= l <= nlevel - 1 && i < |rows[l]| && rows[l][i].id == node && Fits(rows[l], i, key)
      {
        InnerOf(t, l, i);
        var pos := UpperBound(key, store[node].keys);
        i := Descend(store, rows[l], rows[l + 1], i, key, store[node].keys, store[node].kids, pos);
        node := store[node].kids[pos];
        l := l + 1;
      }
      leaf := node;
      LeafRowIs(rows);
    }

    lemma {:induction false} OkUnfold()
      requires Ok()
      ensures Numbered(store, unused) && (nlevel == 0 <==> rows == []) && nk == |Pairs()|
      ensures nlevel > 0 ==> Good(View(), {}, {}) && nlevel == |rows| && Pairs() == Contents(store, LeafRow(rows))
    {
      hide Good;
    }

    lemma {:induction false} OkFold()
      requires Numbered(store, unused) && nlevel > 0 && Good(View(), {}, {}) && nlevel == |rows| &&
               nk == |Contents(store, LeafRow(rows))|
      ensures Ok() && Pairs() == Contents(store, LeafRow(rows))
    {
      hide Good;
    }

    /** map_insert_sorted_copy_on_new: applies `v` to the value of `k`, which is made if
        it is not there; tells whether it was. */
    method MapInsert(k: Key, v: int) returns (isNew: bool)
      requires Ok()
      modifies this
      ensures Ok() && Pairs() == Put(apply, old(Pairs()), k, v)
      ensures isNew <==> !Holds(old(Pairs()), k)
    {
      hide *;
      ghost var before := Pairs();
      var leaf, i := GetLeaf(k);
      OkUnfold();
      isNew := PutInLeaf(leaf, i, k, v);
      SplitIfFull(leaf, i);
    }

    /** The part of the insertion that changes the leaf. */
    method PutInLeaf(leaf: Id, ghost i: nat, k: Key, v: int) returns (isNew: bool)
      requires nlevel > 0 && Good(View(), {}, {}) && nlevel == |rows| && nk == |Contents(store, LeafRow(rows))| &&
               Numbered(store, unused)
      requires i < |LeafRow(rows)| && LeafRow(rows)[i].id == leaf && Fits(LeafRow(rows), i, k)
      modifies this`store, this`nk
      ensures Good(View(), {}, {leaf}) && Numbered(store, unused) && nk == |Contents(store, LeafRow(rows))| &&
              IsLeaf(store, leaf)
      ensures Contents(store, LeafRow(rows)) == Put(apply, old(Contents(store, LeafRow(rows))), k, v)
      ensures isNew <==> !Holds(old(Contents(store, LeafRow(rows))), k)
    {
      hide *;
      ghost var t, row := View(), LeafRow(rows);
      LeafFacts(t, i);
      var n := store[leaf];
      SortedKeys(n.pairs);
      var pos, found := LowerBound(k, KeysOf(n.pairs));
      LeafPut(apply, t, i, k, v);
      PairsCount(apply, t, k, v);
      PutAt(apply, n.pairs, k, v, pos, found);
      WithPairsIs(store, leaf, Put(apply, n.pairs, k, v));
      SameNumbers(store, WithPairs(store, leaf, Put(apply, n.pairs, k, v)), unused);
      var pairs := n.pairs;
      if !found {
        pairs := pairs[..pos] + [Pair(k, [])] + pairs[pos..];
        nk := nk + 1;
      }
      pairs := pairs[pos := Pair(pairs[pos].key, apply(!found, pairs[pos].value, v))];
      store := store[leaf := Leaf(n.parent, pairs, n.next)];
      isNew := !found;
    }

    /** The part of the insertion that splits the leaf. */
    method SplitIfFull(leaf: Id, ghost i: nat)
      requires nlevel > 0 && Good(View(), {}, {leaf}) && nlevel == |rows| && nk == |Contents(store, LeafRow(rows))| &&
               Numbered(store, unused)
      requires i < |LeafRow(rows)| && LeafRow(rows)[i].id == leaf && IsLeaf(store, leaf)
      modifies this`store, this`root, this`nlevel, this`unused, this`rows, this`height
      ensures Ok() && Pairs() == old(Contents(store, LeafRow(rows)))
    {
      hide *;
      ghost var t := View();
      LeafRowIs(rows);
      LeafIs(store, leaf);
      if |store[leaf].pairs| == KFanout() {
        var right := unused;
        LeafIsFull(t, i, right, unused);
        LeafSplit(t, i, right);
        LeafSplitIs(t, i, right, unused);
        ghost var row := LeafRow(rows);
        store := SplitLeaf(store, leaf, right);
        rows, height := rows[|rows| - 1 := row[..i] + [row[i], NewSlot(t, i, right)] + row[i + 1..]],
          height[right := 0];
        unused := unused + 1;
        ghost var t1 := View();
        NothingLoose(t1, |t.rows| - 1);
        PendingBasics(t1, |t.rows| - 1, row[..i], row[i], FirstKeyRight(t.store, leaf), right, row[i + 1..], {});
        LeafIs(store, right);
        InsertInternal(store[right].pairs[0].key, leaf, right, |t.rows| - 1, row[..i], row[i], row[i + 1..], {});
        ContentsKept(t1, View());
      } else {
        TrimLeaf(t, i);
      }
      OkFold();
    }

    /** first_leaf */
    method FirstLeaf() returns (leaf: Link)
      requires Ok()
      ensures leaf == if Pairs() == [] then Null else To(FirstId(rows))
    {
      hide *;
      OkUnfold();
      if nk == 0 {
        return Null;
      }
      if nlevel == 0 {
        NoTree();
      }
      ghost var t := View();
      OkParts(t, nlevel, |rows|);
      var node := root;
      var l := 0;
      while l < nlevel - 1
        invariant 0 <= l <= nlevel - 1 && rows[l] != [] && rows[l][0].id == node
      {
        InnerOf(t, l, 0);
        FirstKid(t, l);
        node := store[node].kids[0];
        l := l + 1;
      }
      FirstIdIs(rows);
      leaf := To(node);
    }

    /** copy_traverse: walks the chain of leaves, and finds every pair in order. */
    method Copy() returns (dst: seq<Pair>)
      requires Ok()
      ensures dst == Pairs() && |dst| == nk && SortedPairs(dst)
    {
      hide *;
      OkUnfold();
      dst := [];
      if nlevel == 0 {
        NoTree();
        NothingSorted();
        return;
      }
      ghost var t := View();
      var leaf := FirstLeaf();
      PairsAreSorted(t);
      if leaf != Null {
        dst := WalkChain(leaf);
      }
    }

    /** The loop of copy_traverse. */
    method WalkChain(first: Link) returns (dst: seq<Pair>)
      requires nlevel > 0 && Good(View(), {}, {}) && nlevel == |rows| && first == To(FirstId(rows))
      ensures dst == Contents(store, LeafRow(rows))
    {
      hide *;
      ghost var t, row := View(), LeafRow(rows);
      WalkStart(t);
      dst := [];
      var leaf := first;
      ghost var i := 0;
      while leaf != Null
        invariant i <= |row| && leaf == LinkAt(row, i) && dst == Contents(store, row[..i])
        decreases |row| - i
      {
        WalkStep(t, i);
        dst := dst + store[leaf.id].pairs;
        leaf := store[leaf.id].next;
        i := i + 1;
      }
      WalkEnd(row, i);
    }
  }

  /** The list after a sequence of insertions. */
  function PutAll(apply: Apply, s: seq<Pair>, ops: seq<(Key, int)>): seq<Pair> {
    if ops == [] then s else Put(apply, PutAll(apply, s, ops[..|ops| - 1]), ops[|ops| - 1].0, ops[|ops| - 1].1)
  }

  /** After any sequence of insertions the tree holds, in order, each key once with all
      the values that were applied to it. */
  method InsertAll(apply: Apply, ops: seq<(Key, int)>) returns (all: seq<Pair>, size: nat)
    ensures all == PutAll(apply, [], ops) && size == |all| && SortedPairs(all)
  {
    var tree := new BTree(apply);
    hide *;
    PutAllNothing(apply);
    assert ops[..0] == [];
    for i := 0 to |ops|
      invariant fresh(tree) && tree.Ok() && tree.apply == apply && tree.Pairs() == PutAll(apply, [], ops[..i])
    {
      var isNew := tree.MapInsert(ops[i].0, ops[i].1);
      PutAllSnoc(apply, ops, i);
    }
    assert ops[..|ops|] == ops;
    all := tree.Copy();
    size := tree.Size();
  }

  lemma {:induction false} PutAllNothing(apply: Apply)
    ensures PutAll(apply, [], []) == []
  {
  }

  lemma {:induction false} PutAllSnoc(apply: Apply, ops: seq<(Key, int)>, i: nat)
    requires i < |ops|
    ensures PutAll(apply, [], ops[..i + 1]) == Put(apply, PutAll(apply, [], ops[..i]), ops[i].0, ops[i].1)
  {
    assert ops[..i + 1][..i] == ops[..i];
  }

  // ----- walking the leaves -----

  function FirstId(rows: seq<Row>): Id {
    if LeafRow(rows) == [] then 0 else LeafRow(rows)[0].id
  }

  lemma {:induction false} FirstIdIs(rows: seq<Row>)
    requires rows != [] && rows[|rows| - 1] != []
    ensures FirstId(rows) == rows[|rows| - 1][0].id
  {
  }

  lemma {:induction false} FirstKid(t: Tree, l: nat)
    requires Good(t, {}, {}) && l < |t.rows| - 1 && t.rows[l] != [] && IsInner(t.store, t.rows[l][0].id)
    ensures t.rows[l + 1] != [] && t.rows[l + 1][0].id == t.store[t.rows[l][0].id].kids[0]
  {
    GoodLink(t, l);
    var n := KidIsBelow(t.store, t.rows[l], t.rows[l + 1], 0, 0);
  }

  function LinkAt(row: Row, i: nat): Link { if i < |row| then To(row[i].id) else Null }

  lemma {:induction false} WalkStart(t: Tree)
    requires Good(t, {}, {})
    ensures LinkAt(LeafRow(t.rows), 0) == To(FirstId(t.rows)) && Contents(t.store, LeafRow(t.rows)[..0]) == []
  {
    LeafRowOk(t);
  }

  lemma {:induction false} WalkStep(t: Tree, i: nat)
    requires Good(t, {}, {}) && LinkAt(LeafRow(t.rows), i) != Null
    ensures i < |LeafRow(t.rows)| && LinkAt(LeafRow(t.rows), i) == To(LeafRow(t.rows)[i].id)
    ensures var row := LeafRow(t.rows);
            && row[i].id in t.store && t.store[row[i].id].Leaf? && t.store[row[i].id].next == LinkAt(row, i + 1)
            && Contents(t.store, row[..i + 1]) == Contents(t.store, row[..i]) + t.store[row[i].id].pairs
  {
    var row := LeafRow(t.rows);
    LeafAt(t.store, row, i);
    assert row[..i + 1] == row[..i] + [row[i]];
    ContentsSnoc(t.store, row[..i], row[i]);
  }

  lemma {:induction false} WalkEnd(row: Row, i: nat)
    requires i <= |row| && LinkAt(row, i) == Null
    ensures row[..i] == row
  {
  }

  lemma {:induction false} PairsAreSorted(t: Tree)
    requires Good(t, {}, {})
    ensures SortedPairs(Contents(t.store, LeafRow(t.rows)))
  {
    LeafRowOk(t);
    var row := LeafRow(t.rows);
    assert row[..|row|] == row;
    ContentsSorted(t.store, row, |row|);
  }

  lemma {:induction false} NothingSorted()
    ensures SortedPairs([])
  {
  }

  function KFanout(): nat { FANOUT }

  function KeysOf(pairs: seq<Pair>): (keys: seq<Key>)
    ensures |keys| == |pairs|
  {
    seq(|pairs|, i requires 0 <= i < |pairs| => pairs[i].key)
  }

  lemma {:induction false} SortedKeys(pairs: seq<Pair>)
    requires SortedPairs(pairs)
    ensures Increasing(KeysOf(pairs))
  {
  }

  lemma {:induction false} LeafIs(store: Store, id: Id)
    requires IsLeaf(store, id)
    ensures id in store && store[id].Leaf?
  {
  }

  lemma {:induction false} LeafFacts(t: Tree, i: nat)
    requires Good(t, {}, {}) && i < |LeafRow(t.rows)|
    ensures |t.rows| >= 1 && Leaves(t) == LeafRow(t.rows)
    ensures IsLeaf(t.store, LeafRow(t.rows)[i].id) && LeafRow(t.rows)[i].id in t.store &&
            t.store[LeafRow(t.rows)[i].id].Leaf?
    ensures SortedPairs(t.store[LeafRow(t.rows)[i].id].pairs)
  {
    LeafAt(t.store, Leaves(t), i);
  }

  lemma {:induction false} PairsCount(apply: Apply, t: Tree, k: Key, v: int)
    requires Good(t, {}, {})
    ensures var s := Contents(t.store, LeafRow(t.rows)); |Put(apply, s, k, v)| == |s| + if Holds(s, k) then 0 else 1
  {
    LeafRowOk(t);
    var row := LeafRow(t.rows);
    assert row[..|row|] == row;
    ContentsSorted(t.store, row, |row|);
    PutIsUpdate(apply, Contents(t.store, row), k, v);
  }

  /** What the code does to the pairs of a leaf is Put. */
  lemma {:induction false} PutAt(apply: Apply, pairs: seq<Pair>, k: Key, v: int, pos: nat, found: bool)
    requires pos <= |pairs| && (found ==> pos < |pairs| && KeysOf(pairs)[pos] == k)
    requires forall i :: 0 <= i < pos ==> KeysOf(pairs)[i] < k
    requires forall i :: pos <= i < |pairs| && !(found && i == pos) ==> k < KeysOf(pairs)[i]
    ensures found <==> Holds(pairs, k)
    ensures found ==> pairs[pos := Pair(pairs[pos].key, apply(false, pairs[pos].value, v))] == Put(apply, pairs, k, v)
    ensures !found ==> var more := pairs[..pos] + [Pair(k, [])] + pairs[pos..];
                       pos < |more| && more[pos] == Pair(k, []) &&
                       more[pos := Pair(k, apply(true, [], v))] == Put(apply, pairs, k, v)
  {
    forall i | 0 <= i < |pairs| ensures KeysOf(pairs)[i] == pairs[i].key {}
    if pos < |pairs| { assert KeysOf(pairs)[pos] == pairs[pos].key; }
    forall i | 0 <= i < pos ensures pairs[i].key < k { assert KeysOf(pairs)[i] < k; }
    BTrees.BelowIs(pairs, k, pos);
  }

  lemma {:induction false} WithPairsIs(store: Store, id: Id, pairs: seq<Pair>)
    requires IsLeaf(store, id)
    ensures WithPairs(store, id, pairs) == store[id := Leaf(store[id].parent, pairs, store[id].next)]
    ensures WithPairs(store, id, pairs).Keys == store.Keys && IsLeaf(WithPairs(store, id, pairs), id)
  {
  }

  lemma {:induction false} LeafIsFull(t: Tree, i: nat, right: Id, unused: Id)
    requires |t.rows| >= 1 && i < |LeafRow(t.rows)| && IsLeaf(t.store, LeafRow(t.rows)[i].id)
    requires |t.store[LeafRow(t.rows)[i].id].pairs| == KFanout() && Numbered(t.store, unused) && right == unused
    ensures FullLeaf(t, i, right) && Leaves(t) == LeafRow(t.rows)
  {
  }

  lemma {:induction false} LeafSplitIs(t: Tree, i: nat, right: Id, unused: Id)
    requires FullLeaf(t, i, right) && Numbered(t.store, unused) && right == unused && Leaves(t) == LeafRow(t.rows)
    ensures var row := LeafRow(t.rows);
            && SplitLeafTree(t, i, right) == Tree(SplitLeaf(t.store, row[i].id, right), t.root,
                 t.rows[|t.rows| - 1 := row[..i] + [row[i], NewSlot(t, i, right)] + row[i + 1..]], t.height[right := 0])
            && LeafRow(SplitLeafTree(t, i, right).rows) == Leaves(SplitLeafTree(t, i, right))
    ensures var store' := SplitLeaf(t.store, LeafRow(t.rows)[i].id, right);
            && Numbered(store', unused + 1) && IsLeaf(store', right) && |store'[right].pairs| > 0
            && store'[right].pairs[0].key == FirstKeyRight(t.store, LeafRow(t.rows)[i].id)
  {
  }

  lemma {:induction false} NothingLoose(t: Tree, l: nat)
    ensures LooseBelow(t, {}, l)
  {
  }

  lemma {:induction false} ContentsKept(t: Tree, t': Tree)
    requires |t.rows| >= 1 && Kept(t, t', |t.rows| - 1) && RowsOk(t)
    ensures |t'.rows| >= 1 && Contents(t'.store, LeafRow(t'.rows)) == Contents(t.store, LeafRow(t.rows))
  {
    KeptRow(t, t', |t.rows| - 1, |t.rows| - 1);
    var row := LeafRow(t.rows);
    forall i | 0 <= i < |row| ensures SameBody(t.store, t'.store, row[i].id) { InStore(t, |t.rows| - 1, i); }
    ContentsSame(t.store, t'.store, row);
  }

  lemma {:induction false} TrimLeaf(t: Tree, i: nat)
    requires i < |LeafRow(t.rows)| && Good(t, {}, {LeafRow(t.rows)[i].id}) && IsLeaf(t.store, LeafRow(t.rows)[i].id)
    requires |t.store[LeafRow(t.rows)[i].id].pairs| != KFanout()
    ensures Good(t, {}, {})
  {
    var p := LeafRow(t.rows)[i].id;
    assert RowSizes(t.store, t.rows[|t.rows| - 1], |t.rows| == 1, {p});
    assert SizeOk(t.store, p, |t.rows| == 1, Spare({p}, p));
    forall l | 0 <= l < |t.rows| ensures RowSizes(t.store, t.rows[l], l == 0, {}) {
      var row := t.rows[l];
      assert RowSizes(t.store, row, l == 0, {p});
      forall n | 0 <= n < |row|
        ensures row[n].id in t.store && SizeOk(t.store, row[n].id, l == 0, Spare({}, row[n].id))
      {
        assert SizeOk(t.store, row[n].id, l == 0, Spare({p}, row[n].id));
      }
    }
    assert SizesOk(t, true, {});
  }

  /** The row of the leaves. */
  function LeafRow(rows: seq<Row>): Row {
    if rows == [] then [] else rows[|rows| - 1]
  }

  lemma {:induction false} LeafRowIs(rows: seq<Row>)
    requires rows != []
    ensures LeafRow(rows) == rows[|rows| - 1]
  {
  }

  lemma {:induction false} FirstLeafGood(t: Tree, id: Id, key: Key, unused: Id)
    requires t == Tree(map[id := Leaf(Null, [], Null)], id, [[Slot(id, Bottom)]], map[id := 0]) && unused == id + 1
    ensures Good(t, {}, {}) && Contents(t.store, LeafRow(t.rows)) == [] && Numbered(t.store, unused)
    ensures LeafRow(t.rows) == [Slot(id, Bottom)] && Fits(LeafRow(t.rows), 0, key)
  {
    assert RowOk(t.height, t.rows[0], 0);
    assert LeafOk(t.store, t.rows[0], 0);
    assert t.rows[0][..0] == [];
  }

  lemma {:induction false} OkParts(t: Tree, nlevel: nat, n: nat)
    requires n == |t.rows| == nlevel && Good(t, {}, {})
    ensures n >= 1 && t.rows[0] == [Slot(t.root, Bottom)] && (forall k :: Fits(t.rows[0], 0, k))
  {
  }

  lemma {:induction false} InnerOf(t: Tree, l: nat, i: nat)
    requires Good(t, {}, {}) && l < |t.rows| - 1 && i < |t.rows[l]|
    ensures Linked(t.store, t.rows[l], t.rows[l + 1]) && IsInner(t.store, t.rows[l][i].id)
    ensures t.rows[l][i].id in t.store && t.store[t.rows[l][i].id].Inner?
    ensures Increasing(t.store[t.rows[l][i].id].keys)
    ensures |t.store[t.rows[l][i].id].kids| == |t.store[t.rows[l][i].id].keys| + 1
  {
    GoodLink(t, l);
    assert RowOk(t.height, t.rows[l + 1], |t.rows| - 2 - l);
    KeysIncrease(t.store, t.rows[l], t.rows[l + 1], i);
  }

  /** A node of inner keys is split when it has this many. */
  function KSplitAt(): nat { FANOUT - 1 }

  function KOrder(): nat { ORDER }

  ghost predicate Numbered(store: Store, unused: Id) {
    forall id :: id in store ==> id < unused
  }

  lemma {:induction false} SameNumbers(store: Store, store': Store, unused: Id)
    requires store'.Keys == store.Keys && Numbered(store, unused)
    ensures Numbered(store', unused)
  {
    assert forall id :: id in store' <==> id in store'.Keys;
  }

  lemma {:induction false} SameLoose(t: Tree, t': Tree, loose: set<Id>, l: nat)
    requires LooseBelow(t, loose, l) && t'.height == t.height && t'.rows == t.rows
    ensures LooseBelow(t', loose, l)
  {
  }

  lemma {:induction false} NotTooFat(t: Tree, loose: set<Id>, l: nat, a: Row, p: Slot, b: Row)
    requires Good(t, loose, {p.id}) && IsInner(t.store, p.id) && l < |t.rows| && t.rows[l] == a + [p] + b
    ensures |t.store[p.id].keys| <= KSplitAt()
  {
    assert RowSizes(t.store, t.rows[l], l == 0, {p.id}) && t.rows[l][|a|] == p;
    assert SizeOk(t.store, p.id, l == 0, Spare({p.id}, p.id));
  }

  lemma {:induction false} MakeFull(t: Tree, l: nat, a: Row, p: Slot, b: Row, np: Id, unused: Id, loose: set<Id>)
    requires Good(t, loose, {p.id}) && l + 1 < |t.rows| && t.rows[l] == a + [p] + b && IsInner(t.store, p.id)
    requires |t.store[p.id].keys| == KSplitAt() && Numbered(t.store, unused) && np == unused
    ensures Full(t, l, a, p, b, np) && p.id in t.height && RowsOk(t) && LinksOk(t, -1) &&
            t.height[p.id] + l + 1 == |t.rows|
  {
    FullHeight(t, l, a, p, b, np);
  }

  lemma {:induction false} SplitIs(t: Tree, l: nat, a: Row, p: Slot, b: Row, np: Id)
    requires Full(t, l, a, p, b, np) && p.id in t.height
    ensures KOrder() < |t.store[p.id].keys| && MiddleKey(t.store, p.id) == t.store[p.id].keys[KOrder()]
    ensures AfterSplit(t, l, a, p, b, np)
            == Tree(SplitInner(t.store, p.id, np), t.root,
                    SplitRows(t.rows, l, a, p, t.store[p.id].keys[KOrder()], np, b), t.height[np := t.height[p.id]])
    ensures np in SplitInner(t.store, p.id, np) && SplitInner(t.store, p.id, np)[np].Inner?
    ensures MovedKids(t.store, p.id) == KidsFrom(SplitInner(t.store, p.id, np)[np].kids, 0)
    ensures forall unused :: np == unused && Numbered(t.store, unused) ==>
              Numbered(SplitInner(t.store, p.id, np), unused + 1)
  {
    var kids, more := t.store[p.id].kids, SplitInner(t.store, p.id, np)[np].kids;
    forall id | id in MovedKids(t.store, p.id) ensures id in KidsFrom(more, 0) {
      var j :| ORDER < j < |kids| && kids[j] == id;
      assert more[j - ORDER - 1] == id;
    }
    forall id | id in KidsFrom(more, 0) ensures id in MovedKids(t.store, p.id) {
      var j :| 0 <= j < |more| && more[j] == id;
      assert kids[j + ORDER + 1] == id;
    }
  }

  lemma {:induction false} KeptChain(t: Tree, t1: Tree, t2: Tree, l: nat)
    requires Kept(t, t1, l) && Kept(t1, t2, l) && |t1.rows| == |t.rows|
    ensures Kept(t, t2, l)
  {
    forall id | id in t.height && t.height[id] + l < |t.rows| ensures SameBody(t.store, t2.store, id) {
      assert SameBody(t.store, t1.store, id) && SameBody(t1.store, t2.store, id);
    }
  }

  lemma {:induction false} GrownNumbers(t: Tree, left: Id, key: Key, right: Id, nr: Id, unused: Id)
    requires Numbered(t.store, unused) && left in t.store && right in t.store && nr == unused
    ensures nr !in t.store && Numbered(GrownStore(t.store, left, key, right, nr), unused + 1)
  {
  }

  lemma {:induction false} GrownIs(t: Tree, left: Id, key: Key, right: Id, nr: Id)
    requires left in t.store && right in t.store
    ensures Grown(t, left, key, right, nr)
            == Tree(GrownStore(t.store, left, key, right, nr), nr, [[Slot(nr, Bottom)]] + t.rows,
                    t.height[nr := |t.rows|])
  {
  }

  lemma {:induction false} GoodKeys(t: Tree, loose: set<Id>)
    requires Good(t, loose, {})
    ensures t.height.Keys == t.store.Keys
  {
  }

  lemma {:induction false} InnerIs(store: Store, id: Id)
    requires IsInner(store, id)
    ensures id in store && store[id].Inner?
  {
  }

  /** The children from `j` on are still to be pointed to `np`. */
  ghost predicate Fixing(t0: Tree, t: Tree, np: Id, l: nat, i: nat, kids: seq<Id>, j: nat, loose: set<Id>) {
    && l < |t.rows| - 1 && i < |t.rows[l]| && t.rows[l][i].id == np && IsInner(t.store, np) && t.store[np].kids == kids
    && Good(t, loose + KidsFrom(kids, j), {}) && t.store.Keys == t0.store.Keys
    && forall id :: id in t0.store ==> SameBody(t0.store, t.store, id)
  }

  lemma {:induction false} FixingStart(t: Tree, np: Id, l: nat, i: nat, kids: seq<Id>, loose: set<Id>)
    requires l < |t.rows| - 1 && i < |t.rows[l]| && t.rows[l][i].id == np && IsInner(t.store, np) &&
             t.store[np].kids == kids
    requires Good(t, loose + KidsFrom(kids, 0), {})
    ensures Fixing(t, t, np, l, i, kids, 0, loose)
  {
    hide Good, KidsFrom;
  }

  lemma {:induction false} FixingStep(t0: Tree, t: Tree, np: Id, l: nat, i: nat, kids: seq<Id>, j: nat, loose: set<Id>)
    requires Fixing(t0, t, np, l, i, kids, j, loose) && j < |kids|
    ensures kids[j] in t.store
    ensures Fixing(t0, t.(store := FixedStore(t.store, kids[j], np)), np, l, i, kids, j + 1, loose)
  {
    hide Good, KidsFrom;
    KidsFromNext(kids, j);
    assert loose + KidsFrom(kids, j) == loose + KidsFrom(kids, j + 1) + {kids[j]};
    SiblingKid(t, l, i, j, loose + KidsFrom(kids, j));
    PointerFixed(t, l, i, j, loose + KidsFrom(kids, j + 1));
    FixedBodies(t.store, kids[j], np);
    BodyTrans(t0.store, t.store, FixedStore(t.store, kids[j], np));
    assert SameBody(t.store, FixedStore(t.store, kids[j], np), np);
  }

  lemma {:induction false} FixingEnd(t0: Tree, t: Tree, np: Id, l: nat, i: nat, kids: seq<Id>, loose: set<Id>)
    requires Fixing(t0, t, np, l, i, kids, |kids|, loose)
    ensures Good(t, loose, {}) && t.store.Keys == t0.store.Keys &&
            forall id :: id in t0.store ==> SameBody(t0.store, t.store, id)
  {
    hide Good, KidsFrom;
    NothingFrom(kids);
    assert loose + {} == loose;
  }
}

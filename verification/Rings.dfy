/** Circular doubly linked lists through a dummy entry, as the cache and the list of
    snapshots keep them. Entries are addressed by number, the dummy by 0, and each link
    field is a map from numbers. */
module Rings {
  type Id = nat

  predicate NoDup(s: seq<Id>) {
    forall i, j :: 0 <= i < j < |s| ==> s[i] != s[j]
  }

  function Drop(chain: seq<Id>, i: nat): seq<Id>
    requires i < |chain|
  {
    chain[..i] + chain[i + 1..]
  }

  lemma {:induction false} DropLength(chain: seq<Id>, i: nat)
    requires i < |chain|
    ensures |Drop(chain, i)| == |chain| - 1
  {
  }

  lemma {:induction false} DropAt(chain: seq<Id>, i: nat, j: nat)
    requires i < |chain| && j < |Drop(chain, i)|
    ensures |Drop(chain, i)| == |chain| - 1 && Drop(chain, i)[j] == if j < i then chain[j] else chain[j + 1]
  {
  }

  lemma {:induction false} DropNoDup(chain: seq<Id>, i: nat)
    requires i < |chain| && NoDup(chain)
    ensures NoDup(Drop(chain, i)) && chain[i] !in Drop(chain, i)
  {
    hide Drop;
    forall j, k | 0 <= j < k < |Drop(chain, i)| ensures Drop(chain, i)[j] != Drop(chain, i)[k] {
      DropAt(chain, i, j);
      DropAt(chain, i, k);
    }
    forall j | 0 <= j < |Drop(chain, i)| ensures Drop(chain, i)[j] != chain[i] {
      DropAt(chain, i, j);
    }
  }

  lemma {:induction false} InDrop(chain: seq<Id>, i: nat, id: Id)
    requires i < |chain| && NoDup(chain)
    ensures id in Drop(chain, i) <==> id in chain && id != chain[i]
  {
    DropNoDup(chain, i);
  }

  function Without(s: seq<Id>, e: Id): seq<Id> {
    if s == [] then [] else if s[0] == e then s[1..] else [s[0]] + Without(s[1..], e)
  }

  lemma {:induction false} WithoutIs(s: seq<Id>, i: nat)
    requires NoDup(s) && i < |s|
    ensures Without(s, s[i]) == Drop(s, i)
  {
    if i == 0 {
      assert Drop(s, 0) == s[1..];
    } else {
      WithoutIs(s[1..], i - 1);
      assert Drop(s, i) == [s[0]] + Drop(s[1..], i - 1);
    }
  }

  lemma {:induction false} WithoutHas(s: seq<Id>, e: Id)
    requires NoDup(s) && e in s
    ensures NoDup(Without(s, e)) && forall id :: id in Without(s, e) <==> id in s && id != e
  {
    var i :| 0 <= i < |s| && s[i] == e;
    WithoutIs(s, i);
    DropNoDup(s, i);
    forall id ensures id in Drop(s, i) <==> id in s && id != e { InDrop(s, i, id); }
  }

  // ----- the circular list -----

  /** `next` and `prev` run through the dummy entry 0 and then `order`, and back. */
  predicate Ring(next: map<Id, Id>, prev: map<Id, Id>, order: seq<Id>) {
    && NoDup(order) && 0 !in order
    && forall i :: 0 <= i <= |order| ==> Linked(next, prev, At(order, i), At(order, i + 1))
  }

  /** Places 0 and past the end are the dummy entry; place `i` is `order[i - 1]`. */
  function At(order: seq<Id>, i: nat): Id { if 1 <= i <= |order| then order[i - 1] else 0 }

  predicate Linked(next: map<Id, Id>, prev: map<Id, Id>, a: Id, b: Id) {
    a in next && next[a] == b && b in prev && prev[b] == a
  }

  lemma {:induction false} RingAt(next: map<Id, Id>, prev: map<Id, Id>, order: seq<Id>, i: nat)
    requires Ring(next, prev, order) && i <= |order|
    ensures Linked(next, prev, At(order, i), At(order, i + 1))
  {
  }

  lemma {:induction false} SameAt(order: seq<Id>, i: nat, j: nat)
    requires NoDup(order) && 0 !in order && i <= |order| && j <= |order| && At(order, i) == At(order, j)
    ensures i == j
  {
  }

  lemma {:induction false} DropAtIs(order: seq<Id>, i: nat, j: nat)
    requires i < |order|
    ensures At(Drop(order, i), j) == if j <= i then At(order, j) else At(order, j + 1)
  {
  }

  /** Unlinking an entry leaves the ring of the others. */
  lemma {:induction false} RingRemove(next: map<Id, Id>, prev: map<Id, Id>, order: seq<Id>, i: nat)
    requires Ring(next, prev, order) && i < |order|
    ensures var e := order[i];
            e in next && e in prev && Ring(next[prev[e] := next[e]], prev[next[e] := prev[e]], Drop(order, i))
  {
    var e := order[i];
    RingAt(next, prev, order, i);
    RingAt(next, prev, order, i + 1);
    var next', prev', order' := next[prev[e] := next[e]], prev[next[e] := prev[e]], Drop(order, i);
    DropNoDup(order, i);
    InDrop(order, i, 0);
    forall j | 0 <= j <= |order'| ensures Linked(next', prev', At(order', j), At(order', j + 1)) {
      DropAtIs(order, i, j);
      DropAtIs(order, i, j + 1);
      RemoveLink(next, prev, order, i, j);
    }
  }

  lemma {:induction false} RemoveLink(next: map<Id, Id>, prev: map<Id, Id>, order: seq<Id>, i: nat, j: nat)
    requires Ring(next, prev, order) && i < |order| && j < |order|
    ensures var e := order[i];
            && e in next && e in prev
            && Linked(next[prev[e] := next[e]], prev[next[e] := prev[e]],
                      if j <= i then At(order, j) else At(order, j + 1),
                        if j + 1 <= i then At(order, j + 1) else At(order, j + 2))
  {
    hide Ring, At;
    RingAt(next, prev, order, i);
    RingAt(next, prev, order, i + 1);
    EntryIsAt(order, i);
    Distinct(next, prev, order);
    var e := order[i];
    if j < i {
      RingAt(next, prev, order, j);
      if At(order, j) == At(order, i) { SameAt(order, j, i); }
      NotPast(order, i + 2, j + 1);
    } else if j > i {
      RingAt(next, prev, order, j + 1);
      if At(order, j + 1) == At(order, i) { SameAt(order, j + 1, i); }
      NotPast(order, j + 2, i + 2);
    }
  }

  lemma {:induction false} Distinct(next: map<Id, Id>, prev: map<Id, Id>, order: seq<Id>)
    requires Ring(next, prev, order)
    ensures NoDup(order) && 0 !in order
  {
  }

  lemma {:induction false} EntryIsAt(order: seq<Id>, i: nat)
    requires i < |order|
    ensures At(order, i + 1) == order[i]
  {
  }

  lemma {:induction false} NotPast(order: seq<Id>, i: nat, j: nat)
    requires NoDup(order) && 0 !in order && 1 <= i <= |order| + 1 && 1 <= j <= |order| + 1 && i != j
    ensures At(order, i) != At(order, j)
  {
  }

  /** Linking an entry in just before the dummy makes it the newest. */
  lemma {:induction false} RingAppend(next: map<Id, Id>, prev: map<Id, Id>, order: seq<Id>, e: Id)
    requires Ring(next, prev, order) && e !in order && e != 0
    ensures 0 in prev && Ring(next[e := 0][prev[0] := e], prev[e := prev[0]][0 := e], order + [e])
  {
    RingAt(next, prev, order, |order|);
    var next', prev', order' := next[e := 0][prev[0] := e], prev[e := prev[0]][0 := e], order + [e];
    forall j | 0 <= j <= |order'| ensures Linked(next', prev', At(order', j), At(order', j + 1)) {
      if j < |order| {
        RingAt(next, prev, order, j);
      }
    }
  }

  lemma {:induction false} AtIs(order: seq<Id>, i: nat)
    requires 0 !in order && 1 <= i <= |order| + 1
    ensures (At(order, i) == 0 <==> i == |order| + 1) && (i <= |order| ==> At(order, i) == order[i - 1])
  {
  }

  lemma {:induction false} LinkedIs(next: map<Id, Id>, prev: map<Id, Id>, a: Id, b: Id)
    requires Linked(next, prev, a, b)
    ensures a in next && next[a] == b
  {
  }

  lemma {:induction false} RingFirst(next: map<Id, Id>, prev: map<Id, Id>, order: seq<Id>)
    requires Ring(next, prev, order)
    ensures 0 in next && next[0] == At(order, 1) && (next[0] == 0 <==> order == []) &&
            (order != [] ==> next[0] == order[0])
  {
    RingAt(next, prev, order, 0);
  }
}

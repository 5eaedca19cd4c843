/** The B+tree of Metis (lib/btree.hh, lib/bsearch.hh). Nodes are addressed by number in
    a store, as the source addresses them by pointer, and are updated in place. */
module BTrees {
  const ORDER: nat := 3
  const FANOUT: nat := 2 * ORDER + 2

  type Key = int
  type Value = seq<int>
  datatype Pair = Pair(key: Key, value: Value)

  type Id = nat
  datatype Link = Null | To(id: Id)

  datatype Node =
    | Leaf(parent: Link, pairs: seq<Pair>, next: Link)
    | Inner(parent: Link, keys: seq<Key>, kids: seq<Id>)

  type Store = map<Id, Node>

  // ----- searching a node -----

  predicate Increasing(a: seq<Key>) {
    forall i, j :: 0 <= i < j < |a| ==> a[i] < a[j]
  }

  /** xsearch::lower_bound: where `k` is or would go among distinct sorted keys. */
  method LowerBound(k: Key, a: seq<Key>) returns (p: nat, found: bool)
    requires Increasing(a)
    ensures p <= |a| && (found <==> k in a) && (found ==> p < |a| && a[p] == k)
    ensures forall i :: 0 <= i < p ==> a[i] < k
    ensures forall i :: p <= i < |a| && !(found && i == p) ==> k < a[i]
  {
    if |a| == 0 {
      return 0, false;
    }
    var l, r := 0, |a| - 1;
    while l < r
      invariant 0 <= l <= |a| && -1 <= r < |a| && l <= r + 1
      invariant forall i :: 0 <= i < l ==> a[i] < k
      invariant forall i :: r < i < |a| ==> k < a[i]
      decreases r - l
    {
      var m := (l + r) / 2;
      if k == a[m] {
        return m, true;
      }
      if k < a[m] {
        r := m - 1;
      } else {
        l := m + 1;
      }
    }
    if l > r {
      return l, false;
    }
    if k == a[l] {
      return l, true;
    }
    p, found := if k > a[l] then l + 1 else l, false;
  }

  /** xsearch::upper_bound: how many of the keys are at most `k`. */
  method UpperBound(k: Key, a: seq<Key>) returns (p: nat)
    requires Increasing(a)
    ensures p <= |a|
    ensures forall i :: 0 <= i < p ==> a[i] <= k
    ensures forall i :: p <= i < |a| ==> k < a[i]
  {
    var found;
    p, found := LowerBound(k, a);
    p := p + if found then 1 else 0;
  }

  // ----- what a tree stands for: a sorted list of pairs -----

  type Apply = (bool, Value, int) -> Value

  predicate SortedPairs(s: seq<Pair>) {
    forall i, j :: 0 <= i < j < |s| ==> s[i].key < s[j].key
  }

  /** How many pairs come before key `k`. */
  function Below(s: seq<Pair>, k: Key): (p: nat)
    ensures p <= |s| && (forall i :: 0 <= i < p ==> s[i].key < k) && (p < |s| ==> s[p].key >= k)
  {
    if s == [] || s[0].key >= k then 0 else 1 + Below(s[1..], k)
  }

  predicate Holds(s: seq<Pair>, k: Key) {
    Below(s, k) < |s| && s[Below(s, k)].key == k
  }

  /** The value of key `k` once `v` has been applied to it, be it new or not. */
  function Applied(apply: Apply, s: seq<Pair>, k: Key, v: int): Value {
    if Holds(s, k) then apply(false, s[Below(s, k)].value, v) else apply(true, [], v)
  }

  /** The list after value `v` has been applied to key `k`. */
  function Put(apply: Apply, s: seq<Pair>, k: Key, v: int): seq<Pair> {
    var p, pair := Below(s, k), Pair(k, Applied(apply, s, k, v));
    if Holds(s, k) then s[p := pair] else s[..p] + [pair] + s[p..]
  }

  /** Put keeps the list sorted, gives `k` its new value, and leaves all other keys alone. */
  lemma {:induction false} PutIsUpdate(apply: Apply, s: seq<Pair>, k: Key, v: int)
    requires SortedPairs(s)
    ensures Updated(s, Put(apply, s, k, v), Pair(k, Applied(apply, s, k, v)))
    ensures |Put(apply, s, k, v)| == |s| + (if Holds(s, k) then 0 else 1)
  {
    var i, pair := Below(s, k), Pair(k, Applied(apply, s, k, v));
    if Holds(s, k) { Replaced(s, i, pair); } else { Inserted(s, i, pair); }
  }

  /** `put` is `s`, sorted, but for the pair of one key. */
  ghost predicate Updated(s: seq<Pair>, put: seq<Pair>, pair: Pair) {
    SortedPairs(put) && pair in put && forall p: Pair :: p.key != pair.key ==> (p in put <==> p in s)
  }

  lemma {:induction false} Replaced(s: seq<Pair>, i: nat, pair: Pair)
    requires SortedPairs(s) && i < |s| && s[i].key == pair.key
    ensures Updated(s, s[i := pair], pair)
  {
    var put := s[i := pair];
    assert put[i] == pair;
    forall p: Pair | p.key != pair.key && p in s
      ensures p in put
    {
      var j :| 0 <= j < |s| && s[j] == p;
      assert put[j] == p;
    }
  }

  lemma {:induction false} Inserted(s: seq<Pair>, i: nat, pair: Pair)
    requires SortedPairs(s) && i <= |s|
    requires (forall j :: 0 <= j < i ==> s[j].key < pair.key) && (forall j :: i <= j < |s| ==> pair.key < s[j].key)
    ensures Updated(s, s[..i] + [pair] + s[i..], pair)
  {
    assert s == s[..i] + s[i..];
  }

  lemma {:induction false} BelowIs(s: seq<Pair>, k: Key, p: nat)
    requires p <= |s| && (forall i :: 0 <= i < p ==> s[i].key < k) && (p < |s| ==> s[p].key >= k)
    ensures Below(s, k) == p
  {
  }

  lemma {:induction false} BelowIsLocal(a: seq<Pair>, m: seq<Pair>, b: seq<Pair>, k: Key)
    requires forall i :: 0 <= i < |a| ==> a[i].key < k
    requires forall i :: 0 <= i < |b| ==> k < b[i].key
    ensures Below(a + m + b, k) == |a| + Below(m, k)
    ensures Holds(a + m + b, k) <==> Holds(m, k)
    ensures Holds(m, k) ==> (a + m + b)[|a| + Below(m, k)] == m[Below(m, k)]
  {
    var s, p := a + m + b, Below(m, k);
    assert p < |m| ==> s[|a| + p] == m[p];
    assert p == |m| && b != [] ==> s[|a| + p] == b[0];
    BelowIs(s, k, |a| + p);
  }

  /** Put works on the part of the list that the key falls into. */
  lemma {:induction false} PutIsLocal(apply: Apply, a: seq<Pair>, m: seq<Pair>, b: seq<Pair>, k: Key, v: int)
    requires forall i :: 0 <= i < |a| ==> a[i].key < k
    requires forall i :: 0 <= i < |b| ==> k < b[i].key
    ensures Put(apply, a + m + b, k, v) == a + Put(apply, m, k, v) + b
  {
    BelowIsLocal(a, m, b, k);
    assert Applied(apply, a + m + b, k, v) == Applied(apply, m, k, v);
    var p, pair := Below(m, k), Pair(k, Applied(apply, m, k, v));
    if Holds(m, k) {
      UpdateInside(a, m, b, p, pair);
    } else {
      SplitInside(a, m, b, p);
      Regroup(a, m[..p], [pair], m[p..], b);
    }
  }

  lemma {:induction false} UpdateInside<T>(a: seq<T>, m: seq<T>, b: seq<T>, p: nat, x: T)
    requires p < |m|
    ensures (a + m + b)[|a| + p := x] == a + m[p := x] + b
  {
  }

  lemma {:induction false} Regroup<T>(a: seq<T>, x: seq<T>, y: seq<T>, z: seq<T>, b: seq<T>)
    ensures (a + x) + y + (z + b) == a + (x + y + z) + b
  {
  }

  lemma {:induction false} SplitInside<T>(a: seq<T>, m: seq<T>, b: seq<T>, p: nat)
    requires p <= |m|
    ensures (a + m + b)[..|a| + p] == a + m[..p] && (a + m + b)[|a| + p..] == m[p..] + b
  {
  }
}

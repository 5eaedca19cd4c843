/** The merging iterator (table/merger.cc): one cursor over the sorted union of
    several sorted children, in both directions. */
module Mergers {
  import opened Keys
  import opened Versions
  import opened Cursors

  // ----- what it iterates over -----

  /** Each child is sorted, and no two children share a key. */
  ghost predicate Mergeable(lists: seq<seq<Entry>>) {
    && (forall i :: 0 <= i < |lists| ==> Sorted(lists[i]))
    && forall i, j :: 0 <= i < j < |lists| ==> NoSharedKey(lists[i], lists[j])
  }

  ghost predicate NoSharedKey(a: seq<Entry>, b: seq<Entry>) {
    forall x, y :: x in a && y in b ==> x.key != y.key
  }

  ghost predicate InSome(lists: seq<seq<Entry>>, e: Entry) {
    exists i :: 0 <= i < |lists| && e in lists[i]
  }

  ghost predicate IsUnion(lists: seq<seq<Entry>>, all: seq<Entry>) {
    Sorted(all) && forall e :: e in all <==> InSome(lists, e)
  }

  function Merge(a: seq<Entry>, b: seq<Entry>): (m: seq<Entry>)
    ensures forall e :: e in m <==> e in a || e in b
    decreases |a| + |b|
  {
    if a == [] then b
    else if b == [] then a
    else if Before(a[0].key, b[0].key) then
      assert a == [a[0]] + a[1..];
      [a[0]] + Merge(a[1..], b)
    else
      assert b == [b[0]] + b[1..];
      [b[0]] + Merge(a, b[1..])
  }

  lemma {:induction false} MergeSorts(a: seq<Entry>, b: seq<Entry>)
    requires Sorted(a) && Sorted(b) && NoSharedKey(a, b)
    ensures Sorted(Merge(a, b))
    decreases |a| + |b|
  {
    if a != [] && b != [] {
      if Before(a[0].key, b[0].key) {
        MergeSorts(a[1..], b);
        SortedCons(a[0], Merge(a[1..], b));
      } else {
        assert a[0] in a && b[0] in b;
        MergeSorts(a, b[1..]);
        SortedCons(b[0], Merge(a, b[1..]));
      }
    }
  }

  lemma {:induction false} SortedCons(e: Entry, m: seq<Entry>)
    requires Sorted(m) && forall x :: x in m ==> Before(e.key, x.key)
    ensures Sorted([e] + m)
  {
  }

  function Union(lists: seq<seq<Entry>>): seq<Entry> {
    if lists == [] then [] else Merge(lists[0], Union(lists[1..]))
  }

  lemma {:induction false} UnionIsUnion(lists: seq<seq<Entry>>)
    requires Mergeable(lists)
    ensures IsUnion(lists, Union(lists))
  {
    if lists != [] {
      var rest := lists[1..];
      UnionIsUnion(rest);
      forall x, y | x in lists[0] && y in Union(rest) ensures x.key != y.key {
        assert InSome(rest, y);
        var i :| 0 <= i < |rest| && y in rest[i];
        assert NoSharedKey(lists[0], lists[i + 1]);
      }
      MergeSorts(lists[0], Union(rest));
      forall e ensures e in Union(lists) <==> InSome(lists, e) {
        InSomeSplits(lists, e);
      }
    }
  }

  lemma {:induction false} InSomeSplits(lists: seq<seq<Entry>>, e: Entry)
    requires lists != []
    ensures InSome(lists, e) <==> e in lists[0] || InSome(lists[1..], e)
  {
    if InSome(lists, e) {
      var i :| 0 <= i < |lists| && e in lists[i];
      if i > 0 { assert e in lists[1..][i - 1]; }
    }
    if InSome(lists[1..], e) {
      var i :| 0 <= i < |lists[1..]| && e in lists[1..][i];
      assert e in lists[i + 1];
    }
  }

  // ----- where the children stand -----

  /** A key at or after cursor position `c`. */
  predicate Ahead(all: seq<Entry>, c: nat, k: InternalKey) {
    c < |all| && !Before(k, all[c].key)
  }

  /** A child that stands at its first entry from `c` on. */
  predicate AtFirst(all: seq<Entry>, c: nat, list: seq<Entry>, p: nat) {
    && p <= |list|
    && (forall k :: 0 <= k < p ==> !Ahead(all, c, list[k].key))
    && (forall k :: p <= k < |list| ==> Ahead(all, c, list[k].key))
  }

  /** A child that stands at its last entry before `c`, or nowhere if it has none. */
  predicate AtLast(all: seq<Entry>, c: nat, list: seq<Entry>, p: nat) {
    && p <= |list|
    && (forall k :: 0 <= k < |list| && (p == |list| || k > p) ==> Ahead(all, c, list[k].key))
    && (forall k :: 0 <= k <= p < |list| ==> !Ahead(all, c, list[k].key))
  }

  predicate Standing(lists: seq<seq<Entry>>, pos: seq<nat>) {
    |pos| == |lists| && forall i :: 0 <= i < |lists| ==> pos[i] <= |lists[i]|
  }

  predicate Front(lists: seq<seq<Entry>>, all: seq<Entry>, c: nat, pos: seq<nat>) {
    Standing(lists, pos) && forall i :: 0 <= i < |lists| ==> AtFirst(all, c, lists[i], pos[i])
  }

  predicate Rear(lists: seq<seq<Entry>>, all: seq<Entry>, c: nat, pos: seq<nat>) {
    Standing(lists, pos) && forall i :: 0 <= i < |lists| ==> AtLast(all, c, lists[i], pos[i])
  }

  /** Child `i` stands at entry `e`. */
  predicate Shows(lists: seq<seq<Entry>>, pos: seq<nat>, i: int, e: Entry) {
    Standing(lists, pos) && 0 <= i < |lists| && pos[i] < |lists[i]| && lists[i][pos[i]] == e
  }

  /** No valid child stands at a smaller key than child `i`; none is valid if `i` is -1. */
  predicate IsSmallest(lists: seq<seq<Entry>>, pos: seq<nat>, i: int)
    requires Standing(lists, pos) && -1 <= i < |lists|
  {
    forall j :: 0 <= j < |lists| && pos[j] < |lists[j]| ==>
      i >= 0 && pos[i] < |lists[i]| && !Before(lists[j][pos[j]].key, lists[i][pos[i]].key)
  }

  predicate IsLargest(lists: seq<seq<Entry>>, pos: seq<nat>, i: int)
    requires Standing(lists, pos) && -1 <= i < |lists|
  {
    forall j :: 0 <= j < |lists| && pos[j] < |lists[j]| ==>
      i >= 0 && pos[i] < |lists[i]| && !Before(lists[i][pos[i]].key, lists[j][pos[j]].key)
  }

  lemma {:induction false} SameKeySameEntry(all: seq<Entry>, x: Entry, y: Entry)
    requires Sorted(all) && x in all && y in all && !Before(x.key, y.key) && !Before(y.key, x.key)
    ensures x == y
  {
  }

  lemma {:induction false} InUnion(lists: seq<seq<Entry>>, all: seq<Entry>, i: nat, k: nat)
    requires IsUnion(lists, all) && i < |lists| && k < |lists[i]|
    ensures lists[i][k] in all
  {
    assert InSome(lists, lists[i][k]);
  }

  /** Which child holds the entry at `c`. */
  lemma {:induction false} Owner(lists: seq<seq<Entry>>, all: seq<Entry>, c: nat) returns (i: nat, k: nat)
    requires IsUnion(lists, all) && c < |all|
    ensures i < |lists| && k < |lists[i]| && lists[i][k] == all[c]
  {
    assert InSome(lists, all[c]);
    i :| 0 <= i < |lists| && all[c] in lists[i];
    k :| 0 <= k < |lists[i]| && lists[i][k] == all[c];
  }

  /** The smallest head of children that stand at their first entries from `c` on is
      the entry at `c`. */
  lemma {:induction false} SmallestIsNext(lists: seq<seq<Entry>>, all: seq<Entry>, c: nat, pos: seq<nat>, s: int)
    requires Mergeable(lists) && IsUnion(lists, all) && Front(lists, all, c, pos) && c <= |all|
    requires -1 <= s < |lists| && IsSmallest(lists, pos, s) && (s >= 0 ==> pos[s] < |lists[s]|)
    ensures s >= 0 <==> c < |all|
    ensures s >= 0 ==> Shows(lists, pos, s, all[c])
  {
    if s >= 0 {
      assert AtFirst(all, c, lists[s], pos[s]);
      InUnion(lists, all, s, pos[s]);
    }
    if c < |all| {
      var i, k := Owner(lists, all, c);
      assert AtFirst(all, c, lists[i], pos[i]);
      assert k >= pos[i];
      assert lists[i][pos[i]] == all[c] || Before(lists[i][pos[i]].key, all[c].key) by { assert Sorted(lists[i]); }
      SameKeySameEntry(all, lists[s][pos[s]], all[c]);
    }
  }

  lemma {:induction false} LargestIsPrevious(lists: seq<seq<Entry>>, all: seq<Entry>, c: nat, pos: seq<nat>, s: int)
    requires Mergeable(lists) && IsUnion(lists, all) && Rear(lists, all, c, pos) && c <= |all|
    requires -1 <= s < |lists| && IsLargest(lists, pos, s) && (s >= 0 ==> pos[s] < |lists[s]|)
    ensures s >= 0 <==> c > 0
    ensures s >= 0 ==> Shows(lists, pos, s, all[c - 1])
  {
    if s >= 0 {
      assert AtLast(all, c, lists[s], pos[s]);
      InUnion(lists, all, s, pos[s]);
      BehindHasPrevious(all, c, lists[s][pos[s]]);
    }
    if c > 0 {
      var i, k := Owner(lists, all, c - 1);
      assert AtLast(all, c, lists[i], pos[i]);
      assert !Ahead(all, c, all[c - 1].key);
      assert pos[i] < |lists[i]| && k <= pos[i];
      assert lists[i][pos[i]] == all[c - 1] || Before(all[c - 1].key, lists[i][pos[i]].key) by {
        assert Sorted(lists[i]);
      }
      SameKeySameEntry(all, lists[s][pos[s]], all[c - 1]);
    }
  }

  lemma {:induction false} BehindHasPrevious(all: seq<Entry>, c: nat, e: Entry)
    requires Sorted(all) && c <= |all| && e in all && !Ahead(all, c, e.key)
    ensures c > 0 && !Before(all[c - 1].key, e.key)
  {
    var q :| 0 <= q < |all| && all[q] == e;
    assert q < c;
  }

  // ----- the iterator -----

  datatype Direction = Forward | Reverse

  class MergingIterator {
    const lists: seq<seq<Entry>>
    /** The union of the children. */
    ghost const all: seq<Entry>
    /** Position of each child; the length of its list when it is not valid. */
    var pos: seq<nat>
    /** Index of the current child, -1 for none. */
    var current: int
    var direction: Direction
    /** Which entry of the union the iterator stands at; their number if none. */
    ghost var cur: nat

    ghost predicate Ok()
      reads this
    {
      && Mergeable(lists) && IsUnion(lists, all) && Standing(lists, pos) && -1 <= current < |lists|
      && cur <= |all| && (current >= 0 <==> cur < |all|)
      && (current >= 0 ==> Shows(lists, pos, current, all[cur]))
      && (current >= 0 ==> if direction.Forward? then Front(lists, all, cur, pos)
                           else Rear(lists, all, cur + 1, pos))
    }

    constructor (lists: seq<seq<Entry>>)
      requires Mergeable(lists)
      ensures this.lists == lists && all == Union(lists) && Ok() && cur == |all|
    {
      this.lists := lists;
      this.pos := seq(|lists|, i requires 0 <= i < |lists| => |lists[i]|);
      this.current, this.direction := -1, Forward;
      this.all, this.cur := Union(lists), |Union(lists)|;
      UnionIsUnion(lists);
    }

    /** Valid(), key() and value(). */
    method Current() returns (found: bool, e: Entry)
      requires Ok()
      ensures found <==> cur < |all|
      ensures found ==> e == all[cur]
    {
      found := current >= 0;
      e := if found then lists[current][pos[current]] else Entry(InternalKey(0.0, 0, Deletion), []);
    }

    method FindSmallest()
      requires Standing(lists, pos)
      modifies this`current
      ensures -1 <= current < |lists| && (current >= 0 ==> pos[current] < |lists[current]|)
      ensures IsSmallest(lists, pos, current)
    {
      var smallest := -1;
      for i := 0 to |lists|
        invariant -1 <= smallest < i && (smallest >= 0 ==> pos[smallest] < |lists[smallest]|)
        invariant forall j :: 0 <= j < i && pos[j] < |lists[j]| ==>
                    smallest >= 0 && !Before(lists[j][pos[j]].key, lists[smallest][pos[smallest]].key)
      {
        if pos[i] < |lists[i]| {
          if smallest == -1 {
            smallest := i;
          } else if Before(lists[i][pos[i]].key, lists[smallest][pos[smallest]].key) {
            smallest := i;
          }
        }
      }
      current := smallest;
    }

    method FindLargest()
      requires Standing(lists, pos)
      modifies this`current
      ensures -1 <= current < |lists| && (current >= 0 ==> pos[current] < |lists[current]|)
      ensures IsLargest(lists, pos, current)
    {
      var largest := -1;
      for i := |lists| downto 0
        invariant (largest == -1 || i <= largest < |lists|) && (largest >= 0 ==> pos[largest] < |lists[largest]|)
        invariant forall j :: i <= j < |lists| && pos[j] < |lists[j]| ==>
                    largest >= 0 && !Before(lists[largest][pos[largest]].key, lists[j][pos[j]].key)
      {
        if pos[i] < |lists[i]| {
          if largest == -1 {
            largest := i;
          } else if Before(lists[largest][pos[largest]].key, lists[i][pos[i]].key) {
            largest := i;
          }
        }
      }
      current := largest;
    }

    /** The cursor moves to `c`, to which the children have been brought forwards. */
    method SettleForward(ghost c: nat)
      requires Mergeable(lists) && IsUnion(lists, all) && c <= |all| && Front(lists, all, c, pos)
      modifies this`current, this`direction, this`cur
      ensures Ok() && cur == c && direction == Forward
    {
      FindSmallest();
      direction := Forward;
      cur := c;
      SmallestIsNext(lists, all, c, pos, current);
    }

    /** The cursor moves to the entry before `c`, to which the children have been
        brought backwards. */
    method SettleReverse(ghost c: nat)
      requires Mergeable(lists) && IsUnion(lists, all) && c <= |all| && Rear(lists, all, c, pos)
      modifies this`current, this`direction, this`cur
      ensures Ok() && cur == (if c == 0 then |all| else c - 1) && direction == Reverse
    {
      FindLargest();
      direction := Reverse;
      cur := if c == 0 then |all| else c - 1;
      LargestIsPrevious(lists, all, c, pos, current);
    }

    method SeekToFirst()
      requires Ok()
      modifies this
      ensures Ok() && cur == 0
    {
      for i := 0 to |lists|
        invariant Standing(lists, pos) && forall j :: 0 <= j < i ==> pos[j] == 0
      {
        pos := pos[i := 0];
      }
      forall j | 0 <= j < |lists| ensures AtFirst(all, 0, lists[j], 0) {
        AllAhead(lists, all, j);
      }
      SettleForward(0);
    }

    method SeekToLast()
      requires Ok()
      modifies this
      ensures Ok() && cur == if all == [] then 0 else |all| - 1
    {
      for i := 0 to |lists|
        invariant Standing(lists, pos) && forall j :: 0 <= j < i ==> pos[j] == Last(lists[j])
      {
        pos := pos[i := Last(lists[i])];
      }
      SettleReverse(|all|);
    }

    method Seek(target: InternalKey)
      requires Ok()
      modifies this
      ensures Ok() && cur == SeekIndex(all, target)
    {
      for i := 0 to |lists|
        invariant Standing(lists, pos) && forall j :: 0 <= j < i ==> pos[j] == SeekIndex(lists[j], target)
      {
        pos := pos[i := SeekIndex(lists[i], target)];
      }
      ghost var c := SeekIndex(all, target);
      forall j | 0 <= j < |lists| ensures AtFirst(all, c, lists[j], SeekIndex(lists[j], target)) {
        SeekIsFirst(lists, all, j, target);
      }
      SettleForward(c);
    }

    /** Puts every other child past the current key. */
    method TurnForward()
      requires Mergeable(lists) && IsUnion(lists, all) && cur < |all| && Shows(lists, pos, current, all[cur])
      modifies this`pos
      ensures Front(lists, all, cur, pos) && Shows(lists, pos, current, all[cur])
    {
      var key := lists[current][pos[current]].key;
      ghost var own := pos[current];
      OwnFront(lists, all, cur, pos, current);
      for i := 0 to |lists|
        invariant Standing(lists, pos) && pos[current] == own
        invariant forall j :: 0 <= j < i ==> AtFirst(all, cur, lists[j], pos[j])
      {
        if i != current {
          var p := SeekPast(lists[i], key);
          PastIsFirst(lists, all, cur, current, own, i, p);
          pos := pos[i := p];
        }
      }
    }

    /** Puts every other child before the current key. */
    method TurnBack()
      requires Mergeable(lists) && IsUnion(lists, all) && cur < |all| && Shows(lists, pos, current, all[cur])
      modifies this`pos
      ensures Rear(lists, all, cur + 1, pos) && Shows(lists, pos, current, all[cur])
    {
      hide IsUnion, AtLast, Union;
      var key := lists[current][pos[current]].key;
      ghost var own := pos[current];
      OwnRear(lists, all, cur, pos, current);
      for i := 0 to |lists|
        invariant Standing(lists, pos) && pos[current] == own
        invariant forall j :: 0 <= j < i ==> AtLast(all, cur + 1, lists[j], pos[j])
      {
        if i != current {
          var p := SeekBefore(lists[i], key);
          BeforeIsLast(lists, all, cur, current, own, i, p);
          pos := pos[i := p];
        }
      }
    }

    method Next()
      requires Ok() && cur < |all|
      modifies this
      ensures Ok() && cur == old(cur) + 1
    {
      hide Mergeable, IsUnion, Front, Rear, Union;
      if direction != Forward {
        TurnForward();
        direction := Forward;
      }
      FrontAdvances(lists, all, cur, pos, current);
      pos := pos[current := pos[current] + 1];
      SettleForward(cur + 1);
    }

    method Prev()
      requires Ok() && cur < |all|
      modifies this
      ensures Ok() && cur == if old(cur) == 0 then |all| else old(cur) - 1
    {
      hide Mergeable, IsUnion, Front, Rear, Union;
      if direction != Reverse {
        TurnBack();
        direction := Reverse;
      }
      RearRetreats(lists, all, cur, pos, current);
      pos := pos[current := StepBack(lists[current], pos[current])];
      SettleReverse(cur);
    }
  }

  /** Where a child stands after SeekToLast. */
  function Last(list: seq<Entry>): nat { if list == [] then 0 else |list| - 1 }

  /** Where a child stands after Prev. */
  function StepBack(list: seq<Entry>, p: nat): nat
    requires p < |list|
  {
    if p == 0 then |list| else p - 1
  }

  /** Child moves of Next and Prev after a change of direction. */
  method SeekPast(list: seq<Entry>, key: InternalKey) returns (p: nat)
    requires Sorted(list)
    ensures p <= |list|
    ensures forall k :: 0 <= k < p ==> !Before(key, list[k].key)
    ensures forall k :: p <= k < |list| ==> Before(key, list[k].key)
  {
    p := SeekIndex(list, key);
    if p < |list| && list[p].key == key {
      p := p + 1;
    }
  }

  method SeekBefore(list: seq<Entry>, key: InternalKey) returns (p: nat)
    requires Sorted(list)
    ensures p <= |list|
    ensures forall k :: 0 <= k <= p < |list| ==> Before(list[k].key, key)
    ensures forall k :: 0 <= k < |list| && (p == |list| || k > p) ==> !Before(list[k].key, key)
  {
    p := SeekIndex(list, key);
    p := if p < |list| then StepBack(list, p) else Last(list);
  }

  // ----- moving the children -----

  lemma {:induction false} AllAhead(lists: seq<seq<Entry>>, all: seq<Entry>, j: nat)
    requires IsUnion(lists, all) && j < |lists|
    ensures AtFirst(all, 0, lists[j], 0)
  {
    forall k | 0 <= k < |lists[j]| ensures Ahead(all, 0, lists[j][k].key) {
      InUnion(lists, all, j, k);
    }
  }

  lemma {:induction false} SeekIsFirst(lists: seq<seq<Entry>>, all: seq<Entry>, j: nat, target: InternalKey)
    requires Mergeable(lists) && IsUnion(lists, all) && j < |lists|
    ensures AtFirst(all, SeekIndex(all, target), lists[j], SeekIndex(lists[j], target))
  {
    var list, c, p := lists[j], SeekIndex(all, target), SeekIndex(lists[j], target);
    forall k | p <= k < |list| ensures Ahead(all, c, list[k].key) {
      assert !Before(list[k].key, target) by { assert Sorted(list); }
      InUnion(lists, all, j, k);
      var q :| 0 <= q < |all| && all[q] == list[k];
      assert q >= c;
    }
  }

  /** No other child holds the entry of the current one. */
  lemma {:induction false} NotElsewhere(lists: seq<seq<Entry>>, s: nat, p: nat, i: nat, k: nat)
    requires Mergeable(lists) && s < |lists| && i < |lists| && i != s && p < |lists[s]| && k < |lists[i]|
    ensures lists[i][k].key != lists[s][p].key
  {
    if i < s { assert NoSharedKey(lists[i], lists[s]); } else { assert NoSharedKey(lists[s], lists[i]); }
    assert lists[i][k] in lists[i] && lists[s][p] in lists[s];
  }

  /** An entry of the union past `c` is ahead of the next position. */
  lemma {:induction false} StepAhead(all: seq<Entry>, c: nat, e: Entry)
    requires Sorted(all) && c < |all| && e in all
    ensures Ahead(all, c + 1, e.key) <==> Ahead(all, c, e.key) && e.key != all[c].key
  {
    var q :| 0 <= q < |all| && all[q] == e;
  }

  lemma {:induction false} FrontAdvances(lists: seq<seq<Entry>>, all: seq<Entry>, c: nat, pos: seq<nat>, s: nat)
    requires Mergeable(lists) && IsUnion(lists, all) && c < |all| && Front(lists, all, c, pos) &&
             Shows(lists, pos, s, all[c])
    ensures Front(lists, all, c + 1, pos[s := pos[s] + 1])
  {
    forall i | 0 <= i < |lists| ensures AtFirst(all, c + 1, lists[i], pos[s := pos[s] + 1][i]) {
      assert AtFirst(all, c, lists[i], pos[i]);
      forall k | 0 <= k < |lists[i]|
        ensures Ahead(all, c + 1, lists[i][k].key) <==> Ahead(all, c, lists[i][k].key) && !(i == s && k == pos[s])
      {
        InUnion(lists, all, i, k);
        StepAhead(all, c, lists[i][k]);
        if i != s { NotElsewhere(lists, s, pos[s], i, k); } else { assert Sorted(lists[i]); }
      }
    }
  }

  lemma {:induction false} RearRetreats(lists: seq<seq<Entry>>, all: seq<Entry>, c: nat, pos: seq<nat>, s: nat)
    requires Mergeable(lists) && IsUnion(lists, all) && c < |all| && Rear(lists, all, c + 1, pos) &&
             Shows(lists, pos, s, all[c])
    ensures Rear(lists, all, c, pos[s := StepBack(lists[s], pos[s])])
  {
    forall i | 0 <= i < |lists| ensures AtLast(all, c, lists[i], pos[s := StepBack(lists[s], pos[s])][i]) {
      assert AtLast(all, c + 1, lists[i], pos[i]);
      forall k | 0 <= k < |lists[i]|
        ensures Ahead(all, c + 1, lists[i][k].key) <==> Ahead(all, c, lists[i][k].key) && !(i == s && k == pos[s])
      {
        InUnion(lists, all, i, k);
        StepAhead(all, c, lists[i][k]);
        if i != s { NotElsewhere(lists, s, pos[s], i, k); } else { assert Sorted(lists[i]); }
      }
    }
  }

  lemma {:induction false} OwnFront(lists: seq<seq<Entry>>, all: seq<Entry>, c: nat, pos: seq<nat>, s: nat)
    requires Mergeable(lists) && IsUnion(lists, all) && c < |all| && Shows(lists, pos, s, all[c])
    ensures AtFirst(all, c, lists[s], pos[s])
  {
    assert Sorted(lists[s]);
  }

  lemma {:induction false} OwnRear(lists: seq<seq<Entry>>, all: seq<Entry>, c: nat, pos: seq<nat>, s: nat)
    requires Mergeable(lists) && IsUnion(lists, all) && c < |all| && Shows(lists, pos, s, all[c])
    ensures AtLast(all, c + 1, lists[s], pos[s])
  {
    assert Sorted(lists[s]);
    forall k | 0 <= k < |lists[s]| ensures Ahead(all, c + 1, lists[s][k].key) <==> k > pos[s] {
      InUnion(lists, all, s, k);
      StepAhead(all, c, lists[s][k]);
    }
  }

  lemma {:induction false} PastIsFirst(lists: seq<seq<Entry>>, all: seq<Entry>, c: nat, s: nat, q: nat, i: nat, p: nat)
    requires Mergeable(lists) && IsUnion(lists, all) && c < |all| && s < |lists| && q < |lists[s]| &&
             lists[s][q] == all[c]
    requires i < |lists| && i != s && p <= |lists[i]|
    requires forall k :: 0 <= k < p ==> !Before(all[c].key, lists[i][k].key)
    requires forall k :: p <= k < |lists[i]| ==> Before(all[c].key, lists[i][k].key)
    ensures AtFirst(all, c, lists[i], p)
  {
    forall k | 0 <= k < |lists[i]| ensures lists[i][k].key != all[c].key {
      NotElsewhere(lists, s, q, i, k);
    }
  }

  lemma {:induction false} BeforeIsLast(lists: seq<seq<Entry>>, all: seq<Entry>, c: nat, s: nat, q: nat, i: nat, p: nat)
    requires Mergeable(lists) && IsUnion(lists, all) && c < |all| && s < |lists| && q < |lists[s]| &&
             lists[s][q] == all[c]
    requires i < |lists| && i != s && p <= |lists[i]|
    requires forall k :: 0 <= k <= p < |lists[i]| ==> Before(lists[i][k].key, all[c].key)
    requires forall k :: 0 <= k < |lists[i]| && (p == |lists[i]| || k > p) ==> !Before(lists[i][k].key, all[c].key)
    ensures AtLast(all, c + 1, lists[i], p)
  {
    forall k | 0 <= k < |lists[i]| ensures Ahead(all, c + 1, lists[i][k].key) <==> Ahead(all, c, lists[i][k].key) {
      NotElsewhere(lists, s, q, i, k);
      InUnion(lists, all, i, k);
      StepAhead(all, c, lists[i][k]);
    }
  }

  // ----- whole runs -----

  /** Where a seek leads in a list. */
  ghost function Seeks(all: seq<Entry>): InternalKey -> nat { k => SeekIndex(all, k) }

  method Apply(it: MergingIterator, op: Op<InternalKey>)
    requires it.Ok() && (op.Forth? || op.Back? ==> it.cur < |it.all|)
    modifies it
    ensures it.Ok() && it.cur == Moved(|it.all|, Seeks(it.all), old(it.cur), op)
  {
    match op
    case SeekTo(k) => it.Seek(k);
    case ToFirst => it.SeekToFirst();
    case ToLast => it.SeekToLast();
    case Forth => it.Next();
    case Back => it.Prev();
  }

  /** Whatever calls are made, the iterator is a cursor over the union, and stays on
      the entry a cursor would be on. */
  method ApplyAll(lists: seq<seq<Entry>>, ops: seq<Op<InternalKey>>) returns (found: bool, e: Entry)
    requires Mergeable(lists) && Legal(|Union(lists)|, Seeks(Union(lists)), |Union(lists)|, ops)
    ensures var c := MovedAll(|Union(lists)|, Seeks(Union(lists)), |Union(lists)|, ops);
            (found <==> c < |Union(lists)|) && (found ==> e == Union(lists)[c])
  {
    var it := new MergingIterator(lists);
    var n := 0;
    while n < |ops|
      invariant 0 <= n <= |ops| && it.Ok() && it.all == Union(lists) && it.lists == lists && fresh(it)
      invariant Legal(|Union(lists)|, Seeks(Union(lists)), it.cur, ops[n..])
      invariant MovedAll(|Union(lists)|, Seeks(Union(lists)), it.cur, ops[n..]) ==
                MovedAll(|Union(lists)|, Seeks(Union(lists)), |Union(lists)|, ops)
    {
      assert ops[n..][1..] == ops[n + 1..];
      Apply(it, ops[n]);
      n := n + 1;
    }
    found, e := it.Current();
  }

  /** Walking the iterator from its first entry to its end. */
  method Walk(it: MergingIterator) returns (stream: seq<Entry>)
    requires it.Ok()
    modifies it
    ensures it.Ok() && stream == it.all
  {
    it.SeekToFirst();
    stream := [];
    var found, e := it.Current();
    while found
      invariant it.Ok() && stream == it.all[..it.cur]
      invariant (found <==> it.cur < |it.all|) && (found ==> e == it.all[it.cur])
      decreases |it.all| - it.cur
    {
      stream := stream + [e];
      it.Next();
      found, e := it.Current();
    }
  }

  /** What a compaction reads is the union of its inputs, in order. */
  method Drain(lists: seq<seq<Entry>>) returns (stream: seq<Entry>)
    requires Mergeable(lists)
    ensures stream == Union(lists) && IsUnion(lists, stream)
  {
    var it := new MergingIterator(lists);
    stream := Walk(it);
  }
}

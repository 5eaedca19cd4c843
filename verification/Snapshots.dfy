/** The list of live snapshots (db/snapshot.h), which is the `snapshots` of the database
    model: taken at its end, given back anywhere, and read at its head. */
module Snapshots {
  import opened Rings
  import Database

  function NumbersOf(number: map<Id, nat>, order: seq<Id>): (ns: seq<nat>)
    ensures |ns| == |order|
  {
    seq(|order|, i requires 0 <= i < |order| => if order[i] in number then number[order[i]] else 0)
  }

  lemma {:induction false} NumbersMore(number: map<Id, nat>, order: seq<Id>, e: Id, n: nat)
    requires e !in order
    ensures NumbersOf(number[e := n], order + [e]) == NumbersOf(number, order) + [n]
  {
  }

  lemma {:induction false} NumbersLess(number: map<Id, nat>, order: seq<Id>, i: nat)
    requires i < |order| && NoDup(order)
    ensures NumbersOf(number - {order[i]}, Drop(order, i)) == NumbersOf(number, order)[..i] +
            NumbersOf(number, order)[i + 1..]
  {
    var less, rest := number - {order[i]}, Drop(order, i);
    var ns := NumbersOf(number, order)[..i] + NumbersOf(number, order)[i + 1..];
    DropNoDup(order, i);
    forall j | 0 <= j < |rest| ensures NumbersOf(less, rest)[j] == ns[j] {
      DropAt(order, i, j);
      assert rest[j] in rest;
    }
  }

  class SnapshotList {
    var next: map<Id, Id>
    var prev: map<Id, Id>
    var number: map<Id, nat>
    var unused: Id
    ghost var order: seq<Id>

    ghost predicate Ok()
      reads this
    {
      Ring(next, prev, order) && unused > 0 && forall i :: 0 <= i < |order| ==> order[i] in number && order[i] < unused
    }

    /** The numbers of the live snapshots, oldest first. */
    ghost function Numbers(): seq<nat>
      reads this
    {
      NumbersOf(number, order)
    }

    constructor ()
      ensures Ok() && Numbers() == []
    {
      next, prev, number, unused, order := map[0 := 0], map[0 := 0], map[], 1, [];
    }

    method New(n: nat) returns (s: Id)
      requires Ok()
      modifies this
      ensures Ok() && s in order && Numbers() == old(Numbers()) + [n]
    {
      s := unused;
      RingAppend(next, prev, order, s);
      NumbersMore(number, order, s, n);
      hide Ring;
      unused, number := unused + 1, number[s := n];
      next, prev := next[s := 0], prev[s := prev[0]];
      next, prev := next[prev[s] := s], prev[0 := s];
      order := order + [s];
    }

    method Delete(s: Id, ghost i: nat)
      requires Ok() && i < |order| && order[i] == s
      modifies this
      ensures Ok() && Numbers() == old(Numbers())[..i] + old(Numbers())[i + 1..]
    {
      RingRemove(next, prev, order, i);
      Distinct(next, prev, order);
      NumbersLess(number, order, i);
      StillNumbered(order, i);
      hide Ring;
      next, prev := next[prev[s] := next[s]], prev[next[s] := prev[s]];
      number := number - {s};
      order := Drop(order, i);
    }

    method Empty() returns (r: bool)
      requires Ok()
      ensures r <==> Numbers() == []
    {
      RingFirst(next, prev, order);
      r := next[0] == 0;
    }

    /** What a compaction takes as its bound: the first snapshot of the list, or the
        latest sequence number. */
    method SmallestSnapshot(last: nat) returns (r: nat)
      requires Ok()
      ensures r == Database.SmallestSnapshot(Numbers(), last)
      ensures Database.Ascending(Numbers()) && (forall i :: 0 <= i < |Numbers()| ==> Numbers()[i] <= last) ==>
                r <= last && forall i :: 0 <= i < |Numbers()| ==> r <= Numbers()[i]
    {
      var none := Empty();
      if none {
        r := last;
      } else {
        RingFirst(next, prev, order);
        r := number[next[0]];
      }
    }
  }

  lemma {:induction false} StillNumbered(order: seq<Id>, i: nat)
    requires i < |order| && NoDup(order)
    ensures forall j :: 0 <= j < |Drop(order, i)| ==> Drop(order, i)[j] in order && Drop(order, i)[j] != order[i]
  {
    forall j | 0 <= j < |Drop(order, i)| ensures Drop(order, i)[j] in order && Drop(order, i)[j] != order[i] {
      DropNoDup(order, i);
      InDrop(order, i, Drop(order, i)[j]);
      assert Drop(order, i)[j] in Drop(order, i);
    }
  }
}

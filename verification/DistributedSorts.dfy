/** All processors of NPB IS together (IS/is.c: rank and full_verify): the collectives
    are functions of what all processors hold, and what the processors end up with,
    one after the other, is a sorted permutation of what they began with. */
module DistributedSorts {
  import opened BucketSorts

  /** What one processor holds after sorting its keys into buckets. */
  datatype Local = Local(size: seq<nat>, buff: seq<nat>)

  /** The buffer is the lists of the buckets, end to end, and they hold the keys. */
  ghost predicate Bucketed(f: Bucketing, n: nat, keys: seq<nat>, l: Local, parts: seq<seq<nat>>) {
    && |l.size| == n && Laid(l.size, parts, l.buff) && OwnBuckets(f, parts) && multiset(Join(parts)) == multiset(keys)
  }

  ghost predicate AllBucketed(f: Bucketing, n: nat, input: seq<seq<nat>>, locals: seq<Local>,
                              partss: seq<seq<seq<nat>>>) {
    && |locals| == |input| == |partss|
    && forall r :: 0 <= r < |input| ==> Bucketed(f, n, input[r], locals[r], partss[r])
  }

  // ----- the collectives -----

  predicate Aligned(locals: seq<Local>, n: nat) {
    forall r :: 0 <= r < |locals| ==> |locals[r].size| == n
  }

  /** MPI_Allreduce of the bucket sizes. */
  function AllReduce(locals: seq<Local>, n: nat): (totals: seq<nat>)
    requires Aligned(locals, n)
    ensures |totals| == n
  {
    if locals == [] then seq(n, b => 0)
    else
      var m := |locals| - 1;
      var t := AllReduce(locals[..m], n);
      seq(n, b requires 0 <= b < n => t[b] + locals[m].size[b])
  }

  /** The block that MPI_Alltoallv takes from a processor's buffer. */
  function Block(l: Local, share: Share): seq<nat>
    requires share.count > 0 ==> share.displ + share.count <= |l.buff|
  {
    if share.count == 0 then [] else l.buff[share.displ..share.displ + share.count]
  }

  lemma {:induction false} SumAdds(a: seq<nat>, b: seq<nat>, c: seq<nat>, i: nat)
    requires |a| == |b| == |c| && i <= |a| && forall j :: 0 <= j < |a| ==> c[j] == a[j] + b[j]
    ensures Sum(c, i) == Sum(a, i) + Sum(b, i)
  {
    if i > 0 { SumAdds(a, b, c, i - 1); }
  }

  lemma {:induction false} TotalsInit(locals: seq<Local>, n: nat, i: nat)
    requires locals != [] && Aligned(locals, n) && i <= n
    ensures var m := |locals| - 1;
            Aligned(locals[..m], n) && |locals[m].size| == n
            && Sum(AllReduce(locals, n), i) == Sum(AllReduce(locals[..m], n), i) + Sum(locals[m].size, i)
  {
    var m := |locals| - 1;
    SumAdds(AllReduce(locals[..m], n), locals[m].size, AllReduce(locals, n), i);
  }

  lemma {:induction false} NothingTotals(n: nat, i: nat)
    requires i <= n
    ensures Sum(AllReduce([], n), i) == 0
  {
    AllZero(AllReduce([], n), i);
  }

  lemma {:induction false} AreAligned(f: Bucketing, n: nat, input: seq<seq<nat>>, locals: seq<Local>,
                                      partss: seq<seq<seq<nat>>>)
    requires AllBucketed(f, n, input, locals, partss)
    ensures Aligned(locals, n)
  {
    forall r | 0 <= r < |locals|
      ensures |locals[r].size| == n
    {
      assert Bucketed(f, n, input[r], locals[r], partss[r]);
    }
  }

  lemma {:induction false} AllBucketedInit(f: Bucketing, n: nat, input: seq<seq<nat>>, locals: seq<Local>,
                                           partss: seq<seq<seq<nat>>>)
    requires AllBucketed(f, n, input, locals, partss) && input != []
    ensures var m := |input| - 1;
            AllBucketed(f, n, input[..m], locals[..m], partss[..m]) && Bucketed(f, n, input[m], locals[m], partss[m])
  {
    var m := |input| - 1;
    forall r | 0 <= r < m ensures Bucketed(f, n, input[..m][r], locals[..m][r], partss[..m][r]) {
      assert Bucketed(f, n, input[r], locals[r], partss[r]);
    }
  }

  // ----- what all processors hold in a run of buckets -----

  /** Every processor has `n` lists. */
  predicate Even(partss: seq<seq<seq<nat>>>, n: nat) {
    forall r :: 0 <= r < |partss| ==> |partss[r]| == n
  }

  function Between(partss: seq<seq<seq<nat>>>, n: nat, lo: nat, hi: nat): multiset<nat>
    requires Even(partss, n) && lo <= hi <= n
  {
    if partss == [] then multiset{}
    else
      var m := |partss| - 1;
      Between(partss[..m], n, lo, hi) + multiset(Join(partss[m][lo..hi]))
  }

  lemma {:induction false} AreEven(f: Bucketing, n: nat, input: seq<seq<nat>>, locals: seq<Local>,
                                   partss: seq<seq<seq<nat>>>)
    requires AllBucketed(f, n, input, locals, partss)
    ensures Even(partss, n)
  {
    forall r | 0 <= r < |partss| ensures |partss[r]| == n { assert Bucketed(f, n, input[r], locals[r], partss[r]); }
  }

  lemma {:induction false} BetweenAdds(partss: seq<seq<seq<nat>>>, n: nat, lo: nat, mid: nat, hi: nat)
    requires Even(partss, n) && lo <= mid <= hi <= n
    ensures Between(partss, n, lo, hi) == Between(partss, n, lo, mid) + Between(partss, n, mid, hi)
  {
    if partss != [] {
      var m := |partss| - 1;
      BetweenAdds(partss[..m], n, lo, mid, hi);
      var p := partss[m];
      assert p[lo..hi] == p[lo..mid] + p[mid..hi];
      JoinConcat(p[lo..mid], p[mid..hi]);
      hide *;
      assert multiset(Join(p[lo..hi])) == multiset(Join(p[lo..mid])) + multiset(Join(p[mid..hi]));
    }
  }

  /** All the lists hold all the keys. */
  lemma {:induction false} BetweenAll(f: Bucketing, n: nat, input: seq<seq<nat>>, locals: seq<Local>,
                                      partss: seq<seq<seq<nat>>>)
    requires AllBucketed(f, n, input, locals, partss)
    ensures Even(partss, n) && Between(partss, n, 0, n) == multiset(Join(input))
  {
    AreEven(f, n, input, locals, partss);
    if input != [] {
      var m := |input| - 1;
      AllBucketedInit(f, n, input, locals, partss);
      BetweenAll(f, n, input[..m], locals[..m], partss[..m]);
      assert partss[m][0..n] == partss[m];
    }
  }

  // ----- what a processor receives -----

  /** The buckets of processor `r`: from Lo up to, not including, Hi. */
  function Lo(ends: seq<nat>, r: nat): nat { if r < |ends| then First(ends, r) else 1 }

  function Hi(ends: seq<nat>, r: nat): nat { if r < |ends| then ends[r] + 1 else 1 }

  lemma {:induction false} BlockIsJoin(f: Bucketing, n: nat, keys: seq<nat>, l: Local, parts: seq<seq<nat>>,
                                       ends: seq<nat>, r: nat, share: Share)
    requires n > 0 && Bucketed(f, n, keys, l, parts) && RightShare(l.size, ends, r, share)
    ensures share.count > 0 ==> share.displ + share.count <= |l.buff|
    ensures Lo(ends, r) <= Hi(ends, r) <= n == |parts| && Block(l, share) == Join(parts[Lo(ends, r)..Hi(ends, r)])
    ensures |Block(l, share)| == Sum(l.size, Hi(ends, r)) - Sum(l.size, Lo(ends, r))
  {
    if r < |ends| {
      SliceIsJoin(l.size, parts, l.buff, share.ptr1, share.ptr2 + 1);
    }
  }

  /** All keys of buckets `lo` to `hi`. */
  predicate InRun(f: Bucketing, s: seq<nat>, lo: nat, hi: nat) {
    forall i :: 0 <= i < |s| ==> lo <= f(s[i]) < hi
  }

  lemma {:induction false} JoinInRun(f: Bucketing, parts: seq<seq<nat>>, lo: nat, hi: nat)
    requires OwnBuckets(f, parts) && lo <= hi <= |parts|
    ensures InRun(f, Join(parts[lo..hi]), lo, hi)
    decreases hi
  {
    if lo < hi {
      JoinInRun(f, parts, lo, hi - 1);
      assert parts[lo..hi] == parts[lo..hi - 1] + [parts[hi - 1]];
      JoinSnoc(parts[lo..hi - 1], parts[hi - 1]);
    }
  }

  ghost predicate RightColumn(ends: seq<nat>, r: nat, locals: seq<Local>, column: seq<Share>) {
    |column| == |locals| && forall s :: 0 <= s < |locals| ==> RightShare(locals[s].size, ends, r, column[s])
  }

  /** What has come from the first `s` processors. */
  ghost predicate Arrived(f: Bucketing, n: nat, locals: seq<Local>, partss: seq<seq<seq<nat>>>, lo: nat, hi: nat,
                          keys: seq<nat>) {
    && lo <= hi <= n && Even(partss, n) && Aligned(locals, n) && |locals| == |partss|
    && multiset(keys) == Between(partss, n, lo, hi) && InRun(f, keys, lo, hi)
    && Sum(AllReduce(locals, n), lo) + |keys| == Sum(AllReduce(locals, n), hi)
  }

  lemma {:induction false} NoneArrived(f: Bucketing, n: nat, lo: nat, hi: nat)
    requires lo <= hi <= n
    ensures Arrived(f, n, [], [], lo, hi, [])
  {
    NothingTotals(n, lo);
    NothingTotals(n, hi);
  }

  lemma {:induction false} OneArrives(f: Bucketing, n: nat, input: seq<seq<nat>>, locals: seq<Local>,
                                      partss: seq<seq<seq<nat>>>,
                                      ends: seq<nat>, r: nat, share: Share, keys: seq<nat>)
    requires n > 0 && input != [] && AllBucketed(f, n, input, locals, partss)
    requires var m := |input| - 1;
             RightShare(locals[m].size, ends, r, share) &&
             Arrived(f, n, locals[..m], partss[..m], Lo(ends, r), Hi(ends, r), keys)
    ensures var l := locals[|input| - 1];
            share.count > 0 ==> share.displ + share.count <= |l.buff|
    ensures Arrived(f, n, locals, partss, Lo(ends, r), Hi(ends, r), keys + Block(locals[|input| - 1], share))
  {
    var m, lo, hi := |input| - 1, Lo(ends, r), Hi(ends, r);
    AllBucketedInit(f, n, input, locals, partss);
    AreEven(f, n, input, locals, partss);
    AreAligned(f, n, input, locals, partss);
    BlockIsJoin(f, n, input[m], locals[m], partss[m], ends, r, share);
    JoinInRun(f, partss[m], lo, hi);
    TotalsInit(locals, n, lo);
    TotalsInit(locals, n, hi);
  }

  /** MPI_Alltoallv for processor `r`: the blocks of all processors, one after the other. */
  method Receive(f: Bucketing, n: nat, ghost input: seq<seq<nat>>, locals: seq<Local>, ghost partss: seq<seq<seq<nat>>>,
                 ghost ends: seq<nat>, r: nat, column: seq<Share>) returns (keys: seq<nat>)
    requires n > 0 && AllBucketed(f, n, input, locals, partss) && RightColumn(ends, r, locals, column)
    requires Lo(ends, r) <= Hi(ends, r) <= n
    ensures Arrived(f, n, locals, partss, Lo(ends, r), Hi(ends, r), keys)
  {
    keys := [];
    NoneArrived(f, n, Lo(ends, r), Hi(ends, r));
    assert locals[..0] == [] && partss[..0] == [];
    for s := 0 to |locals|
      invariant Arrived(f, n, locals[..s], partss[..s], Lo(ends, r), Hi(ends, r), keys)
    {
      FirstFew(f, n, input, locals, partss, s + 1);
      assert RightShare(locals[s].size, ends, r, column[s]);
      hide *;
      assert locals[..s + 1][..s] == locals[..s] && partss[..s + 1][..s] == partss[..s];
      OneArrives(f, n, input[..s + 1], locals[..s + 1], partss[..s + 1], ends, r, column[s], keys);
      keys := keys + Block(locals[s], column[s]);
    }
    assert locals[..|locals|] == locals && partss[..|locals|] == partss;
  }

  lemma {:induction false} FirstFew(f: Bucketing, n: nat, input: seq<seq<nat>>, locals: seq<Local>,
                                    partss: seq<seq<seq<nat>>>, s: nat)
    requires AllBucketed(f, n, input, locals, partss) && s <= |input|
    ensures AllBucketed(f, n, input[..s], locals[..s], partss[..s])
  {
    forall r | 0 <= r < s ensures Bucketed(f, n, input[..s][r], locals[..s][r], partss[..s][r]) {
      assert Bucketed(f, n, input[r], locals[r], partss[r]);
    }
  }

  // ----- bucket widths -----

  lemma {:induction false} BucketOf(w: nat, v: nat, lo: nat, hi: nat)
    requires w > 0
    ensures lo * w <= v < hi * w <==> lo <= v / w < hi
  {
    var q := v / w;
    assert q * w <= v < q * w + w;
    Order(lo, q, w);
    Order(hi, q, w);
    Order(q + 1, lo, w);
    Order(q + 1, hi, w);
    assert (q + 1) * w == q * w + w;
  }

  ghost predicate Wide(f: Bucketing, w: nat) {
    w > 0 && forall k: nat :: f(k) == k / w
  }

  lemma {:induction false} RunIsRange(f: Bucketing, w: nat, s: seq<nat>, lo: nat, hi: nat)
    requires Wide(f, w) && InRun(f, s, lo, hi)
    ensures forall i :: 0 <= i < |s| ==> lo * w <= s[i] < hi * w
  {
    forall i | 0 <= i < |s| ensures lo * w <= s[i] < hi * w { BucketOf(w, s[i], lo, hi); }
  }

  // ----- one processor -----

  /** The part of rank() before the first collective. */
  method SortIntoBuckets(f: Bucketing, n: nat, keys: seq<nat>) returns (l: Local, ghost parts: seq<seq<nat>>)
    requires n > 0 && InBuckets(f, keys, n)
    ensures Bucketed(f, n, keys, l, parts)
  {
    var size := CountBuckets(f, n, keys);
    var ptrs := BucketPointers(size);
    var sizes := size[..];
    var buff;
    buff, parts := Scatter(f, keys, sizes, ptrs);
    l := Local(sizes, buff[..]);
  }

  /** How many keys processor `r` is to have: the loop over its bucket totals. */
  method LocalTotal(totals: seq<nat>, ptr1: nat, ptr2: nat) returns (j: nat)
    requires ptr1 <= ptr2 + 1 <= |totals|
    ensures Sum(totals, ptr1) + j == Sum(totals, ptr2 + 1)
  {
    j := 0;
    var i := ptr1;
    while i <= ptr2
      invariant ptr1 <= i <= ptr2 + 1 && Sum(totals, ptr1) + j == Sum(totals, i)
    {
      j := j + totals[i];
      i := i + 1;
    }
  }

  /** A sorted list of the keys of buckets `lo` to `hi` of all processors. */
  ghost predicate SortedRun(w: nat, n: nat, partss: seq<seq<seq<nat>>>, lo: nat, hi: nat, out: seq<nat>) {
    && lo <= hi <= n && Even(partss, n)
    && Ascending(out) && multiset(out) == Between(partss, n, lo, hi)
    && forall i :: 0 <= i < |out| ==> lo * w <= out[i] < hi * w
  }

  /** The ranking and the sort of what a processor has received. */
  method SortReceived(ghost f: Bucketing, w: nat, ghost n: nat, ghost locals: seq<Local>,
                      ghost partss: seq<seq<seq<nat>>>,
                      lo: nat, hi: nat, received: seq<nat>) returns (out: seq<nat>)
    requires Wide(f, w) && Arrived(f, n, locals, partss, lo, hi, received)
    ensures SortedRun(w, n, partss, lo, hi, out)
  {
    RunIsRange(f, w, received, lo, hi);
    Order(lo, hi, w);
    out := CountingSort(lo * w, hi * w, received);
    SameElements(received, out, lo * w, hi * w);
  }

  lemma {:induction false} SameElements(a: seq<nat>, b: seq<nat>, lo: nat, hi: nat)
    requires multiset(a) == multiset(b) && forall i :: 0 <= i < |a| ==> lo <= a[i] < hi
    ensures forall i :: 0 <= i < |b| ==> lo <= b[i] < hi
  {
    forall i | 0 <= i < |b| ensures lo <= b[i] < hi {
      assert b[i] in multiset(a);
      var j :| 0 <= j < |a| && a[j] == b[i];
    }
  }

  /** The part of rank() after the redistribution, and the sort of full_verify, on
      processor `r`. */
  method SortShare(f: Bucketing, w: nat, n: nat, ghost input: seq<seq<nat>>, locals: seq<Local>,
                   ghost partss: seq<seq<seq<nat>>>,
                   totals: seq<nat>, ghost ends: seq<nat>, r: nat, column: seq<Share>) returns (out: seq<nat>)
    requires n > 0 && Wide(f, w) && AllBucketed(f, n, input, locals, partss)
    requires Aligned(locals, n) && totals == AllReduce(locals, n)
    requires r < |locals| && RightColumn(ends, r, locals, column)
    ensures SortedRun(w, n, partss, Lo(ends, r), Hi(ends, r), out)
  {
    hide *;
    ShareRange(f, n, input, locals, partss, ends, r, column);
    var received := Receive(f, n, input, locals, partss, ends, r, column);
    var share := column[r];
    var j := LocalTotal(totals, share.ptr1, share.ptr2);
    AllArrived(f, n, locals, partss, Lo(ends, r), Hi(ends, r), received, j);
    assert received[..j] == received;
    out := SortReceived(f, w, n, locals, partss, share.ptr1, share.ptr2 + 1, received[..j]);
  }

  /** The count a processor goes by is how many keys it has received. */
  lemma {:induction false} AllArrived(f: Bucketing, n: nat, locals: seq<Local>, partss: seq<seq<seq<nat>>>, lo: nat,
                                      hi: nat,
                                      keys: seq<nat>, j: nat)
    requires Arrived(f, n, locals, partss, lo, hi, keys) && lo <= n && hi <= n && Aligned(locals, n)
    requires Sum(AllReduce(locals, n), lo) + j == Sum(AllReduce(locals, n), hi)
    ensures j == |keys|
  {
  }

  lemma {:induction false} ShareRange(f: Bucketing, n: nat, input: seq<seq<nat>>, locals: seq<Local>,
                                      partss: seq<seq<seq<nat>>>,
                                      ends: seq<nat>, r: nat, column: seq<Share>)
    requires n > 0 && AllBucketed(f, n, input, locals, partss) && r < |locals| && RightColumn(ends, r, locals, column)
    ensures r < |column|
    ensures column[r].ptr1 == Lo(ends, r) && column[r].ptr2 + 1 == Hi(ends, r) && Lo(ends, r) <= Hi(ends, r) <= n
  {
    assert RightShare(locals[r].size, ends, r, column[r]) && Bucketed(f, n, input[r], locals[r], partss[r]);
  }

  // ----- all processors -----

  /** The buckets dealt to the first `r` processors. */
  function Done(ends: seq<nat>, r: nat): nat { First(ends, if r < |ends| then r else |ends|) }

  predicate Climbing(ends: seq<nat>, n: nat) {
    && (forall j, k :: 0 <= j < k < |ends| ==> ends[j] < ends[k])
    && (forall j :: 0 <= j < |ends| ==> ends[j] < n)
  }

  /** One more processor carries the sorted keys on from where the others ended. */
  lemma {:induction false} SortsOn(w: nat, n: nat, partss: seq<seq<seq<nat>>>, ends: seq<nat>, r: nat, out: seq<nat>,
                                   part: seq<nat>)
    requires w > 0 && Climbing(ends, n)
    requires SortedRun(w, n, partss, 0, Done(ends, r), out) && SortedRun(w, n, partss, Lo(ends, r), Hi(ends, r), part)
    ensures SortedRun(w, n, partss, 0, Done(ends, r + 1), out + part)
  {
    DoneStep(ends, r);
    hide *;
    if r < |ends| {
      RunsJoin(w, n, partss, Lo(ends, r), Hi(ends, r), out, part);
    } else {
      NoRun(w, n, partss, 1, part);
      assert out + part == out;
    }
  }

  lemma {:induction false} DoneStep(ends: seq<nat>, r: nat)
    ensures r < |ends| ==> Done(ends, r) == Lo(ends, r) && Done(ends, r + 1) == Hi(ends, r)
    ensures r >= |ends| ==> Done(ends, r + 1) == Done(ends, r) && Lo(ends, r) == Hi(ends, r) == 1
  {
  }

  lemma {:induction false} RunsJoin(w: nat, n: nat, partss: seq<seq<seq<nat>>>, mid: nat, hi: nat, out: seq<nat>,
                                    part: seq<nat>)
    requires w > 0 && SortedRun(w, n, partss, 0, mid, out) && SortedRun(w, n, partss, mid, hi, part)
    ensures SortedRun(w, n, partss, 0, hi, out + part)
  {
    BetweenAdds(partss, n, 0, mid, hi);
    Concatenated(w, out, part, mid, hi);
  }

  lemma {:induction false} NoRun(w: nat, n: nat, partss: seq<seq<seq<nat>>>, b: nat, part: seq<nat>)
    requires SortedRun(w, n, partss, b, b, part)
    ensures part == []
  {
    NothingBetween(partss, n, b);
    assert |multiset(part)| == |part|;
  }

  lemma {:induction false} Concatenated(w: nat, a: seq<nat>, b: seq<nat>, mid: nat, hi: nat)
    requires w > 0 && mid <= hi && Ascending(a) && Ascending(b)
    requires forall i :: 0 <= i < |a| ==> 0 * w <= a[i] < mid * w
    requires forall i :: 0 <= i < |b| ==> mid * w <= b[i] < hi * w
    ensures Ascending(a + b) && forall i :: 0 <= i < |a + b| ==> 0 * w <= (a + b)[i] < hi * w
  {
    Order(mid, hi, w);
  }

  lemma {:induction false} NothingBetween(partss: seq<seq<seq<nat>>>, n: nat, b: nat)
    requires Even(partss, n) && b <= n
    ensures Between(partss, n, b, b) == multiset{}
  {
    if partss != [] { NothingBetween(partss[..|partss| - 1], n, b); }
  }

  /** Buckets whose total is nought are empty everywhere. */
  lemma {:induction false} EmptyBetween(f: Bucketing, n: nat, input: seq<seq<nat>>, locals: seq<Local>,
                                        partss: seq<seq<seq<nat>>>, lo: nat)
    requires AllBucketed(f, n, input, locals, partss) && Even(partss, n) && Aligned(locals, n) && lo <= n
    requires forall b :: lo <= b < n ==> AllReduce(locals, n)[b] == 0
    ensures Between(partss, n, lo, n) == multiset{}
  {
    if input != [] {
      var m := |input| - 1;
      AllBucketedInit(f, n, input, locals, partss);
      var before, all := AllReduce(locals[..m], n), AllReduce(locals, n);
      assert forall b :: 0 <= b < n ==> all[b] == before[b] + locals[m].size[b];
      EmptyBetween(f, n, input[..m], locals[..m], partss[..m], lo);
      EmptyRun(locals[m].size, partss[m], locals[m].buff, lo);
    }
  }

  lemma {:induction false} EmptyRun(size: seq<nat>, parts: seq<seq<nat>>, buff: seq<nat>, lo: nat)
    requires Laid(size, parts, buff) && lo <= |size| && forall b :: lo <= b < |size| ==> size[b] == 0
    ensures Join(parts[lo..|size|]) == []
  {
    forall b | lo <= b < |size| ensures parts[b] == [] { assert HasPart(size, parts, buff, b); }
    assert parts[lo..|size|] == Empties(|size| - lo);
    JoinEmpties(|size| - lo);
  }

  predicate Fair(f: Bucketing, n: nat, m: nat, input: seq<seq<nat>>) {
    forall r :: 0 <= r < |input| ==> FairKeys(f, n, m, input[r])
  }

  /** Every processor holds `m` keys, all of them in the `n` buckets. */
  predicate FairKeys(f: Bucketing, n: nat, m: nat, keys: seq<nat>) {
    |keys| == m && InBuckets(f, keys, n)
  }

  lemma {:induction false} TotalsSum(f: Bucketing, n: nat, m: nat, input: seq<seq<nat>>, locals: seq<Local>,
                                     partss: seq<seq<seq<nat>>>)
    requires Fair(f, n, m, input) && AllBucketed(f, n, input, locals, partss)
    ensures Aligned(locals, n) && Sum(AllReduce(locals, n), n) == |input| * m
  {
    AreAligned(f, n, input, locals, partss);
    if input == [] {
      NothingTotals(n, n);
    } else {
      var k := |input| - 1;
      AllBucketedInit(f, n, input, locals, partss);
      assert FairKeys(f, n, m, input[k]);
      TotalsSum(f, n, m, input[..k], locals[..k], partss[..k]);
      TotalsInit(locals, n, n);
      LaidSize(input[k], locals[k].size, partss[k], locals[k].buff);
      assert |input| * m == k * m + m;
    }
  }

  lemma {:induction false} LaidSize(keys: seq<nat>, size: seq<nat>, parts: seq<seq<nat>>, buff: seq<nat>)
    requires Laid(size, parts, buff) && multiset(Join(parts)) == multiset(keys)
    ensures Sum(size, |size|) == |keys|
  {
    LaidIsJoin(size, parts, buff, |size|);
    assert parts[..|size|] == parts && buff[..|buff|] == buff;
    assert |multiset(buff)| == |buff| && |multiset(keys)| == |keys|;
  }

  method BucketAll(f: Bucketing, n: nat, ghost m: nat, input: seq<seq<nat>>) returns (locals: seq<Local>,
                   ghost partss: seq<seq<seq<nat>>>)
    requires n > 0 && Fair(f, n, m, input)
    ensures AllBucketed(f, n, input, locals, partss)
  {
    locals, partss := [], [];
    for r := 0 to |input|
      invariant |locals| == |partss| == r && forall k :: 0 <= k < r ==> Bucketed(f, n, input[k], locals[k], partss[k])
    {
      assert FairKeys(f, n, m, input[r]);
      hide Bucketed;
      var l, parts := SortIntoBuckets(f, n, input[r]);
      locals, partss := locals + [l], partss + [parts];
    }
  }

  ghost predicate RightRow(l: Local, ends: seq<nat>, procs: nat, row: seq<Share>) {
    |row| == procs && RightShares(l.size, ends, procs, row)
  }

  ghost predicate RightRows(locals: seq<Local>, ends: seq<nat>, shares: seq<seq<Share>>) {
    |shares| == |locals| && forall s :: 0 <= s < |locals| ==> RightRow(locals[s], ends, |locals|, shares[s])
  }

  method DealAll(locals: seq<Local>, totals: seq<nat>, m: nat) returns (shares: seq<seq<Share>>)
    requires locals != [] && m > 0 && Sum(totals, |totals|) == |locals| * m && Aligned(locals, |totals|)
    ensures RightRows(locals, Ends(totals, m, |totals|), shares)
  {
    shares := [];
    ghost var ends := Ends(totals, m, |totals|);
    for s := 0 to |locals|
      invariant |shares| == s && forall k :: 0 <= k < s ==> RightRow(locals[k], ends, |locals|, shares[k])
    {
      var row := Deal(locals[s].size, totals, |locals|, m);
      shares := shares + [row];
    }
  }

  /** MPI_Alltoall of the send counts: what every processor has for processor `r`. */
  method Column(locals: seq<Local>, ghost ends: seq<nat>, shares: seq<seq<Share>>, r: nat) returns (column: seq<Share>)
    requires r < |locals| && RightRows(locals, ends, shares)
    ensures RightColumn(ends, r, locals, column)
  {
    column := [];
    for s := 0 to |locals|
      invariant |column| == s && forall k :: 0 <= k < s ==> RightShare(locals[k].size, ends, r, column[k])
    {
      assert RightRow(locals[s], ends, |locals|, shares[s]);
      column := column + [shares[s][r]];
    }
  }

  /** All processors sort their shares. */
  method SortShares(f: Bucketing, w: nat, n: nat, ghost input: seq<seq<nat>>, locals: seq<Local>,
                    ghost partss: seq<seq<seq<nat>>>,
                    totals: seq<nat>, ghost ends: seq<nat>, shares: seq<seq<Share>>) returns (out: seq<seq<nat>>)
    requires n > 0 && Wide(f, w) && AllBucketed(f, n, input, locals, partss)
    requires Aligned(locals, n) && totals == AllReduce(locals, n) && Climbing(ends, n) &&
             RightRows(locals, ends, shares)
    ensures |out| == |locals| && SortedRun(w, n, partss, 0, Done(ends, |locals|), Join(out))
  {
    out := [];
    NothingSorted(f, w, n, input, locals, partss, ends);
    assert w > 0;
    hide *;
    for r := 0 to |locals|
      invariant |out| == r && SortedRun(w, n, partss, 0, Done(ends, r), Join(out))
    {
      var column := Column(locals, ends, shares, r);
      var part := SortShare(f, w, n, input, locals, partss, totals, ends, r, column);
      JoinSnoc(out, part);
      SortsOn(w, n, partss, ends, r, Join(out), part);
      out := out + [part];
    }
  }

  lemma {:induction false} NothingSorted(f: Bucketing, w: nat, n: nat, input: seq<seq<nat>>, locals: seq<Local>,
                                         partss: seq<seq<seq<nat>>>, ends: seq<nat>)
    requires AllBucketed(f, n, input, locals, partss)
    ensures SortedRun(w, n, partss, 0, Done(ends, 0), Join([]))
  {
    AreEven(f, n, input, locals, partss);
    NothingBetween(partss, n, 0);
  }

  /** The whole sort: what the processors hold in the end, one after the other, is a
      sorted permutation of what they held at first. */
  method SortAll(w: nat, n: nat, m: nat, input: seq<seq<nat>>) returns (out: seq<seq<nat>>)
    requires w > 0 && n > 0 && m > 0 && input != []
    requires forall r :: 0 <= r < |input| ==> |input[r]| == m && forall i :: 0 <= i < m ==> input[r][i] < n * w
    ensures |out| == |input| && Ascending(Join(out)) && multiset(Join(out)) == multiset(Join(input))
  {
    var f: Bucketing := k => if w == 0 then 0 else k / w;
    IsFair(f, w, n, m, input);
    assert Wide(f, w);
    hide *;
    var locals, partss := BucketAll(f, n, m, input);
    TotalsSum(f, n, m, input, locals, partss);
    var totals := AllReduce(locals, n);
    SameNumber(f, n, input, locals, partss);
    var shares := DealAll(locals, totals, m);
    EndsClimb(totals, m, n);
    out := SortShares(f, w, n, input, locals, partss, totals, Ends(totals, m, n), shares);
    Finish(f, w, n, m, input, locals, partss, Join(out));
  }

  lemma {:induction false} SameNumber(f: Bucketing, n: nat, input: seq<seq<nat>>, locals: seq<Local>,
                                      partss: seq<seq<seq<nat>>>)
    requires AllBucketed(f, n, input, locals, partss)
    ensures |locals| == |input|
  {
  }

  lemma {:induction false} EndsClimb(totals: seq<nat>, m: nat, n: nat)
    requires n == |totals|
    ensures Climbing(Ends(totals, m, n), n)
  {
  }

  lemma {:induction false} IsFair(f: Bucketing, w: nat, n: nat, m: nat, input: seq<seq<nat>>)
    requires Wide(f, w)
    requires forall r :: 0 <= r < |input| ==> |input[r]| == m && forall i :: 0 <= i < m ==> input[r][i] < n * w
    ensures Fair(f, n, m, input)
  {
    forall r | 0 <= r < |input| ensures FairKeys(f, n, m, input[r]) {
      forall i | 0 <= i < m ensures 0 <= f(input[r][i]) < n { BucketOf(w, input[r][i], 0, n); }
    }
  }

  /** All buckets that hold keys have been dealt, so all keys have been sorted. */
  lemma {:induction false} Finish(f: Bucketing, w: nat, n: nat, m: nat, input: seq<seq<nat>>, locals: seq<Local>,
                                  partss: seq<seq<seq<nat>>>, out: seq<nat>)
    requires m > 0 && Fair(f, n, m, input) && AllBucketed(f, n, input, locals, partss) && Aligned(locals, n)
    requires SortedRun(w, n, partss, 0, Done(Ends(AllReduce(locals, n), m, n), |input|), out)
    ensures Ascending(out) && multiset(out) == multiset(Join(input))
  {
    var totals := AllReduce(locals, n);
    var done := Done(Ends(totals, m, n), |input|);
    TotalsSum(f, n, m, input, locals, partss);
    DoneIsEnough(totals, m, |input|);
    EmptyBetween(f, n, input, locals, partss, done);
    BetweenAdds(partss, n, 0, done, n);
    BetweenAll(f, n, input, locals, partss);
  }

  lemma {:induction false} DoneIsEnough(totals: seq<nat>, m: nat, procs: nat)
    requires m > 0 && Sum(totals, |totals|) == procs * m
    ensures var done := Done(Ends(totals, m, |totals|), procs);
            done <= |totals| && forall b :: done <= b < |totals| ==> totals[b] == 0
  {
    var ends := Ends(totals, m, |totals|);
    NeverTooMany(totals, m, procs);
    forall b | Done(ends, procs) <= b < |totals| ensures totals[b] == 0 {
      if totals[b] > 0 { NoneLeftOver(totals, m, procs, |totals|, b); }
    }
  }
}

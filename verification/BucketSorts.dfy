/** The loops of NPB IS that run on one processor (IS/is.c: rank, and the sort of
    full_verify): sorting keys into buckets, dealing buckets to processors, and the
    counting sort. */
module BucketSorts {
  import opened Arithmetic

  // ----- lists laid end to end -----

  function Sum(t: seq<nat>, i: nat): nat
    requires i <= |t|
  {
    if i == 0 then 0 else Sum(t, i - 1) + t[i - 1]
  }

  lemma {:induction false} SumMono(t: seq<nat>, i: nat, j: nat)
    requires i <= j <= |t|
    ensures Sum(t, i) <= Sum(t, j)
  {
    if i < j { SumMono(t, i, j - 1); }
  }

  function Join(parts: seq<seq<nat>>): seq<nat> {
    if parts == [] then [] else Join(parts[..|parts| - 1]) + parts[|parts| - 1]
  }

  function Empties(n: nat): (parts: seq<seq<nat>>)
    ensures |parts| == n
  {
    seq(n, b => [])
  }

  lemma {:induction false} JoinSnoc(parts: seq<seq<nat>>, p: seq<nat>)
    ensures Join(parts + [p]) == Join(parts) + p
  {
    assert (parts + [p])[..|parts|] == parts;
  }

  lemma {:induction false} JoinConcat(a: seq<seq<nat>>, b: seq<seq<nat>>)
    ensures Join(a + b) == Join(a) + Join(b)
  {
    if b == [] {
      assert a + b == a;
    } else {
      var m := |b| - 1;
      assert a + b == (a + b[..m]) + [b[m]];
      JoinSnoc(a + b[..m], b[m]);
      JoinConcat(a, b[..m]);
    }
  }

  /** One more key in one of the lists. */
  lemma {:induction false} JoinGrows(parts: seq<seq<nat>>, b: nat, k: nat, grown: seq<nat>)
    requires b < |parts| && multiset(grown) == multiset(parts[b]) + multiset{k}
    ensures multiset(Join(parts[b := grown])) == multiset(Join(parts)) + multiset{k}
  {
    var x, y := parts[..b], parts[b + 1..];
    assert parts == x + [parts[b]] + y && parts[b := grown] == x + [grown] + y;
    JoinConcat(x + [parts[b]], y);
    JoinConcat(x + [grown], y);
    JoinSnoc(x, parts[b]);
    JoinSnoc(x, grown);
  }

  // ----- filling the lists of a buffer, from the front or from the back -----

  /** List `b` has come to hold `part`, at the front of its stretch of the buffer. */
  predicate Fronted(sizes: seq<nat>, b: nat, part: seq<nat>, ptr: nat, buff: seq<nat>) {
    && b < |sizes| && |part| <= sizes[b]
    && ptr == Sum(sizes, b) + |part| && ptr <= |buff| && buff[Sum(sizes, b)..ptr] == part
  }

  /** ... at the back of its stretch. */
  predicate Backed(sizes: seq<nat>, b: nat, part: seq<nat>, ptr: nat, buff: seq<nat>) {
    && b < |sizes| && |part| <= sizes[b]
    && ptr + |part| == Sum(sizes, b + 1) <= |buff| && buff[ptr..Sum(sizes, b + 1)] == part
  }

  predicate AllFronted(sizes: seq<nat>, parts: seq<seq<nat>>, ptrs: seq<nat>, buff: seq<nat>) {
    && |parts| == |sizes| == |ptrs| && |buff| == Sum(sizes, |sizes|)
    && forall b :: 0 <= b < |sizes| ==> Fronted(sizes, b, parts[b], ptrs[b], buff)
  }

  predicate AllBacked(sizes: seq<nat>, parts: seq<seq<nat>>, ptrs: seq<nat>, buff: seq<nat>) {
    && |parts| == |sizes| == |ptrs| && |buff| == Sum(sizes, |sizes|)
    && forall b :: 0 <= b < |sizes| ==> Backed(sizes, b, parts[b], ptrs[b], buff)
  }

  /** Stretches do not overlap. */
  lemma {:induction false} Stretches(sizes: seq<nat>, b: nat, c: nat)
    requires b < |sizes| && c < |sizes| && b != c
    ensures Sum(sizes, b) + sizes[b] <= Sum(sizes, c) || Sum(sizes, c) + sizes[c] <= Sum(sizes, b)
  {
    if b < c { Stretch(sizes, b, c); } else { Stretch(sizes, c, b); }
  }

  lemma {:induction false} Stretch(sizes: seq<nat>, b: nat, c: nat)
    requires b < c <= |sizes|
    ensures Sum(sizes, b) + sizes[b] <= Sum(sizes, c)
  {
    assert Sum(sizes, b + 1) == Sum(sizes, b) + sizes[b];
    SumMono(sizes, b + 1, c);
  }

  lemma {:induction false} Outside(buff: seq<nat>, p: nat, x: nat, lo: nat, hi: nat)
    requires p < |buff| && lo <= hi <= |buff| && (p < lo || hi <= p)
    ensures buff[p := x][lo..hi] == buff[lo..hi]
  {
  }

  lemma {:induction false} FrontOne(sizes: seq<nat>, parts: seq<seq<nat>>, ptrs: seq<nat>, buff: seq<nat>, b0: nat,
                                    k: nat)
    requires AllFronted(sizes, parts, ptrs, buff) && b0 < |sizes| && |parts[b0]| < sizes[b0]
    ensures ptrs[b0] < |buff|
    ensures AllFronted(sizes, parts[b0 := parts[b0] + [k]], ptrs[b0 := ptrs[b0] + 1], buff[ptrs[b0] := k])
  {
    assert Fronted(sizes, b0, parts[b0], ptrs[b0], buff);
    SumMono(sizes, b0 + 1, |sizes|);
    var p := ptrs[b0];
    var parts', ptrs', buff' := parts[b0 := parts[b0] + [k]], ptrs[b0 := p + 1], buff[p := k];
    forall b | 0 <= b < |sizes| ensures Fronted(sizes, b, parts'[b], ptrs'[b], buff') {
      assert Fronted(sizes, b, parts[b], ptrs[b], buff);
      if b == b0 {
        assert buff'[Sum(sizes, b)..p + 1] == buff[Sum(sizes, b)..p] + [k];
      } else {
        Stretches(sizes, b, b0);
        Outside(buff, p, k, Sum(sizes, b), ptrs[b]);
      }
    }
  }

  lemma {:induction false} BackOne(sizes: seq<nat>, parts: seq<seq<nat>>, ptrs: seq<nat>, buff: seq<nat>, b0: nat,
                                   k: nat)
    requires AllBacked(sizes, parts, ptrs, buff) && b0 < |sizes| && |parts[b0]| < sizes[b0]
    ensures 0 < ptrs[b0] <= |buff|
    ensures AllBacked(sizes, parts[b0 := [k] + parts[b0]], ptrs[b0 := ptrs[b0] - 1], buff[ptrs[b0] - 1 := k])
  {
    assert Backed(sizes, b0, parts[b0], ptrs[b0], buff);
    SumMono(sizes, b0 + 1, |sizes|);
    var p := ptrs[b0] - 1;
    var parts', ptrs', buff' := parts[b0 := [k] + parts[b0]], ptrs[b0 := p], buff[p := k];
    forall b | 0 <= b < |sizes| ensures Backed(sizes, b, parts'[b], ptrs'[b], buff') {
      assert Backed(sizes, b, parts[b], ptrs[b], buff);
      if b == b0 {
        assert buff'[p..Sum(sizes, b + 1)] == [k] + buff[p + 1..Sum(sizes, b + 1)];
      } else {
        Stretches(sizes, b, b0);
        Outside(buff, p, k, ptrs[b], Sum(sizes, b + 1));
      }
    }
  }

  lemma {:induction false} NoneFronted(sizes: seq<nat>, ptrs: seq<nat>, buff: seq<nat>)
    requires |ptrs| == |sizes| && |buff| == Sum(sizes, |sizes|) &&
             forall b :: 0 <= b < |sizes| ==> ptrs[b] == Sum(sizes, b)
    ensures AllFronted(sizes, Empties(|sizes|), ptrs, buff)
  {
    forall b | 0 <= b < |sizes| ensures Fronted(sizes, b, [], ptrs[b], buff) { SumMono(sizes, b, |sizes|); }
  }

  lemma {:induction false} NoneBacked(sizes: seq<nat>, ptrs: seq<nat>, buff: seq<nat>)
    requires |ptrs| == |sizes| && |buff| == Sum(sizes, |sizes|) &&
             forall b :: 0 <= b < |sizes| ==> ptrs[b] == Sum(sizes, b + 1)
    ensures AllBacked(sizes, Empties(|sizes|), ptrs, buff)
  {
    forall b | 0 <= b < |sizes| ensures Backed(sizes, b, [], ptrs[b], buff) { SumMono(sizes, b + 1, |sizes|); }
  }

  /** Every stretch of the buffer holds its list. */
  predicate Laid(sizes: seq<nat>, parts: seq<seq<nat>>, buff: seq<nat>) {
    && |parts| == |sizes| && |buff| == Sum(sizes, |sizes|)
    && forall b :: 0 <= b < |sizes| ==> HasPart(sizes, parts, buff, b)
  }

  predicate HasPart(sizes: seq<nat>, parts: seq<seq<nat>>, buff: seq<nat>, b: nat) {
    && b < |sizes| == |parts| && |parts[b]| == sizes[b] && Sum(sizes, b + 1) <= |buff|
    && buff[Sum(sizes, b)..Sum(sizes, b + 1)] == parts[b]
  }

  lemma {:induction false} LaidIsJoin(sizes: seq<nat>, parts: seq<seq<nat>>, buff: seq<nat>, n: nat)
    requires Laid(sizes, parts, buff) && n <= |sizes|
    ensures Sum(sizes, n) <= |buff| && buff[..Sum(sizes, n)] == Join(parts[..n])
  {
    SumMono(sizes, n, |sizes|);
    if n > 0 {
      LaidIsJoin(sizes, parts, buff, n - 1);
      assert HasPart(sizes, parts, buff, n - 1);
      assert parts[..n] == parts[..n - 1] + [parts[n - 1]];
      JoinSnoc(parts[..n - 1], parts[n - 1]);
      assert buff[..Sum(sizes, n)] == buff[..Sum(sizes, n - 1)] + buff[Sum(sizes, n - 1)..Sum(sizes, n)];
    }
  }

  /** A run of whole lists is a slice of the buffer. */
  lemma {:induction false} SliceIsJoin(sizes: seq<nat>, parts: seq<seq<nat>>, buff: seq<nat>, lo: nat, hi: nat)
    requires Laid(sizes, parts, buff) && lo <= hi <= |sizes|
    ensures Sum(sizes, lo) <= Sum(sizes, hi) <= |buff|
    ensures buff[Sum(sizes, lo)..Sum(sizes, hi)] == Join(parts[lo..hi])
  {
    SumMono(sizes, lo, hi);
    LaidIsJoin(sizes, parts, buff, lo);
    LaidIsJoin(sizes, parts, buff, hi);
    assert parts[..hi] == parts[..lo] + parts[lo..hi];
    JoinConcat(parts[..lo], parts[lo..hi]);
    Middle(buff, Sum(sizes, lo), Sum(sizes, hi), Join(parts[..lo]), Join(parts[lo..hi]));
  }

  lemma {:induction false} Middle(buff: seq<nat>, lo: nat, hi: nat, a: seq<nat>, b: seq<nat>)
    requires lo <= hi <= |buff| && buff[..lo] == a && buff[..hi] == a + b
    ensures buff[lo..hi] == b
  {
    assert buff[lo..hi] == buff[..hi][lo..];
  }

  lemma {:induction false} FrontedIsLaid(sizes: seq<nat>, parts: seq<seq<nat>>, ptrs: seq<nat>, buff: seq<nat>)
    requires AllFronted(sizes, parts, ptrs, buff) && forall b :: 0 <= b < |sizes| ==> |parts[b]| == sizes[b]
    ensures Laid(sizes, parts, buff)
  {
    forall b | 0 <= b < |sizes|
      ensures HasPart(sizes, parts, buff, b)
    {
      assert Fronted(sizes, b, parts[b], ptrs[b], buff);
    }
  }

  lemma {:induction false} BackedIsLaid(sizes: seq<nat>, parts: seq<seq<nat>>, ptrs: seq<nat>, buff: seq<nat>)
    requires AllBacked(sizes, parts, ptrs, buff) && forall b :: 0 <= b < |sizes| ==> |parts[b]| == sizes[b]
    ensures Laid(sizes, parts, buff)
  {
    forall b | 0 <= b < |sizes|
      ensures HasPart(sizes, parts, buff, b)
    {
      assert Backed(sizes, b, parts[b], ptrs[b], buff);
    }
  }

  // ----- sorting into buckets -----

  /** Which bucket a key belongs to. */
  type Bucketing = nat -> nat

  predicate InBuckets(f: Bucketing, s: seq<nat>, n: nat) {
    forall i :: 0 <= i < |s| ==> f(s[i]) < n
  }

  function Count(f: Bucketing, s: seq<nat>, b: nat): nat {
    if s == [] then 0 else Count(f, s[..|s| - 1], b) + if f(s[|s| - 1]) == b then 1 else 0
  }

  lemma {:induction false} CountSnoc(f: Bucketing, s: seq<nat>, i: nat, b: nat)
    requires i < |s|
    ensures Count(f, s[..i + 1], b) == Count(f, s[..i], b) + if f(s[i]) == b then 1 else 0
  {
    assert s[..i + 1][..i] == s[..i];
  }

  lemma {:induction false} CountPrefix(f: Bucketing, s: seq<nat>, i: nat, b: nat)
    requires i <= |s|
    ensures Count(f, s[..i], b) <= Count(f, s, b)
    decreases |s| - i
  {
    if i == |s| {
      assert s[..i] == s;
    } else {
      CountSnoc(f, s, i, b);
      CountPrefix(f, s, i + 1, b);
    }
  }

  predicate Counts(f: Bucketing, s: seq<nat>, sizes: seq<nat>) {
    forall b :: 0 <= b < |sizes| ==> sizes[b] == Count(f, s, b)
  }

  lemma {:induction false} SumUpdate(t: seq<nat>, b: nat, x: nat, i: nat)
    requires b < |t| && i <= |t|
    ensures Sum(t[b := x], i) == if b < i then Sum(t, i) - t[b] + x else Sum(t, i)
  {
    if i > 0 { SumUpdate(t, b, x, i - 1); }
  }

  /** The buckets hold all the keys. */
  lemma {:induction false} CountsSum(f: Bucketing, s: seq<nat>, sizes: seq<nat>)
    requires Counts(f, s, sizes) && InBuckets(f, s, |sizes|)
    ensures Sum(sizes, |sizes|) == |s|
  {
    if s == [] {
      AllZero(sizes, |sizes|);
    } else {
      var m := |s| - 1;
      var b := f(s[m]);
      var before := sizes[b := sizes[b] - 1];
      CountsSum(f, s[..m], before);
      SumUpdate(sizes, b, sizes[b] - 1, |sizes|);
    }
  }

  lemma {:induction false} AllZero(t: seq<nat>, i: nat)
    requires i <= |t| && forall b :: 0 <= b < |t| ==> t[b] == 0
    ensures Sum(t, i) == 0
  {
    if i > 0 { AllZero(t, i - 1); }
  }

  method CountBuckets(f: Bucketing, n: nat, keys: seq<nat>) returns (size: array<nat>)
    requires InBuckets(f, keys, n)
    ensures fresh(size) && size.Length == n && Counts(f, keys, size[..])
  {
    size := new nat[n](i => 0);
    for i := 0 to |keys|
      invariant forall b :: 0 <= b < n ==> size[b] == Count(f, keys[..i], b)
    {
      forall b | 0 <= b < n
        ensures Count(f, keys[..i + 1], b) == Count(f, keys[..i], b) + if f(keys[i]) == b then 1 else 0
      {
        CountSnoc(f, keys, i, b);
      }
      var b := f(keys[i]);
      size[b] := size[b] + 1;
    }
    assert keys[..|keys|] == keys;
  }

  method BucketPointers(size: array<nat>) returns (ptrs: array<nat>)
    requires size.Length > 0
    ensures fresh(ptrs) && ptrs.Length == size.Length
    ensures forall b :: 0 <= b < ptrs.Length ==> ptrs[b] == Sum(size[..], b)
  {
    ptrs := new nat[size.Length];
    ptrs[0] := 0;
    ghost var sizes := size[..];
    for i := 1 to size.Length
      invariant size[..] == sizes
      invariant forall b :: 0 <= b < i ==> ptrs[b] == Sum(sizes, b)
    {
      ptrs[i] := ptrs[i - 1] + size[i - 1];
    }
  }

  /** Every key lies in the list of its bucket. */
  predicate OwnBuckets(f: Bucketing, parts: seq<seq<nat>>) {
    forall b, t :: 0 <= b < |parts| && 0 <= t < |parts[b]| ==> f(parts[b][t]) == b
  }

  predicate Sized(f: Bucketing, keys: seq<nat>, parts: seq<seq<nat>>) {
    forall b :: 0 <= b < |parts| ==> |parts[b]| == Count(f, keys, b)
  }

  /** The lists hold the first `i` keys, sorted by bucket. */
  ghost predicate Holds(f: Bucketing, keys: seq<nat>, i: nat, parts: seq<seq<nat>>)
    requires i <= |keys|
  {
    && Sized(f, keys[..i], parts) && OwnBuckets(f, parts) && multiset(Join(parts)) == multiset(keys[..i])
  }

  lemma {:induction false} JoinEmpties(n: nat)
    ensures Join(Empties(n)) == []
  {
    if n > 0 {
      assert Empties(n)[..n - 1] == Empties(n - 1);
      JoinEmpties(n - 1);
    }
  }

  lemma {:induction false} HoldsNothing(f: Bucketing, keys: seq<nat>, n: nat)
    ensures Holds(f, keys, 0, Empties(n))
  {
    JoinEmpties(n);
  }

  lemma {:induction false} HoldsOneMore(f: Bucketing, keys: seq<nat>, i: nat, parts: seq<seq<nat>>, b: nat,
                                        grown: seq<nat>)
    requires i < |keys| && Holds(f, keys, i, parts) && b == f(keys[i]) < |parts|
    requires grown == parts[b] + [keys[i]] || grown == [keys[i]] + parts[b]
    ensures Holds(f, keys, i + 1, parts[b := grown])
  {
    SizedOneMore(f, keys, i, parts, b, grown);
    OwnOneMore(f, parts, b, keys[i], grown);
    hide *;
    Grown(parts[b], keys[i], grown);
    JoinGrows(parts, b, keys[i], grown);
    assert keys[..i + 1] == keys[..i] + [keys[i]];
  }

  lemma {:induction false} SizedOneMore(f: Bucketing, keys: seq<nat>, i: nat, parts: seq<seq<nat>>, b: nat,
                                        grown: seq<nat>)
    requires i < |keys| && Sized(f, keys[..i], parts) && b == f(keys[i]) < |parts| && |grown| == |parts[b]| + 1
    ensures Sized(f, keys[..i + 1], parts[b := grown])
  {
    var parts' := parts[b := grown];
    forall c | 0 <= c < |parts'| ensures |parts'[c]| == Count(f, keys[..i + 1], c) { CountSnoc(f, keys, i, c); }
  }

  lemma {:induction false} Grown(part: seq<nat>, k: nat, grown: seq<nat>)
    requires grown == part + [k] || grown == [k] + part
    ensures multiset(grown) == multiset(part) + multiset{k}
  {
  }

  lemma {:induction false} OwnOneMore(f: Bucketing, parts: seq<seq<nat>>, b: nat, k: nat, grown: seq<nat>)
    requires OwnBuckets(f, parts) && b == f(k) < |parts| && (grown == parts[b] + [k] || grown == [k] + parts[b])
    ensures OwnBuckets(f, parts[b := grown])
  {
    forall t | 0 <= t < |grown| ensures f(grown[t]) == b {
      if grown[t] != k { var u :| 0 <= u < |parts[b]| && parts[b][u] == grown[t]; }
    }
  }

  lemma {:induction false} RoomLeft(f: Bucketing, keys: seq<nat>, i: nat, parts: seq<seq<nat>>, sizes: seq<nat>, b: nat)
    requires i < |keys| && Holds(f, keys, i, parts) && Counts(f, keys, sizes) && |sizes| == |parts| &&
             b == f(keys[i]) < |parts|
    ensures |parts[b]| < sizes[b]
  {
    CountSnoc(f, keys, i, b);
    CountPrefix(f, keys, i + 1, b);
  }

  lemma {:induction false} AllThere(f: Bucketing, keys: seq<nat>, parts: seq<seq<nat>>, sizes: seq<nat>)
    requires Holds(f, keys, |keys|, parts) && Counts(f, keys, sizes) && |sizes| == |parts|
    ensures forall b :: 0 <= b < |sizes| ==> |parts[b]| == sizes[b]
    ensures OwnBuckets(f, parts) && multiset(Join(parts)) == multiset(keys)
  {
    assert keys[..|keys|] == keys;
  }

  /** Sorting into buckets: the buffer ends up as the buckets' lists, end to end. */
  method Scatter(f: Bucketing, keys: seq<nat>, ghost sizes: seq<nat>, ptrs: array<nat>) returns (buff: array<nat>,
                 ghost parts: seq<seq<nat>>)
    requires |sizes| == ptrs.Length && InBuckets(f, keys, |sizes|) && Counts(f, keys, sizes)
    requires forall b :: 0 <= b < |sizes| ==> ptrs[b] == Sum(sizes, b)
    modifies ptrs
    ensures fresh(buff) && Laid(sizes, parts, buff[..]) && OwnBuckets(f, parts) &&
            multiset(Join(parts)) == multiset(keys)
  {
    hide *;
    CountsSum(f, keys, sizes);
    buff := new nat[|keys|];
    parts := Empties(|sizes|);
    ghost var ps: seq<nat>, bs: seq<nat> := ptrs[..], buff[..];
    FrontingStart(f, keys, sizes, ps, bs);
    for i := 0 to |keys|
      invariant ptrs[..] == ps && buff[..] == bs
      invariant Fronting(f, keys, i, sizes, parts, ps, bs)
    {
      var b := f(keys[i]);
      FrontingStep(f, keys, i, sizes, parts, ps, bs, b);
      Write(buff, ptrs[b], keys[i]);
      bs := bs[ps[b] := keys[i]];
      Write(ptrs, b, ptrs[b] + 1);
      ps := ps[b := ps[b] + 1];
      parts := parts[b := parts[b] + [keys[i]]];
    }
    FrontingEnd(f, keys, sizes, parts, ps, bs);
  }

  /** a[i] = x */
  method Write(a: array<nat>, i: nat, x: nat)
    requires i < a.Length
    modifies a
    ensures a[..] == old(a[..])[i := x]
  {
    a[i] := x;
  }

  ghost predicate Fronting(f: Bucketing, keys: seq<nat>, i: nat, sizes: seq<nat>, parts: seq<seq<nat>>,
                           ptrs: seq<nat>, buff: seq<nat>) {
    i <= |keys| && Holds(f, keys, i, parts) && AllFronted(sizes, parts, ptrs, buff)
  }

  lemma {:induction false} FrontingStart(f: Bucketing, keys: seq<nat>, sizes: seq<nat>, ptrs: seq<nat>, buff: seq<nat>)
    requires |ptrs| == |sizes| && |buff| == Sum(sizes, |sizes|) &&
             forall b :: 0 <= b < |sizes| ==> ptrs[b] == Sum(sizes, b)
    ensures Fronting(f, keys, 0, sizes, Empties(|sizes|), ptrs, buff)
  {
    NoneFronted(sizes, ptrs, buff);
    HoldsNothing(f, keys, |sizes|);
  }

  lemma {:induction false} FrontingEnd(f: Bucketing, keys: seq<nat>, sizes: seq<nat>, parts: seq<seq<nat>>,
                                       ptrs: seq<nat>, buff: seq<nat>)
    requires Fronting(f, keys, |keys|, sizes, parts, ptrs, buff) && Counts(f, keys, sizes)
    ensures Laid(sizes, parts, buff) && OwnBuckets(f, parts) && multiset(Join(parts)) == multiset(keys)
  {
    AllThere(f, keys, parts, sizes);
    FrontedIsLaid(sizes, parts, ptrs, buff);
  }

  lemma {:induction false} FrontingStep(f: Bucketing, keys: seq<nat>, i: nat, sizes: seq<nat>, parts: seq<seq<nat>>,
                                        ptrs: seq<nat>,
                                        buff: seq<nat>, b: nat)
    requires i < |keys| && Fronting(f, keys, i, sizes, parts, ptrs, buff)
    requires InBuckets(f, keys, |sizes|) && Counts(f, keys, sizes) && b == f(keys[i])
    ensures b < |ptrs| == |parts| && ptrs[b] < |buff|
    ensures Fronting(f, keys, i + 1, sizes, parts[b := parts[b] + [keys[i]]], ptrs[b := ptrs[b] + 1],
                     buff[ptrs[b] := keys[i]])
  {
    RoomLeft(f, keys, i, parts, sizes, b);
    FrontOne(sizes, parts, ptrs, buff, b, keys[i]);
    HoldsOneMore(f, keys, i, parts, b, parts[b] + [keys[i]]);
  }

  // ----- counting sort -----

  predicate Ascending(s: seq<nat>) {
    forall i, j :: 0 <= i < j < |s| ==> s[i] <= s[j]
  }

  /** Every key from `lo` on a bucket of its own. */
  function From(lo: nat): Bucketing { k => if k < lo then 0 else k - lo }

  /** Running sums of the populations: where each key's places end. */
  method RunningSums(pop: array<nat>) returns (ghost sizes: seq<nat>)
    modifies pop
    ensures sizes == old(pop[..]) && forall x :: 0 <= x < pop.Length ==> pop[x] == Sum(sizes, x + 1)
  {
    sizes := pop[..];
    var i := 0;
    while i + 1 < pop.Length
      invariant 0 <= i && (i < pop.Length || pop.Length == 0)
      invariant forall x :: 0 <= x <= i < pop.Length ==> pop[x] == Sum(sizes, x + 1)
      invariant forall x :: i < x < pop.Length ==> pop[x] == sizes[x]
    {
      pop[i + 1] := pop[i + 1] + pop[i];
      i := i + 1;
    }
  }

  lemma {:induction false} JoinAscends(parts: seq<seq<nat>>, lo: nat)
    requires forall b, t :: 0 <= b < |parts| && 0 <= t < |parts[b]| ==> parts[b][t] == lo + b
    ensures Ascending(Join(parts)) && forall i :: 0 <= i < |Join(parts)| ==> lo <= Join(parts)[i] < lo + |parts|
  {
    if parts != [] { JoinAscends(parts[..|parts| - 1], lo); }
  }

  /** The ranking of rank() and the sort of full_verify, for keys from `lo` up to, not
      including, `hi`. */
  method CountingSort(lo: nat, hi: nat, s: seq<nat>) returns (out: seq<nat>)
    requires lo <= hi && forall i :: 0 <= i < |s| ==> lo <= s[i] < hi
    ensures Ascending(out) && multiset(out) == multiset(s)
  {
    hide *;
    FromBuckets(lo, hi, s);
    var ptr := CountBuckets(From(lo), hi - lo, s);
    ghost var sizes := RunningSums(ptr);
    CountsSum(From(lo), s, sizes);
    var keys := new nat[|s|];
    ghost var parts := Empties(|sizes|);
    ghost var ps: seq<nat>, ks: seq<nat> := ptr[..], keys[..];
    BackingStart(lo, s, sizes, ps, ks);
    for i := 0 to |s|
      invariant ptr[..] == ps && keys[..] == ks
      invariant Backing(lo, s, i, sizes, parts, ps, ks)
    {
      var x := s[i] - lo;
      BackingStep(lo, s, i, sizes, parts, ps, ks, x);
      Write(ptr, x, ptr[x] - 1);
      Write(keys, ptr[x], s[i]);
      ks := ks[ps[x] - 1 := s[i]];
      ps := ps[x := ps[x] - 1];
      parts := parts[x := [s[i]] + parts[x]];
    }
    BackingEnd(lo, s, sizes, parts, ps, ks);
    out := keys[..];
  }

  lemma {:induction false} BackingStart(lo: nat, s: seq<nat>, sizes: seq<nat>, ptr: seq<nat>, keys: seq<nat>)
    requires |ptr| == |sizes| && |keys| == Sum(sizes, |sizes|) &&
             forall b :: 0 <= b < |sizes| ==> ptr[b] == Sum(sizes, b + 1)
    ensures Backing(lo, s, 0, sizes, Empties(|sizes|), ptr, keys)
  {
    NoneBacked(sizes, ptr, keys);
    HoldsNothing(From(lo), s, |sizes|);
  }

  lemma {:induction false} BackingEnd(lo: nat, s: seq<nat>, sizes: seq<nat>, parts: seq<seq<nat>>, ptr: seq<nat>,
                                      keys: seq<nat>)
    requires Backing(lo, s, |s|, sizes, parts, ptr, keys) && Counts(From(lo), s, sizes)
    ensures Ascending(keys) && multiset(keys) == multiset(s)
  {
    AllThere(From(lo), s, parts, sizes);
    BackedIsLaid(sizes, parts, ptr, keys);
    LaidIsJoin(sizes, parts, keys, |sizes|);
    assert parts[..|sizes|] == parts && keys[..|keys|] == keys;
    JoinAscends(parts, lo);
  }

  lemma {:induction false} FromBuckets(lo: nat, hi: nat, s: seq<nat>)
    requires lo <= hi && forall i :: 0 <= i < |s| ==> lo <= s[i] < hi
    ensures InBuckets(From(lo), s, hi - lo)
  {
  }

  ghost predicate Backing(lo: nat, s: seq<nat>, i: nat, sizes: seq<nat>, parts: seq<seq<nat>>, ptr: seq<nat>,
                          keys: seq<nat>) {
    i <= |s| && Holds(From(lo), s, i, parts) && AllBacked(sizes, parts, ptr, keys) && SelfSame(lo, parts)
  }

  lemma {:induction false} BackingStep(lo: nat, s: seq<nat>, i: nat, sizes: seq<nat>, parts: seq<seq<nat>>,
                                       ptr: seq<nat>, keys: seq<nat>, x: nat)
    requires i < |s| && Backing(lo, s, i, sizes, parts, ptr, keys)
    requires InBuckets(From(lo), s, |sizes|) && Counts(From(lo), s, sizes) && lo <= s[i] && x == s[i] - lo
    ensures x < |ptr| == |parts| && 0 < ptr[x] <= |keys|
    ensures Backing(lo, s, i + 1, sizes, parts[x := [s[i]] + parts[x]], ptr[x := ptr[x] - 1], keys[ptr[x] - 1 := s[i]])
  {
    assert x == From(lo)(s[i]);
    RoomLeft(From(lo), s, i, parts, sizes, x);
    BackOne(sizes, parts, ptr, keys, x, s[i]);
    HoldsOneMore(From(lo), s, i, parts, x, [s[i]] + parts[x]);
  }

  predicate SelfSame(lo: nat, parts: seq<seq<nat>>) {
    forall b, t :: 0 <= b < |parts| && 0 <= t < |parts[b]| ==> parts[b][t] == lo + b
  }

  // ----- which processor gets which buckets -----

  /** The last bucket of each processor that has been given its buckets when `i` of
      them have been dealt out. */
  function Ends(totals: seq<nat>, n: nat, i: nat): (e: seq<nat>)
    requires i <= |totals|
    ensures forall j :: 0 <= j < |e| ==> e[j] < i
    ensures forall j, k :: 0 <= j < k < |e| ==> e[j] < e[k]
  {
    if i == 0 then []
    else
      var e := Ends(totals, n, i - 1);
      if Sum(totals, i) >= (|e| + 1) * n then e + [i - 1] else e
  }

  /** The first bucket of processor `j`. */
  function First(ends: seq<nat>, j: nat): nat
    requires j <= |ends|
  {
    if j == 0 then 0 else ends[j - 1] + 1
  }

  lemma {:induction false} EndsFit(totals: seq<nat>, n: nat, i: nat)
    requires i <= |totals|
    ensures |Ends(totals, n, i)| * n <= Sum(totals, i)
  {
    if i > 0 { EndsFit(totals, n, i - 1); }
  }

  lemma {:induction false} Order(a: nat, b: nat, n: nat)
    requires n > 0
    ensures a <= b <==> a * n <= b * n
  {
    if a <= b {
      assert b * n == a * n + (b - a) * n;
    } else {
      assert a * n == b * n + (a - b) * n;
      Times(a - b, n);
    }
  }

  /** Dealing out the buckets never runs past the last processor exactly if every
      processor has some key, or there are no more buckets than processors. */
  lemma {:induction false} NeverTooMany(totals: seq<nat>, n: nat, procs: nat)
    requires Sum(totals, |totals|) == procs * n
    ensures |Ends(totals, n, |totals|)| <= procs <==> n > 0 || |totals| <= procs
  {
    if n > 0 {
      EndsFit(totals, n, |totals|);
      Order(|Ends(totals, n, |totals|)|, procs, n);
    } else {
      EndsOfNothing(totals, |totals|);
    }
  }

  lemma {:induction false} EndsOfNothing(totals: seq<nat>, i: nat)
    requires i <= |totals|
    ensures |Ends(totals, 0, i)| == i
  {
    if i > 0 { EndsOfNothing(totals, i - 1); }
  }

  /** Every bucket that holds a key is dealt out. */
  lemma {:induction false} NoneLeftOver(totals: seq<nat>, n: nat, procs: nat, i: nat, b: nat)
    requires n > 0 && b < i <= |totals| && Sum(totals, i) == procs * n && totals[b] > 0
    ensures var e := Ends(totals, n, i); e != [] && b <= e[|e| - 1]
  {
    var e := Ends(totals, n, i - 1);
    EndsFit(totals, n, i - 1);
    if totals[i - 1] > 0 {
      Order(procs, |e|, n);
      Order(|e| + 1, procs, n);
    } else {
      NoneLeftOver(totals, n, procs, i - 1, b);
    }
  }

  /** What the loop over the buckets sets for a processor. */
  datatype Share = Share(count: nat, displ: nat, ptr1: nat, ptr2: nat)

  /** Processor `j` gets the buckets between the ends, and is sent this processor's
      keys in them; a processor past the last end gets none. */
  predicate RightShare(size: seq<nat>, ends: seq<nat>, j: nat, share: Share) {
    if j < |ends| then
      && share.ptr1 == First(ends, j) && share.ptr2 == ends[j]
      && share.ptr1 <= share.ptr2 + 1 <= |size|
      && share.displ == Sum(size, share.ptr1) && share.displ + share.count == Sum(size, share.ptr2 + 1)
    else share.count == 0 && share.ptr1 == 1 && share.ptr2 == 0
  }

  predicate RightShares(size: seq<nat>, ends: seq<nat>, j: nat, shares: seq<Share>) {
    j <= |shares| && forall k :: 0 <= k < j ==> RightShare(size, ends, k, shares[k])
  }

  predicate Untouched(j: nat, shares: seq<Share>) {
    && (forall k :: j <= k < |shares| ==> shares[k].ptr2 == 0)
    && (j == 0 < |shares| ==> shares[0].displ == 0 && shares[0].ptr1 == 0)
  }

  /** Where the loop over the buckets stands before bucket `i`. */
  predicate Dealing(size: seq<nat>, totals: seq<nat>, n: nat, i: nat, j: nat, localSum: nat, shares: seq<Share>) {
    && i <= |totals| == |size| && j == |Ends(totals, n, i)|
    && Sum(size, First(Ends(totals, n, i), j)) + localSum == Sum(size, i)
    && RightShares(size, Ends(totals, n, i), j, shares) && Untouched(j, shares)
  }

  /** What the loop makes of the share of the processor whose buckets end at `i`. */
  function NewShare(shares: seq<Share>, j: nat, localSum: nat, i: nat): Share
    requires j < |shares|
  {
    if j != 0 then Share(localSum, shares[j - 1].displ + shares[j - 1].count, shares[j - 1].ptr2 + 1, i)
    else Share(localSum, shares[j].displ, shares[j].ptr1, i)
  }

  lemma {:induction false} DealEnd(size: seq<nat>, totals: seq<nat>, n: nat, i: nat, j: nat, localSum: nat,
                                   shares: seq<Share>)
    requires i < |totals| && Dealing(size, totals, n, i, j, localSum, shares) && j < |shares|
    requires Sum(totals, i + 1) >= (j + 1) * n
    ensures Dealing(size, totals, n, i + 1, j + 1, 0, shares[j := NewShare(shares, j, localSum + size[i], i)])
  {
    var ends := Ends(totals, n, i);
    var ends' := ends + [i];
    var shares' := shares[j := NewShare(shares, j, localSum + size[i], i)];
    assert Ends(totals, n, i + 1) == ends';
    if j != 0 { assert RightShare(size, ends, j - 1, shares[j - 1]); }
    forall k | 0 <= k < j + 1 ensures RightShare(size, ends', k, shares'[k]) {
      if k < j {
        assert RightShare(size, ends, k, shares[k]);
      } else {
        assert Sum(size, i + 1) == Sum(size, i) + size[i];
      }
    }
  }

  lemma {:induction false} DealOn(size: seq<nat>, totals: seq<nat>, n: nat, i: nat, j: nat, localSum: nat,
                                  shares: seq<Share>)
    requires i < |totals| && Dealing(size, totals, n, i, j, localSum, shares) && Sum(totals, i + 1) < (j + 1) * n
    ensures Dealing(size, totals, n, i + 1, j, localSum + size[i], shares)
  {
    assert Ends(totals, n, i + 1) == Ends(totals, n, i);
  }

  /** No processor past the last one is dealt a bucket. */
  lemma {:induction false} RoomForOne(totals: seq<nat>, n: nat, procs: nat, i: nat, j: nat)
    requires n > 0 && i < |totals| && Sum(totals, |totals|) == procs * n && Sum(totals, i + 1) >= (j + 1) * n
    ensures j < procs
  {
    SumMono(totals, i + 1, |totals|);
    Order(j + 1, procs, n);
  }

  lemma {:induction false} DealStart(size: seq<nat>, totals: seq<nat>, n: nat, shares: seq<Share>)
    requires |size| == |totals| && forall k :: 0 <= k < |shares| ==> shares[k] == Share(0, 0, 0, 0)
    ensures Dealing(size, totals, n, 0, 0, 0, shares) && Sum(totals, 0) == 0
  {
  }

  lemma {:induction false} SumNext(t: seq<nat>, i: nat)
    requires i < |t|
    ensures Sum(t, i + 1) == Sum(t, i) + t[i]
  {
  }

  lemma {:induction false} DealDone(size: seq<nat>, totals: seq<nat>, n: nat, j: nat, localSum: nat, shares: seq<Share>)
    requires Dealing(size, totals, n, |totals|, j, localSum, shares)
    ensures j == |Ends(totals, n, |totals|)| <= |shares|
    ensures RightShares(size, Ends(totals, n, |totals|), j, shares) && Untouched(j, shares)
  {
  }

  /** The loop that deals out the buckets, on one processor. */
  method Deal(size: seq<nat>, totals: seq<nat>, procs: nat, n: nat) returns (shares: seq<Share>)
    requires |size| == |totals| && procs > 0 && n > 0 && Sum(totals, |totals|) == procs * n
    ensures |shares| == procs && |Ends(totals, n, |totals|)| <= procs
    ensures RightShares(size, Ends(totals, n, |totals|), procs, shares)
  {
    hide *;
    shares := seq(procs, k => Share(0, 0, 0, 0));
    DealStart(size, totals, n, shares);
    var sum: nat, localSum: nat, j: nat := 0, 0, 0;
    for i := 0 to |totals|
      invariant |shares| == procs && sum == Sum(totals, i)
      invariant Dealing(size, totals, n, i, j, localSum, shares)
    {
      SumNext(totals, i);
      sum := sum + totals[i];
      if sum >= (j + 1) * n {
        RoomForOne(totals, n, procs, i, j);
        DealEnd(size, totals, n, i, j, localSum, shares);
        localSum := localSum + size[i];
        shares := shares[j := NewShare(shares, j, localSum, i)];
        j := j + 1;
        localSum := 0;
      } else {
        DealOn(size, totals, n, i, j, localSum, shares);
        localSum := localSum + size[i];
      }
    }
    DealDone(size, totals, n, j, localSum, shares);
    shares := DealRest(size, Ends(totals, n, |totals|), j, shares);
  }

  /** Processors past the last end are set to receive nothing. */
  method DealRest(ghost size: seq<nat>, ghost ends: seq<nat>, j0: nat, shares0: seq<Share>) returns (shares: seq<Share>)
    requires j0 == |ends| <= |shares0| && RightShares(size, ends, j0, shares0) && Untouched(j0, shares0)
    ensures |shares| == |shares0| && RightShares(size, ends, |shares|, shares)
  {
    shares := shares0;
    var j := j0;
    while j < |shares|
      invariant |ends| <= j <= |shares| == |shares0| && RightShares(size, ends, j, shares)
      invariant forall k :: j <= k < |shares| ==> shares[k].ptr2 == 0
    {
      shares := shares[j := shares[j].(count := 0, ptr1 := 1)];
      j := j + 1;
    }
  }
}

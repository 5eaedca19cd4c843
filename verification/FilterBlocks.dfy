/** The filter block of a table (table/filter_block.cc): one filter for every 2 KB of block
    offsets. A key that was added for a block is never denied at that block's offset. */
module FilterBlocks {
  import opened Keys
  import opened Coding
  import opened Comparators
  import opened Blooms

  const KFilterBase: nat := 2048
  const KFilterBaseLg: Byte := 11

  /** A Bloom filter policy that looks at user keys (InternalFilterPolicy). */
  datatype Policy = Policy(hash: Hash, bitsPerKey: nat, probes: nat) {
    predicate Valid() { 1 <= probes <= 30 }
  }

  ghost predicate AllInternal(keys: seq<Bytes>) { forall i :: 0 <= i < |keys| ==> IsInternal(keys[i]) }

  /** The filter denies none of the keys. */
  ghost predicate IsFilter(p: Policy, keys: seq<Bytes>, filter: Bytes) {
    forall i :: 0 <= i < |keys| ==> IsInternal(keys[i]) && Matches(p.hash, UserOf(keys[i]), filter)
  }

  /** More bytes than `n` keys take up in filters. */
  function Weight(p: Policy, n: nat): nat { n * (p.bitsPerKey + 80) }

  lemma {:induction false} WeightAdd(p: Policy, m: nat, n: nat)
    ensures Weight(p, m + n) == Weight(p, m) + Weight(p, n)
  {
    assert (m + n) * (p.bitsPerKey + 80) == m * (p.bitsPerKey + 80) + n * (p.bitsPerKey + 80);
  }

  lemma {:induction false} NoWeight(p: Policy)
    ensures Weight(p, 0) == 0
  {
  }

  lemma {:induction false} FilterWeight(p: Policy, n: nat)
    requires n >= 1
    ensures FilterBytes(n, p.bitsPerKey) + 1 <= Weight(p, n)
  {
    var bits := n * p.bitsPerKey;
    assert n * (p.bitsPerKey + 80) == bits + n * 80;
  }

  method Create(p: Policy, keys: seq<Bytes>) returns (filter: Bytes)
    requires p.Valid() && AllInternal(keys) && keys != []
    ensures IsFilter(p, keys, filter) && |filter| <= Weight(p, |keys|)
  {
    var users := [];
    for i := 0 to |keys|
      invariant |users| == i && forall j :: 0 <= j < i ==> users[j] == UserOf(keys[j])
    {
      users := users + [UserOf(keys[i])];
    }
    filter := CreateFilter(p.hash, users, p.bitsPerKey, p.probes);
    FilterWeight(p, |keys|);
    hide Weight;
    forall i | 0 <= i < |keys|
      ensures Matches(p.hash, UserOf(keys[i]), filter)
    {
      assert Matches(p.hash, users[i], filter);
    }
  }

  // ----- keys laid end to end -----

  /** Where item `i` ends: where the next one starts, or at the end of all. */
  function EndOf(starts: seq<nat>, size: nat, i: nat): nat
    requires i < |starts|
  {
    if i + 1 < |starts| then starts[i + 1] else size
  }

  /** `items[i]` lies in `flat` from `starts[i]` to its end. */
  ghost predicate Flat(flat: Bytes, starts: seq<nat>, items: seq<Bytes>) {
    && |starts| == |items|
    && forall i :: 0 <= i < |starts| ==>
         starts[i] <= EndOf(starts, |flat|, i) <= |flat| && flat[starts[i]..EndOf(starts, |flat|, i)] == items[i]
  }

  lemma {:induction false} FlatMore(flat: Bytes, starts: seq<nat>, items: seq<Bytes>, x: Bytes)
    requires Flat(flat, starts, items)
    ensures Flat(flat + x, starts + [|flat|], items + [x])
  {
    var flat', starts', items' := flat + x, starts + [|flat|], items + [x];
    forall i | 0 <= i < |starts'|
      ensures starts'[i] <= EndOf(starts', |flat'|, i) <= |flat'| &&
              flat'[starts'[i]..EndOf(starts', |flat'|, i)] == items'[i]
    {
      if i < |starts| {
        assert EndOf(starts', |flat'|, i) == EndOf(starts, |flat|, i);
        assert flat'[starts[i]..EndOf(starts, |flat|, i)] == flat[starts[i]..EndOf(starts, |flat|, i)];
      } else {
        assert flat'[|flat|..|flat'|] == x;
      }
    }
  }

  // ----- the builder -----

  /** A key and the offset of the block it was added for. */
  datatype Owned = Owned(key: Bytes, offset: nat)

  ghost predicate FiltersOk(p: Policy, filters: seq<Bytes>, groups: seq<seq<Bytes>>) {
    |filters| == |groups| && forall i :: 0 <= i < |groups| ==> IsFilter(p, groups[i], filters[i])
  }

  /** Every key is with the filter of its block: a finished one, or the one to come. */
  ghost predicate Filed(groups: seq<seq<Bytes>>, pending: seq<Bytes>, o: Owned) {
    var i := o.offset / KFilterBase;
    (i < |groups| && o.key in groups[i]) || (i == |groups| && o.key in pending)
  }

  ghost predicate AllFiled(groups: seq<seq<Bytes>>, pending: seq<Bytes>, added: seq<Owned>) {
    forall i :: 0 <= i < |added| ==> Filed(groups, pending, added[i])
  }

  lemma {:induction false} FiledNext(groups: seq<seq<Bytes>>, pending: seq<Bytes>, added: seq<Owned>)
    requires AllFiled(groups, pending, added)
    ensures AllFiled(groups + [pending], [], added)
  {
    forall i | 0 <= i < |added|
      ensures Filed(groups + [pending], [], added[i])
    {
      assert Filed(groups, pending, added[i]);
    }
  }

  lemma {:induction false} FiledMore(groups: seq<seq<Bytes>>, pending: seq<Bytes>, added: seq<Owned>, o: Owned)
    requires AllFiled(groups, pending, added) && o.offset / KFilterBase == |groups|
    ensures AllFiled(groups, pending + [o.key], added + [o])
  {
    var added' := added + [o];
    forall i | 0 <= i < |added'| ensures Filed(groups, pending + [o.key], added'[i]) {
      if i < |added| { assert Filed(groups, pending, added[i]); }
    }
  }

  lemma {:induction false} FiltersMore(p: Policy, filters: seq<Bytes>, groups: seq<seq<Bytes>>, f: Bytes, g: seq<Bytes>)
    requires FiltersOk(p, filters, groups) && IsFilter(p, g, f)
    ensures FiltersOk(p, filters + [f], groups + [g])
  {
  }

  class FilterBlockBuilder {
    const policy: Policy
    var keys: Bytes
    var start: seq<nat>
    var result: Bytes
    var offsets: seq<nat>
    /** The keys since the last filter, and the filters and their keys. */
    ghost var pending: seq<Bytes>
    ghost var filters: seq<Bytes>
    ghost var groups: seq<seq<Bytes>>
    ghost var added: seq<Owned>
    ghost var block: nat

    ghost predicate Ok()
      reads this
    {
      && policy.Valid() && AllInternal(pending) && Flat(keys, start, pending)
      && Flat(result, offsets, filters) && FiltersOk(policy, filters, groups)
      && AllFiled(groups, pending, added) && |result| + Weight(policy, |pending|) <= Weight(policy, |added|)
    }

    /** Ready for the keys of the block at `block`. */
    ghost predicate At()
      reads this
    {
      block / KFilterBase == |groups|
    }

    constructor (policy: Policy)
      requires policy.Valid()
      ensures Ok() && At() && this.policy == policy && added == [] && block == 0
    {
      this.policy := policy;
      keys, start, result, offsets := [], [], [], [];
      pending, filters, groups, added, block := [], [], [], [], 0;
    }

    method GenerateFilter()
      requires Ok()
      modifies this
      ensures Ok() && groups == old(groups) + [old(pending)] && pending == [] && added == old(added) &&
              block == old(block)
    {
      hide *;
      OkParts(this);
      FiledNext(groups, pending, added);
      var filter: Bytes := [];
      if |start| == 0 {
        offsets := offsets + [|result|];
        EmptyFilter(policy, pending, filter);
        NoWeight(policy);
      } else {
        var tmp := Unflatten(keys, start, pending);
        offsets := offsets + [|result|];
        filter := Create(policy, tmp);
      }
      FlatMore(result, old(offsets), filters, filter);
      FiltersMore(policy, filters, groups, filter, pending);
      result := result + filter;
      keys, start := [], [];
      filters, groups, pending := filters + [filter], groups + [pending], [];
      NoKeys();
      NoWeight(policy);
      OkWhole(this);
    }

    method StartBlock(offset: nat)
      requires Ok() && offset / KFilterBase >= |groups|
      modifies this
      ensures Ok() && At() && added == old(added) && block == offset
    {
      hide *;
      OkParts(this);
      var index := offset / 2048;
      BaseIs();
      while index > |offsets|
        invariant Ok() && |offsets| == |groups| && index >= |groups| && added == old(added)
        decreases index - |offsets|
      {
        GenerateFilter();
        OkParts(this);
      }
      OkParts(this);
      block := offset;
      AtWhole(this);
      OkWhole(this);
    }

    method AddKey(key: Bytes)
      requires Ok() && At() && IsInternal(key)
      modifies this
      ensures Ok() && At() && added == old(added) + [Owned(key, block)] && block == old(block)
    {
      hide *;
      OkParts(this);
      AtParts(this);
      FlatMore(keys, start, pending, key);
      FiledMore(groups, pending, added, Owned(key, block));
      InternalMore(pending, key);
      WeightAdd(policy, |pending|, 1);
      WeightAdd(policy, |added|, 1);
      start := start + [|keys|];
      keys := keys + key;
      pending, added := pending + [key], added + [Owned(key, block)];
      OkWhole(this);
      AtWhole(this);
    }

    method Finish() returns (contents: Bytes)
      requires Ok()
      modifies this
      ensures Ok() && added == old(added) && contents == Contents(result, offsets) &&
              |result| <= Weight(policy, |added|)
      ensures forall i :: 0 <= i < |added| ==> InGroup(groups, added[i])
    {
      hide *;
      OkParts(this);
      if |start| != 0 {
        GenerateFilter();
        OkParts(this);
      }
      AllGrouped(groups, pending, added);
      contents := Tail(result, offsets);
    }
  }

  /** Offsets as 32-bit numbers. */
  function Cut(v: seq<nat>): (r: seq<nat>)
    ensures |r| == |v| && forall k :: 0 <= k < |r| ==> r[k] < TWO_32
  {
    seq(|v|, k requires 0 <= k < |v| => v[k] % TWO_32)
  }

  /** The filters, where each starts and the last ends, and the spacing. */
  function Contents(result: Bytes, offsets: seq<nat>): Bytes {
    result + FixedAll(Cut(offsets + [|result|])) + [KFilterBaseLg]
  }

  /** The last part of Finish. */
  method Tail(result: Bytes, offsets: seq<nat>) returns (contents: Bytes)
    ensures contents == Contents(result, offsets)
  {
    hide EncodeFixed32;
    contents := result;
    for i := 0 to |offsets|
      invariant contents == result + FixedAll(Cut(offsets[..i]))
    {
      FixedAllMore(offsets, i);
      contents := contents + EncodeFixed32(offsets[i] % TWO_32);
    }
    var all := offsets + [|result|];
    assert offsets[..|offsets|] == offsets == all[..|offsets|];
    FixedAllMore(all, |offsets|);
    assert all[..|all|] == all;
    contents := contents + EncodeFixed32(|result| % TWO_32);
    contents := contents + [KFilterBaseLg];
  }

  lemma {:induction false} FixedAllMore(v: seq<nat>, i: nat)
    requires i < |v|
    ensures FixedAll(Cut(v[..i + 1])) == FixedAll(Cut(v[..i])) + EncodeFixed32(v[i] % TWO_32)
  {
    assert Cut(v[..i + 1])[..i] == Cut(v[..i]);
  }

  // ----- folding and unfolding -----

  lemma {:induction false} OkParts(b: FilterBlockBuilder)
    requires b.Ok()
    ensures b.policy.Valid() && AllInternal(b.pending) && Flat(b.keys, b.start, b.pending)
    ensures Flat(b.result, b.offsets, b.filters) && FiltersOk(b.policy, b.filters, b.groups) &&
            AllFiled(b.groups, b.pending, b.added)
    ensures |b.offsets| == |b.groups| && |b.start| == |b.pending| &&
            |b.result| + Weight(b.policy, |b.pending|) <= Weight(b.policy, |b.added|)
  {
  }

  lemma {:induction false} OkWhole(b: FilterBlockBuilder)
    requires b.policy.Valid() && AllInternal(b.pending) && Flat(b.keys, b.start, b.pending)
    requires Flat(b.result, b.offsets, b.filters) && FiltersOk(b.policy, b.filters, b.groups) &&
             AllFiled(b.groups, b.pending, b.added)
    requires |b.result| + Weight(b.policy, |b.pending|) <= Weight(b.policy, |b.added|)
    ensures b.Ok()
  {
  }

  lemma {:induction false} AtParts(b: FilterBlockBuilder)
    requires b.At()
    ensures b.block / KFilterBase == |b.groups|
  {
  }

  lemma {:induction false} AtWhole(b: FilterBlockBuilder)
    requires b.block / KFilterBase == |b.groups|
    ensures b.At()
  {
  }

  lemma {:induction false} BaseIs()
    ensures KFilterBase == 2048
  {
  }

  lemma {:induction false} InternalMore(keys: seq<Bytes>, key: Bytes)
    requires AllInternal(keys) && IsInternal(key)
    ensures AllInternal(keys + [key])
  {
  }

  lemma {:induction false} EmptyFilter(p: Policy, keys: seq<Bytes>, filter: Bytes)
    requires keys == []
    ensures IsFilter(p, keys, filter)
  {
  }

  lemma {:induction false} NoKeys()
    ensures Flat([], [], []) && AllInternal([])
  {
  }

  /** The list of keys from their flattened form. */
  method Unflatten(keys: Bytes, start: seq<nat>, ghost items: seq<Bytes>) returns (tmp: seq<Bytes>)
    requires Flat(keys, start, items)
    ensures tmp == items
  {
    var bounds := start + [|keys|];
    tmp := [];
    for i := 0 to |start|
      invariant tmp == items[..i]
    {
      assert bounds[i + 1] == EndOf(start, |keys|, i);
      tmp := tmp + [keys[bounds[i]..bounds[i + 1]]];
    }
  }

  ghost predicate InGroup(groups: seq<seq<Bytes>>, o: Owned) {
    o.offset / KFilterBase < |groups| && o.key in groups[o.offset / KFilterBase]
  }

  lemma {:induction false} AllGrouped(groups: seq<seq<Bytes>>, pending: seq<Bytes>, added: seq<Owned>)
    requires AllFiled(groups, pending, added) && pending == []
    ensures forall i :: 0 <= i < |added| ==> InGroup(groups, added[i])
  {
    forall i | 0 <= i < |added| ensures InGroup(groups, added[i]) { assert Filed(groups, pending, added[i]); }
  }

  // ----- the reader -----

  /** blockOffset >> base */
  function Shifted(blockOffset: nat, base: nat): nat { if base == 0 then blockOffset else Shifted(blockOffset / 2,
                   base - 1) }

  /** Filter `index`, which lies before `lastWord`. */
  predicate MatchAt(p: Policy, contents: Bytes, lastWord: nat, index: nat, user: Bytes)
    requires lastWord + 4 * index + 8 <= |contents|
  {
    var start, limit := DecodeFixed32(contents[lastWord + 4 * index..]),
        DecodeFixed32(contents[lastWord + 4 * index + 4..]);
    if start <= limit <= lastWord then Matches(p.hash, user, contents[start..limit]) else start != limit
  }

  /** FilterBlockReader::KeyMayMatch: errors count as possible matches. */
  predicate MayMatch(p: Policy, contents: Bytes, blockOffset: nat, key: Bytes)
    requires IsInternal(key)
  {
    var n := |contents|;
    if n < 5 then true
    else
      var lastWord := DecodeFixed32(contents[n - 5..]);
      if lastWord > n - 5 then true
      else
        var num, index := (n - 5 - lastWord) / 4, Shifted(blockOffset, contents[n - 1]);
        index < num ==> MatchAt(p, contents, lastWord, index, UserOf(key))
  }

  lemma {:induction false} ShiftedEleven(x: nat)
    ensures Shifted(x, 11) == x / 2048
  {
    ShiftedFive(x);
    ShiftedFive(x / 32);
    ShiftedAgain(x, 5, 5);
    ShiftedAgain(x, 10, 1);
    assert x / 32 / 32 / 2 == x / 2048;
  }

  lemma {:induction false} ShiftedFive(x: nat)
    ensures Shifted(x, 5) == x / 32
  {
    assert Shifted(x, 5) == Shifted(x / 2, 4) == Shifted(x / 4, 3) == Shifted(x / 8, 2) == Shifted(x / 16, 1);
  }

  lemma {:induction false} ShiftedAgain(x: nat, a: nat, b: nat)
    ensures Shifted(x, a + b) == Shifted(Shifted(x, a), b)
  {
    if a > 0 {
      ShiftedAgain(x / 2, a - 1, b);
      assert a - 1 + b == a + b - 1;
    }
  }

  lemma {:induction false} WordAt(result: Bytes, offsets: seq<nat>, k: nat)
    requires k <= |offsets|
    ensures var c := Contents(result, offsets);
            |c| == |result| + 4 * |offsets| + 5 &&
            DecodeFixed32(c[|result| + 4 * k..]) == (offsets + [|result|])[k] % TWO_32
  {
    hide FixedAll, DecodeFixed32;
    var v := Cut(offsets + [|result|]);
    FixedAllSize(v);
    assert Contents(result, offsets) == result + (FixedAll(v) + [KFilterBaseLg]);
    FixedAllAt(v, k, [KFilterBaseLg]);
    Deep(result, FixedAll(v) + [KFilterBaseLg], 4 * k);
  }

  /** Where the reader finds things in a filter block. */
  lemma {:induction false} ContentsParts(result: Bytes, offsets: seq<nat>, index: nat)
    requires |result| < TWO_32 && index < |offsets| && forall i :: 0 <= i < |offsets| ==> offsets[i] <= |result|
    ensures var c, n := Contents(result, offsets), |Contents(result, offsets)|;
            && n == |result| + 4 * |offsets| + 5 && c[n - 1] == KFilterBaseLg && DecodeFixed32(c[n - 5..]) == |result|
            && DecodeFixed32(c[|result| + 4 * index..]) == offsets[index]
            && DecodeFixed32(c[|result| + 4 * index + 4..]) == EndOf(offsets, |result|, index)
            && c[..|result|] == result
  {
    hide *;
    Ends(result, offsets);
    WordIs(result, offsets, index);
    WordIs(result, offsets, index + 1);
    WordIs(result, offsets, |offsets|);
    EndIs(offsets, |result|, index);
  }

  lemma {:induction false} WordIs(result: Bytes, offsets: seq<nat>, k: nat)
    requires |result| < TWO_32 && k <= |offsets| && forall i :: 0 <= i < |offsets| ==> offsets[i] <= |result|
    ensures var c := Contents(result, offsets);
            |c| == |result| + 4 * |offsets| + 5 &&
            DecodeFixed32(c[|result| + 4 * k..]) == if k < |offsets| then offsets[k] else |result|
  {
    hide Contents, DecodeFixed32;
    WordAt(result, offsets, k);
  }

  lemma {:induction false} EndIs(starts: seq<nat>, size: nat, i: nat)
    requires i < |starts|
    ensures EndOf(starts, size, i) == if i + 1 < |starts| then starts[i + 1] else size
  {
  }

  lemma {:induction false} Ends(result: Bytes, offsets: seq<nat>)
    ensures var c := Contents(result, offsets); |c| > |result| && c[..|result|] == result && c[|c| - 1] == KFilterBaseLg
  {
    hide FixedAll, Cut;
  }

  lemma {:induction false} Deep(a: Bytes, b: Bytes, i: nat)
    requires i <= |b|
    ensures (a + b)[|a| + i..] == b[i..]
  {
  }

  lemma {:induction false} FlatAt(flat: Bytes, starts: seq<nat>, items: seq<Bytes>, i: nat)
    requires Flat(flat, starts, items) && i < |items|
    ensures |starts| == |items| && starts[i] <= EndOf(starts, |flat|, i) <= |flat| &&
            flat[starts[i]..EndOf(starts, |flat|, i)] == items[i]
    ensures forall j :: 0 <= j < |starts| ==> starts[j] <= |flat|
  {
  }

  lemma {:induction false} MayMatchIs(p: Policy, c: Bytes, blockOffset: nat, key: Bytes, lastWord: nat, index: nat,
                                      start: nat, limit: nat)
    requires IsInternal(key) && |c| >= 5 && c[|c| - 1] == KFilterBaseLg && DecodeFixed32(c[|c| - 5..]) == lastWord
    requires lastWord + 4 * index + 4 <= |c| - 5 && blockOffset / KFilterBase == index
    requires DecodeFixed32(c[lastWord + 4 * index..]) == start && DecodeFixed32(c[lastWord + 4 * index + 4..]) == limit
    requires start <= limit <= lastWord && Matches(p.hash, UserOf(key), c[start..limit])
    ensures MayMatch(p, c, blockOffset, key)
  {
    hide Matches, DecodeFixed32, Shifted;
    ShiftedEleven(blockOffset);
  }

  /** A key that was added for the block at its offset may match there. */
  lemma {:induction false} NeverDenied(p: Policy, result: Bytes, offsets: seq<nat>, filters: seq<Bytes>,
                                       groups: seq<seq<Bytes>>, o: Owned, key: Bytes)
    requires |result| < TWO_32 && Flat(result, offsets, filters) && FiltersOk(p, filters, groups) && InGroup(groups, o)
    requires IsInternal(key) && IsInternal(o.key) && UserOf(key) == UserOf(o.key)
    ensures MayMatch(p, Contents(result, offsets), o.offset, key)
  {
    hide *;
    var i := GroupIndex(groups, o);
    GroupMatches(p, filters, groups, i, o.key, key);
    FlatAt(result, offsets, filters, i);
    ContentsParts(result, offsets, i);
    var c := Contents(result, offsets);
    Inside(c, |result|, offsets[i], EndOf(offsets, |result|, i));
    MayMatchIs(p, c, o.offset, key, |result|, i, offsets[i], EndOf(offsets, |result|, i));
  }

  lemma {:induction false} Inside(c: Bytes, n: nat, a: nat, b: nat)
    requires a <= b <= n <= |c|
    ensures c[a..b] == c[..n][a..b]
  {
  }

  lemma {:induction false} GroupIndex(groups: seq<seq<Bytes>>, o: Owned) returns (i: nat)
    requires InGroup(groups, o)
    ensures i == o.offset / KFilterBase && i < |groups| && o.key in groups[i]
  {
    i := o.offset / KFilterBase;
  }

  lemma {:induction false} GroupMatches(p: Policy, filters: seq<Bytes>, groups: seq<seq<Bytes>>, i: nat, own: Bytes,
                                        key: Bytes)
    requires FiltersOk(p, filters, groups) && i < |groups| && own in groups[i] && IsInternal(key) && IsInternal(own) &&
             UserOf(key) == UserOf(own)
    ensures |filters| == |groups| && Matches(p.hash, UserOf(key), filters[i])
  {
    hide Matches;
    assert IsFilter(p, groups[i], filters[i]);
    var j :| 0 <= j < |groups[i]| && groups[i][j] == own;
    assert Matches(p.hash, UserOf(groups[i][j]), filters[i]);
  }
}

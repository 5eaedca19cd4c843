/** Lookup in a table file (table/table.cc, InternalGet): the index, the filter and one data
    block give the answer that a scan of the whole table gives. */
module Tables {
  import opened Keys
  import opened Coding
  import opened Comparators
  import opened Blocks
  import opened BlockIterators
  import opened FilterBlocks

  // ----- blocks in a file -----

  /** BlockHandle. */
  datatype Handle = Handle(offset: U64, size: U64)

  function HandleBytes(h: Handle): Bytes { Varint(h.offset) + Varint(h.size) }

  function DecodeHandle(s: Bytes): Parsed<Handle> {
    var o := GetVarint64(s);
    if o.Bad? then Bad
    else
      var z := GetVarint64(o.rest);
      if z.Bad? then Bad else Good(Handle(o.value, z.value), z.rest)
  }

  lemma {:induction false} HandleRoundTrip(h: Handle)
    ensures DecodeHandle(HandleBytes(h)) == Good(h, [])
  {
    hide Varint, GetVarint64;
    Varint64RoundTrip(h.offset, Varint(h.size));
    Varint64RoundTrip(h.size, []);
    assert Varint(h.size) + [] == Varint(h.size);
  }

  const KBlockTrailerSize: nat := 5

  /** ReadBlock without checksums: the contents, if the file is long enough and they are
      not compressed. */
  function ReadBlock(file: Bytes, h: Handle): Parsed<Bytes> {
    if h.offset + h.size + KBlockTrailerSize > |file| || file[h.offset + h.size] != 0 then Bad
    else Good(file[h.offset..h.offset + h.size], [])
  }

  /** A data block: where it lies, its entries and its restart points. */
  datatype Placed = Placed(offset: nat, es: seq<KV>, starts: seq<nat>)

  ghost predicate BlockOk(b: Placed) {
    b.es != [] && Fits(b.es, b.starts) && EntriesFit(b.es)
  }

  ghost predicate LiesAt(file: Bytes, b: Placed)
    requires BlockOk(b)
  {
    var bytes := BlockBytes(b.es, b.starts);
    && b.offset + |bytes| + KBlockTrailerSize <= |file| < TWO_64
    && file[b.offset..b.offset + |bytes|] == bytes && file[b.offset + |bytes|] == 0
  }

  function HandleOf(b: Placed): Handle
    requires BlockOk(b) && b.offset < TWO_64 && |BlockBytes(b.es, b.starts)| < TWO_64
  {
    Handle(b.offset, |BlockBytes(b.es, b.starts)|)
  }

  // ----- entries -----

  function All(blocks: seq<Placed>): seq<KV> {
    if blocks == [] then [] else All(blocks[..|blocks| - 1]) + blocks[|blocks| - 1].es
  }

  lemma {:induction false} AllSplit(blocks: seq<Placed>, i: nat)
    requires i <= |blocks|
    ensures All(blocks) == All(blocks[..i]) + All(blocks[i..])
    decreases |blocks|
  {
    hide All;
    if i == |blocks| {
      assert blocks[..i] == blocks && blocks[i..] == [];
      AllNothing();
    } else {
      var init, b := blocks[..|blocks| - 1], blocks[|blocks| - 1];
      AllSplit(init, i);
      assert blocks == init + [b] && init[..i] == blocks[..i] && blocks[i..] == init[i..] + [b];
      AllSnoc(init, b);
      AllSnoc(init[i..], b);
      Reassociate(All(init[..i]), All(init[i..]), b.es);
    }
  }

  lemma {:induction false} AllNothing()
    ensures All([]) == []
  {
  }

  lemma {:induction false} Reassociate(a: seq<KV>, b: seq<KV>, c: seq<KV>)
    ensures (a + b) + c == a + (b + c)
  {
  }

  lemma {:induction false} AllFirst(blocks: seq<Placed>)
    requires blocks != []
    ensures All(blocks) == blocks[0].es + All(blocks[1..])
  {
    hide All;
    AllSplit(blocks, 1);
    assert blocks[..1] == [blocks[0]];
    AllOne(blocks[0]);
  }

  lemma {:induction false} AllOne(b: Placed)
    ensures All([b]) == b.es
  {
    assert [b][..0] == [];
  }

  lemma {:induction false} AllSnoc(blocks: seq<Placed>, b: Placed)
    ensures All(blocks + [b]) == All(blocks) + b.es
  {
    assert (blocks + [b])[..|blocks|] == blocks;
  }

  /** The first entry from `k` on, in a list of two parts. */
  lemma {:induction false} FirstFromParts(a: seq<KV>, b: seq<KV>, k: Bytes)
    ensures var n := FirstFrom(InternalOrder, a, k);
            FirstFrom(InternalOrder, a + b, k) == if n < |a| then n else |a| + FirstFrom(InternalOrder, b, k)
  {
    if a == [] {
      assert a + b == b;
    } else {
      assert (a + b)[1..] == a[1..] + b;
      FirstFromParts(a[1..], b, k);
    }
  }

  function LastOf(es: seq<KV>): Bytes
    requires es != []
  {
    es[|es| - 1].key
  }

  // ----- the index -----

  ghost predicate AllKeysInternal(es: seq<KV>) { forall i :: 0 <= i < |es| ==> IsInternal(es[i].key) }

  /** Index key `i` separates block `i` from the next, or follows the last. */
  ghost predicate SepOk(blocks: seq<Placed>, seps: seq<Bytes>, i: nat)
    requires |blocks| == |seps| && i < |blocks| && blocks[i].es != []
  {
    && IsInternal(seps[i]) && InternalOrder(LastOf(blocks[i].es)) <= InternalOrder(seps[i])
    && (i + 1 < |blocks| ==>
          blocks[i + 1].es != [] && Separates(LastOf(blocks[i].es), seps[i], blocks[i + 1].es[0].key))
  }

  ghost predicate BlocksOk(blocks: seq<Placed>) { forall i :: 0 <= i < |blocks| ==> BlockOk(blocks[i]) }

  ghost predicate SepsOk(blocks: seq<Placed>, seps: seq<Bytes>) {
    && |seps| == |blocks| && BlocksOk(blocks)
    && forall i :: 0 <= i < |blocks| ==> SepOk(blocks, seps, i)
  }

  ghost predicate FileOk(file: Bytes, blocks: seq<Placed>) {
    BlocksOk(blocks) && forall i :: 0 <= i < |blocks| ==> LiesAt(file, blocks[i])
  }

  ghost predicate IndexIs(es: seq<KV>, blocks: seq<Placed>, seps: seq<Bytes>, file: Bytes)
    requires FileOk(file, blocks)
  {
    && |es| == |blocks| == |seps|
    && forall i :: 0 <= i < |es| ==> LiesAt(file, blocks[i]) && es[i] == KV(seps[i], HandleBytes(HandleOf(blocks[i])))
  }

  /** All entries of the first blocks come before `k` if their last index key does. */
  lemma {:induction false} AllBeforeKey(blocks: seq<Placed>, seps: seq<Bytes>, n: nat, k: Bytes)
    requires SepsOk(blocks, seps) && Increasing(InternalOrder, All(blocks)) && n <= |blocks|
    requires n > 0 ==> InternalOrder(seps[n - 1]) < InternalOrder(k)
    ensures FirstFrom(InternalOrder, All(blocks[..n]), k) == |All(blocks[..n])|
  {
    hide FirstFrom, InternalOrder, All;
    AllSplit(blocks, n);
    var es, all := All(blocks[..n]), All(blocks);
    if n > 0 {
      var init := blocks[..n - 1];
      assert blocks[..n] == init + [blocks[n - 1]];
      AllSnoc(init, blocks[n - 1]);
      assert SepOk(blocks, seps, n - 1) && BlockOk(blocks[n - 1]);
      assert es[|es| - 1] == blocks[n - 1].es[|blocks[n - 1].es| - 1];
      AllLess(all, |es|, k);
      assert all[..|es|] == es;
    } else {
      AllNone(k);
      assert blocks[..n] == [];
    }
  }

  lemma {:induction false} AllNone(k: Bytes)
    ensures All([]) == [] && FirstFrom(InternalOrder, [], k) == 0
  {
  }

  /** If one entry comes before `k`, so do those in front of it. */
  lemma {:induction false} AllLess(all: seq<KV>, n: nat, k: Bytes)
    requires Increasing(InternalOrder, all) && 0 < n <= |all| && InternalOrder(all[n - 1].key) < InternalOrder(k)
    ensures FirstFrom(InternalOrder, all[..n], k) == n
  {
    hide InternalOrder, FirstFrom;
    forall i | 0 <= i < n ensures InternalOrder(all[i].key) < InternalOrder(k) {
      assert i < n - 1 ==> InternalOrder(all[i].key) < InternalOrder(all[n - 1].key);
    }
  }

  /** With block `i` the first whose index key is not before `k`, the first entry from `k`
      on is the first of block `i`, or else the first of the next block, which has another
      user key. */
  lemma {:induction false} BlockDecides(blocks: seq<Placed>, seps: seq<Bytes>, i: nat, k: Bytes)
    requires SepsOk(blocks, seps) && Increasing(InternalOrder, All(blocks)) && AllKeysInternal(All(blocks)) &&
             IsInternal(k) && i < |blocks|
    requires i > 0 ==> InternalOrder(seps[i - 1]) < InternalOrder(k)
    requires InternalOrder(seps[i]) >= InternalOrder(k)
    ensures var all, c, n := All(blocks), FirstFrom(InternalOrder, All(blocks), k),
            FirstFrom(InternalOrder, blocks[i].es, k);
            && (n < |blocks[i].es| ==> c < |all| && all[c] == blocks[i].es[n])
            && (n == |blocks[i].es| && c < |all| ==> UserOf(all[c].key) != UserOf(k))
  {
    hide *;
    SepsSizes(blocks, seps);
    AllBeforeKey(blocks, seps, i, k);
    AllAround(blocks, i);
    FirstInMiddle(All(blocks[..i]), blocks[i].es, All(blocks[i + 1..]), k);
    if i + 1 == |blocks| {
      assert blocks[i + 1..] == [];
      AllNone(k);
    } else if FirstFrom(InternalOrder, blocks[i].es, k) == |blocks[i].es| {
      NextBlockStarts(blocks, i + 1);
      PastBlock(blocks, seps, i, k);
    }
  }

  lemma {:induction false} AllAround(blocks: seq<Placed>, i: nat)
    requires i < |blocks|
    ensures All(blocks) == All(blocks[..i]) + (blocks[i].es + All(blocks[i + 1..]))
  {
    hide All;
    AllSplit(blocks, i);
    AllFirst(blocks[i..]);
    assert blocks[i..][1..] == blocks[i + 1..] && blocks[i..][0] == blocks[i];
  }

  /** The first entry from `k` on, when nothing of the first part is one. */
  lemma {:induction false} FirstInMiddle(a: seq<KV>, b: seq<KV>, rest: seq<KV>, k: Bytes)
    requires FirstFrom(InternalOrder, a, k) == |a|
    ensures var all, n := a + (b + rest), FirstFrom(InternalOrder, b, k);
            var c := FirstFrom(InternalOrder, all, k);
            && n <= |b| && (n < |b| ==> c < |all| && all[c] == b[n])
            && (n == |b| && FirstFrom(InternalOrder, rest, k) == 0 ==>
                  if rest == [] then c == |all| else c < |all| && all[c] == rest[0])
  {
    hide FirstFrom, InternalOrder;
    FirstFromParts(a, b + rest, k);
    FirstFromParts(b, rest, k);
  }

  lemma {:induction false} SepsSizes(blocks: seq<Placed>, seps: seq<Bytes>)
    requires SepsOk(blocks, seps)
    ensures |seps| == |blocks| && BlocksOk(blocks) && forall i :: 0 <= i < |blocks| ==> blocks[i].es != []
  {
    forall i | 0 <= i < |blocks| ensures blocks[i].es != [] { assert BlockOk(blocks[i]); }
  }

  lemma {:induction false} NextBlockStarts(blocks: seq<Placed>, i: nat)
    requires i < |blocks| && BlocksOk(blocks)
    ensures All(blocks[i..]) != [] && All(blocks[i..])[0] == blocks[i].es[0]
  {
    assert BlockOk(blocks[i]);
    AllFirst(blocks[i..]);
    assert blocks[i..][0] == blocks[i];
  }

  /** Past the entries of a block but not past its index key. */
  lemma {:induction false} PastBlock(blocks: seq<Placed>, seps: seq<Bytes>, i: nat, k: Bytes)
    requires SepsOk(blocks, seps) && IsInternal(k) && i + 1 < |blocks| && blocks[i].es != [] && blocks[i + 1].es != []
    requires FirstFrom(InternalOrder, blocks[i].es, k) == |blocks[i].es| && InternalOrder(seps[i]) >= InternalOrder(k)
    ensures IsInternal(blocks[i + 1].es[0].key) && UserOf(blocks[i + 1].es[0].key) != UserOf(k)
    ensures InternalOrder(blocks[i + 1].es[0].key) >= InternalOrder(k)
    ensures FirstFrom(InternalOrder, All(blocks[i + 1..]), k) == 0
  {
    assert SepOk(blocks, seps, i);
    var last, sep, next := LastOf(blocks[i].es), seps[i], blocks[i + 1].es[0].key;
    assert InternalOrder(last) < InternalOrder(k);
    NextBlockStarts(blocks, i + 1);
    hide FirstFrom, InternalOrder;
    assert sep != last;
    UserDecides(k, sep);
    FirstIsIt(All(blocks[i + 1..]), k);
  }

  lemma {:induction false} FirstIsIt(es: seq<KV>, k: Bytes)
    requires es != [] && InternalOrder(es[0].key) >= InternalOrder(k)
    ensures FirstFrom(InternalOrder, es, k) == 0
  {
  }

  // ----- InternalGet -----

  datatype Saved = Nothing | Something(kv: KV)

  /** Opens a block, seeks in it and reads the entry there. */
  method SeekBlock(block: Bytes, k: Bytes, ghost es: seq<KV>, ghost starts: seq<nat>) returns (r: Saved)
    ensures Fits(es, starts) && EntriesFit(es) && block == BlockBytes(es, starts) && Increasing(InternalOrder, es) ==>
              var c := FirstFrom(InternalOrder, es, k); r == if c < |es| then Something(es[c]) else Nothing
  {
    hide *;
    ghost var good := Fits(es, starts) && EntriesFit(es) && block == BlockBytes(es, starts) &&
              Increasing(InternalOrder, es);
    if good { OpenRoundTrip(es, starts); }
    OpenIsSafe(block);
    var o := Open(block);
    if !o.Opened? {
      return Nothing;
    }
    var it := new Iter(o.b, InternalOrder, es, starts);
    it.Seek(k);
    IterSafe(it);
    if good {
      SeekBound(es, k);
      Showing(it.b, es, starts, it.State(), FirstFrom(InternalOrder, es, k));
    }
    if it.current < it.b.restarts && it.vOff + it.vLen <= |it.b.data| {
      r := Something(KV(it.key, it.b.data[it.vOff..it.vOff + it.vLen]));
    } else {
      r := Nothing;
    }
  }

  lemma {:induction false} SeekBound(es: seq<KV>, k: Bytes)
    ensures FirstFrom(InternalOrder, es, k) <= |es|
  {
  }

  lemma {:induction false} OpenIsSafe(block: Bytes)
    ensures Open(block).Opened? ==> Safe(Open(block).b)
  {
  }

  lemma {:induction false} IterSafe(it: Iter)
    requires it.Ok()
    ensures Safe(it.b)
  {
  }

  /** An opened table: the file, its index block, and its filter block if it has one. */
  datatype Table = Table(file: Bytes, index: Bytes, policy: Policy, hasFilter: bool, filter: Bytes)

  /** What the table was built from. */
  datatype Origin = Origin(blocks: seq<Placed>, seps: seq<Bytes>, index: seq<KV>, indexStarts: seq<nat>)

  /** The filter lets every user key of a block pass at the block's offset. */
  ghost predicate FilterOk(t: Table, blocks: seq<Placed>) {
    t.hasFilter ==>
      forall i, j, k :: 0 <= i < |blocks| && 0 <= j < |blocks[i].es| && Alike(k, blocks[i].es[j].key) ==>
        MayMatch(t.policy, t.filter, blocks[i].offset, k)
  }

  /** Internal keys with the same user key. */
  predicate Alike(a: Bytes, b: Bytes) { IsInternal(a) && IsInternal(b) && UserOf(a) == UserOf(b) }

  ghost predicate TableOk(t: Table, o: Origin) {
    && FileOk(t.file, o.blocks) && SepsOk(o.blocks, o.seps) && IndexIs(o.index, o.blocks, o.seps, t.file)
    && Fits(o.index, o.indexStarts) && EntriesFit(o.index) && t.index == BlockBytes(o.index, o.indexStarts)
    && Increasing(InternalOrder, All(o.blocks)) && AllKeysInternal(All(o.blocks))
    && FilterOk(t, o.blocks)
  }

  /** The keys of the index ascend. */
  lemma {:induction false} IndexAscends(blocks: seq<Placed>, seps: seq<Bytes>, i: nat, j: nat)
    requires SepsOk(blocks, seps) && Increasing(InternalOrder, All(blocks)) && i < j < |blocks|
    ensures InternalOrder(seps[i]) < InternalOrder(seps[j])
    decreases j
  {
    hide InternalOrder, All;
    assert SepOk(blocks, seps, j - 1) && SepOk(blocks, seps, j) && BlockOk(blocks[j]);
    BlockAscends(blocks, j);
    if i < j - 1 { IndexAscends(blocks, seps, i, j - 1); }
  }

  lemma {:induction false} BlockAscends(blocks: seq<Placed>, i: nat)
    requires BlocksOk(blocks) && Increasing(InternalOrder, All(blocks)) && i < |blocks|
    ensures blocks[i].es != [] && Increasing(InternalOrder, blocks[i].es) &&
            InternalOrder(blocks[i].es[0].key) <= InternalOrder(LastOf(blocks[i].es))
    ensures forall j :: 0 <= j < |blocks[i].es| ==> blocks[i].es[j] in All(blocks)
  {
    hide InternalOrder, All;
    assert BlockOk(blocks[i]);
    AllSplit(blocks, i);
    AllFirst(blocks[i..]);
    assert blocks[i..][0] == blocks[i];
    var all, a, es := All(blocks), All(blocks[..i]), blocks[i].es;
    assert forall j :: 0 <= j < |es| ==> all[|a| + j] == es[j];
  }

  lemma {:induction false} IndexIncreasing(o: Origin, file: Bytes)
    requires FileOk(file, o.blocks) && SepsOk(o.blocks, o.seps) && IndexIs(o.index, o.blocks, o.seps, file) &&
             Increasing(InternalOrder, All(o.blocks))
    ensures Increasing(InternalOrder, o.index)
  {
    hide InternalOrder, All, HandleBytes, LiesAt;
    forall i, j | 0 <= i < j < |o.index| ensures InternalOrder(o.index[i].key) < InternalOrder(o.index[j].key) {
      IndexAscends(o.blocks, o.seps, i, j);
    }
  }

  /** The index entry that a seek for `k` finds belongs to the block that decides. */
  lemma {:induction false} IndexFinds(t: Table, o: Origin, k: Bytes)
    requires TableOk(t, o)
    ensures var i := FirstFrom(InternalOrder, o.index, k);
            && |o.blocks| == |o.seps| == |o.index|
            && (i < |o.index| ==>
                  && BlockOk(o.blocks[i]) && LiesAt(t.file, o.blocks[i])
                  && o.index[i] == KV(o.seps[i], HandleBytes(HandleOf(o.blocks[i])))
                  && InternalOrder(o.seps[i]) >= InternalOrder(k) &&
                     (i > 0 ==> InternalOrder(o.seps[i - 1]) < InternalOrder(k)))
            && (i == |o.index| ==> o.index == [] || InternalOrder(o.seps[|o.seps| - 1]) < InternalOrder(k))
  {
    hide InternalOrder, FirstFrom, All, HandleBytes, SepsOk, FilterOk, LiesAt;
  }

  /** What a scan of the whole table finds for `k`. */
  ghost function Scan(o: Origin, k: Bytes): Saved {
    var all := All(o.blocks);
    var c := FirstFrom(InternalOrder, all, k);
    if c < |all| then Something(all[c]) else Nothing
  }

  /** An entry for the user key that was asked for. */
  predicate IsHit(r: Saved, k: Bytes) { r.Something? && Alike(r.kv.key, k) }

  lemma {:induction false} GoodIndex(t: Table, o: Origin)
    requires TableOk(t, o)
    ensures Fits(o.index, o.indexStarts) && EntriesFit(o.index) && t.index == BlockBytes(o.index, o.indexStarts) &&
            Increasing(InternalOrder, o.index)
  {
    hide InternalOrder, All, BlockBytes, Increasing, SepsOk;
    IndexIncreasing(o, t.file);
  }

  lemma {:induction false} NoBlock(t: Table, o: Origin, k: Bytes)
    requires TableOk(t, o) && FirstFrom(InternalOrder, o.index, k) == |o.index|
    ensures Scan(o, k).Nothing?
  {
    hide InternalOrder, FirstFrom, All, BlockBytes, FilterOk, IndexIs, Increasing;
    IndexFinds(t, o, k);
    AllBeforeKey(o.blocks, o.seps, |o.blocks|, k);
    assert o.blocks[..|o.blocks|] == o.blocks;
  }

  /** What the block decides about the scan. */
  lemma {:induction false} ScanInBlock(t: Table, o: Origin, k: Bytes, i: nat)
    requires TableOk(t, o) && IsInternal(k) && i == FirstFrom(InternalOrder, o.index, k) < |o.index|
    ensures i < |o.blocks| && var b := o.blocks[i];
            var n := FirstFrom(InternalOrder, b.es, k);
            && (n < |b.es| ==> Scan(o, k) == Something(b.es[n]))
            && (n == |b.es| ==> !IsHit(Scan(o, k), k))
  {
    hide InternalOrder, FirstFrom, All, BlockBytes, FilterOk, IndexIs, Increasing, LiesAt;
    IndexFinds(t, o, k);
    BlockDecides(o.blocks, o.seps, i, k);
  }

  lemma {:induction false} DeniedIsMiss(t: Table, o: Origin, k: Bytes, i: nat)
    requires TableOk(t, o) && IsInternal(k) && i == FirstFrom(InternalOrder, o.index, k) < |o.index|
    requires t.hasFilter && i < |o.blocks| && !MayMatch(t.policy, t.filter, o.blocks[i].offset, k)
    ensures !IsHit(Scan(o, k), k)
  {
    hide *;
    ScanInBlock(t, o, k, i);
    var b := o.blocks[i];
    var n := FirstFrom(InternalOrder, b.es, k);
    SeekBound(b.es, k);
    HitIs(Scan(o, k), k);
    if n < |b.es| && Alike(b.es[n].key, k) { Passes(t, o, i, n, k); }
  }

  lemma {:induction false} HitIs(r: Saved, k: Bytes)
    ensures IsHit(r, k) ==> r.Something? && Alike(r.kv.key, k)
  {
  }

  lemma {:induction false} Passes(t: Table, o: Origin, i: nat, j: nat, k: Bytes)
    requires TableOk(t, o) && t.hasFilter && i < |o.blocks| && j < |o.blocks[i].es| && Alike(o.blocks[i].es[j].key, k)
    ensures IsInternal(k) && MayMatch(t.policy, t.filter, o.blocks[i].offset, k)
  {
    hide MayMatch, SepsOk, Increasing, FileOk, IndexIs, Fits, EntriesFit, BlockBytes, All;
    assert FilterOk(t, o.blocks) && Alike(k, o.blocks[i].es[j].key);
  }

  lemma {:induction false} ReadsBlock(file: Bytes, b: Placed)
    requires BlockOk(b) && LiesAt(file, b)
    ensures b.offset < TWO_64 && |BlockBytes(b.es, b.starts)| < TWO_64
    ensures ReadBlock(file, HandleOf(b)) == Good(BlockBytes(b.es, b.starts), [])
  {
    hide BlockBytes;
  }

  lemma {:induction false} HandleIs(file: Bytes, b: Placed)
    requires BlockOk(b) && LiesAt(file, b)
    ensures b.offset < TWO_64 && |BlockBytes(b.es, b.starts)| < TWO_64 && HandleOf(b).offset == b.offset
  {
    hide BlockBytes;
  }

  lemma {:induction false} GoodBlock(t: Table, o: Origin, i: nat)
    requires TableOk(t, o) && i < |o.blocks|
    ensures var b := o.blocks[i]; Fits(b.es, b.starts) && EntriesFit(b.es) && Increasing(InternalOrder, b.es)
  {
    hide InternalOrder, All, BlockBytes, FilterOk, IndexIs;
    assert BlockOk(o.blocks[i]);
    BlockAscends(o.blocks, i);
  }

  lemma {:induction false} BlockAnswers(t: Table, o: Origin, k: Bytes, i: nat, r: Saved)
    requires TableOk(t, o) && IsInternal(k) && i == FirstFrom(InternalOrder, o.index, k) < |o.index| && i < |o.blocks|
    requires var b := o.blocks[i]; var n :=
             FirstFrom(InternalOrder, b.es, k); r == if n < |b.es| then Something(b.es[n]) else Nothing
    ensures (IsHit(r, k) <==> IsHit(Scan(o, k), k)) && (IsHit(r, k) ==> r == Scan(o, k))
  {
    hide InternalOrder, FirstFrom, Scan, TableOk;
    ScanInBlock(t, o, k, i);
  }

  lemma {:induction false} NothingIsNoHit(k: Bytes)
    ensures !IsHit(Nothing, k)
  {
  }

  /** Table::InternalGet. It hands over an entry of the sought user key just when the
      first entry of the table from `k` on is one, and then that entry. */
  method InternalGet(t: Table, k: Bytes, ghost o: Origin) returns (r: Saved)
    requires IsInternal(k)
    ensures TableOk(t, o) ==> (IsHit(r, k) <==> IsHit(Scan(o, k), k)) && (IsHit(r, k) ==> r == Scan(o, k))
  {
    hide *;
    ghost var good := TableOk(t, o);
    if good {
      GoodIndex(t, o);
      IndexFinds(t, o, k);
    }
    ghost var i := FirstFrom(InternalOrder, o.index, k);
    SeekBound(o.index, k);
    NothingIsNoHit(k);
    var entry := SeekBlock(t.index, k, o.index, o.indexStarts);
    if entry.Nothing? {
      if good { NoBlock(t, o, k); }
      return Nothing;
    }
    var handle := DecodeHandle(entry.kv.value);
    if good {
      HandleIs(t.file, o.blocks[i]);
      HandleRoundTrip(HandleOf(o.blocks[i]));
    }
    if t.hasFilter && handle.Good? && !MayMatch(t.policy, t.filter, handle.value.offset, k) {
      if good { DeniedIsMiss(t, o, k, i); }
      return Nothing;
    }
    if handle.Bad? {
      return Nothing;
    }
    var block := ReadBlock(t.file, handle.value);
    if good { ReadsBlock(t.file, o.blocks[i]); }
    if block.Bad? {
      return Nothing;
    }
    ghost var b := if good then o.blocks[i] else Placed(0, [], []);
    if good { GoodBlock(t, o, i); }
    r := SeekBlock(block.value, k, b.es, b.starts);
    if good { BlockAnswers(t, o, k, i, r); }
  }
}

/** Writing a table (table/table_builder.cc): data blocks as they fill up, an index entry for
    each once the next key is known, and the keys of each block for the filter. */
module TableBuilders {
  import opened Keys
  import opened Coding
  import opened Comparators
  import opened Blocks
  import opened BlockIterators
  import opened FilterBlocks
  import opened Tables

  // ----- sizes -----

  /** More than an entry takes up, with its share of restart points and trailers. */
  function Volume(es: seq<KV>): nat {
    if es == [] then 0 else Volume(es[..|es| - 1]) + |es[|es| - 1].key| + |es[|es| - 1].value| + 40
  }

  lemma {:induction false} VolumeSnoc(es: seq<KV>, e: KV)
    ensures Volume(es + [e]) == Volume(es) + |e.key| + |e.value| + 40
  {
    assert (es + [e])[..|es|] == es;
  }

  lemma {:induction false} VolumeConcat(a: seq<KV>, b: seq<KV>)
    ensures Volume(a + b) == Volume(a) + Volume(b)
  {
    if b == [] {
      assert a + b == a;
    } else {
      hide Volume;
      var init, e := b[..|b| - 1], b[|b| - 1];
      VolumeConcat(a, init);
      assert b == init + [e] && a + b == (a + init) + [e];
      VolumeSnoc(a + init, e);
      VolumeSnoc(init, e);
    }
  }

  lemma {:induction false} EntrySize(es: seq<KV>, starts: seq<nat>, i: nat)
    requires i < |es| && EntriesFit(es)
    ensures |Blocks.Entry(es, starts, i)| <= |es[i].key| + |es[i].value| + 15
  {
    EntryBytesSize(Shared(es, starts, i), es[i].key, es[i].value);
  }

  lemma {:induction false} DataSize(es: seq<KV>, starts: seq<nat>, n: nat)
    requires n <= |es| && EntriesFit(es)
    ensures |Data(es, starts, n)| + 25 * n <= Volume(es[..n])
  {
    if n > 0 {
      DataSize(es, starts, n - 1);
      EntrySize(es, starts, n - 1);
      assert es[..n] == es[..n - 1] + [es[n - 1]];
      VolumeSnoc(es[..n - 1], es[n - 1]);
    }
  }

  lemma {:induction false} StartsCount(starts: seq<nat>, n: nat)
    requires Points(starts, n) && n > 0
    ensures |starts| <= n
  {
    StartsAbove(starts, n, |starts| - 1);
  }

  lemma {:induction false} StartsAbove(starts: seq<nat>, n: nat, k: nat)
    requires Points(starts, n) && k < |starts|
    ensures starts[k] >= k
  {
    if k > 0 { StartsAbove(starts, n, k - 1); }
  }

  /** A block with its trailer takes up no more than the volume of its entries. */
  lemma {:induction false} BlockSize(es: seq<KV>, starts: seq<nat>)
    requires es != [] && Fits(es, starts) && EntriesFit(es)
    ensures |BlockBytes(es, starts)| == Off(es, starts, |es|) + 4 * |starts| + 4
    ensures |BlockBytes(es, starts)| + KBlockTrailerSize <= Volume(es)
  {
    DataSize(es, starts, |es|);
    assert es[..|es|] == es;
    StartsCount(starts, |es|);
    BlockBytesIs(es, starts);
    FixedAllSize(RestartOffs(es, starts));
  }

  // ----- the state of the builder -----

  /** What has been written, what is in the open block, and the key to come. */
  datatype Work = Work(file: Bytes, blocks: seq<Placed>, seps: seq<Bytes>, index: seq<KV>, cur: seq<KV>,
                       pending: bool, lastKey: Bytes, added: seq<Owned>)

  ghost function Entries(w: Work): seq<KV> { All(w.blocks) + w.cur }

  /** The first key after block `i`. */
  function NextFirst(w: Work, i: nat): Bytes
    requires i < |w.blocks|
  {
    if i + 1 < |w.blocks| then (if w.blocks[i + 1].es == [] then [] else w.blocks[i + 1].es[0].key)
    else if w.cur == [] then [] else w.cur[0].key
  }

  /** Block `i` has its index entry, which tells it from what follows. */
  ghost predicate Indexed(w: Work, i: nat)
    requires i < |w.blocks| && i < |w.seps| && i < |w.index| && BlockOk(w.blocks[i]) && LiesAt(w.file, w.blocks[i])
  {
    && w.index[i] == KV(w.seps[i], HandleBytes(HandleOf(w.blocks[i])))
    && Separates(LastOf(w.blocks[i].es), w.seps[i], NextFirst(w, i))
  }

  ghost predicate IndexedAll(w: Work)
    requires FileOk(w.file, w.blocks)
  {
    && |w.seps| == |w.index| && |w.seps| + (if w.pending then 1 else 0) == |w.blocks|
    && (w.pending ==> w.cur == [])
    && forall i :: 0 <= i < |w.seps| ==> Indexed(w, i)
  }

  ghost predicate OwnedAll(w: Work) {
    && (forall i, j :: 0 <= i < |w.blocks| && 0 <= j < |w.blocks[i].es| ==>
          Owned(w.blocks[i].es[j].key, w.blocks[i].offset) in w.added)
    && (forall j :: 0 <= j < |w.cur| ==> Owned(w.cur[j].key, |w.file|) in w.added)
  }

  /** What the index entry to come can take up. */
  function Owed(w: Work): nat { if w.pending || w.cur != [] then |w.lastKey| + 60 else 0 }

  /** Offsets in the file fit 64 bits, those in the index 32. */
  ghost predicate Sized(w: Work) {
    |w.file| <= Volume(All(w.blocks)) && Volume(Entries(w)) < TWO_64 && Volume(w.index) + Owed(w) < TWO_32
  }

  /** The lengths of an entry fit 32 bits; with it the file still fits 64, and the index
      32 when its block gets an index entry. */
  ghost predicate Room(w: Work, kv: KV) {
    && |kv.key| < TWO_32 && |kv.value| < TWO_32 && Volume(Entries(w) + [kv]) < TWO_64
    && Volume(w.index) + (if w.pending then |w.lastKey| + 60 else 0) + |kv.key| + 60 < TWO_32
  }

  ghost predicate WorkOk(w: Work) {
    && FileOk(w.file, w.blocks) && IndexedAll(w) && OwnedAll(w) && Sized(w)
    && Increasing(InternalOrder, Entries(w)) && AllKeysInternal(Entries(w)) && EntriesFit(w.cur) && EntriesFit(w.index)
    && (Entries(w) != [] ==> w.lastKey == LastOf(Entries(w)))
    && (w.blocks != [] && !w.pending ==> w.cur != [])
  }

  // ----- a key is added -----

  /** The state after Add: a pending index entry gets the key `sep`. */
  ghost function AddTo(w: Work, kv: KV, sep: Bytes): Work
    requires FileOk(w.file, w.blocks) && IndexedAll(w)
  {
    var w' := w.(cur := w.cur + [kv], lastKey := kv.key, added := w.added + [Owned(kv.key, |w.file|)]);
    if !w.pending then w'
    else
      var b := w.blocks[|w.blocks| - 1];
      assert BlockOk(b) && LiesAt(w.file, b);
      w'.(pending := false, seps := w.seps + [sep], index := w.index + [KV(sep, HandleBytes(HandleOf(b)))])
  }

  lemma {:induction false} EntriesSnoc(w: Work, w': Work, kv: KV)
    requires w'.blocks == w.blocks && w'.cur == w.cur + [kv]
    ensures Entries(w') == Entries(w) + [kv]
  {
  }

  lemma {:induction false} IncreasingSnoc(es: seq<KV>, kv: KV)
    requires Increasing(InternalOrder, es) && AllKeysInternal(es) && IsInternal(kv.key)
    requires es != [] ==> InternalOrder(LastOf(es)) < InternalOrder(kv.key)
    ensures Increasing(InternalOrder, es + [kv]) && AllKeysInternal(es + [kv]) && LastOf(es + [kv]) == kv.key
  {
    hide InternalOrder;
    var es' := es + [kv];
    forall i, j | 0 <= i < j < |es'| ensures InternalOrder(es'[i].key) < InternalOrder(es'[j].key) {
      if j == |es| && i < |es| - 1 { assert InternalOrder(es[i].key) < InternalOrder(es[|es| - 1].key); }
    }
  }

  lemma {:induction false} FitSnoc(es: seq<KV>, kv: KV)
    requires EntriesFit(es) && |kv.key| < TWO_32 && |kv.value| < TWO_32
    ensures EntriesFit(es + [kv])
  {
  }

  lemma {:induction false} OwnedSnoc(w: Work, w': Work, kv: KV)
    requires OwnedAll(w) && w'.blocks == w.blocks && w'.cur == w.cur + [kv] && w'.file == w.file &&
             w'.added == w.added + [Owned(kv.key, |w.file|)]
    ensures OwnedAll(w')
  {
    forall o | o in w.added ensures o in w'.added {}
    assert w'.added[|w.added|] == Owned(kv.key, |w.file|);
  }

  /** The last key of the entries is that of the last block when none is open. */
  lemma {:induction false} LastOfBlocks(w: Work)
    requires BlocksOk(w.blocks) && w.blocks != [] && w.cur == []
    ensures w.blocks[|w.blocks| - 1].es != [] && Entries(w) != [] &&
            LastOf(Entries(w)) == LastOf(w.blocks[|w.blocks| - 1].es)
  {
    var init, b := w.blocks[..|w.blocks| - 1], w.blocks[|w.blocks| - 1];
    assert BlockOk(b);
    assert w.blocks == init + [b];
    AllSnoc(init, b);
    hide All;
    assert Entries(w) == All(init) + b.es;
  }

  lemma {:induction false} IndexedSame(w: Work, w': Work, i: nat)
    requires i < |w.blocks| && i < |w.seps| && i < |w.index| && BlockOk(w.blocks[i]) && LiesAt(w.file, w.blocks[i]) &&
             Indexed(w, i)
    requires w'.file == w.file && w'.blocks == w.blocks && i < |w'.seps| && i < |w'.index| && w'.seps[i] == w.seps[i] &&
             w'.index[i] == w.index[i]
    requires i + 1 < |w.blocks| || (w.cur != [] && w'.cur != [] && w'.cur[0] == w.cur[0])
    ensures Indexed(w', i)
  {
    hide Separates, HandleBytes;
  }

  lemma {:induction false} AddOpen(w: Work, kv: KV)
    requires WorkOk(w) && !w.pending
    ensures IndexedAll(AddTo(w, kv, []))
  {
    hide Separates, HandleBytes, All, Increasing, InternalOrder, Volume, LiesAt;
    var w' := AddTo(w, kv, []);
    forall i | 0 <= i < |w'.seps| ensures Indexed(w', i) {
      assert Indexed(w, i);
      IndexedSame(w, w', i);
    }
  }

  lemma {:induction false} AddPending(w: Work, kv: KV, sep: Bytes)
    requires WorkOk(w) && w.pending && Separates(w.lastKey, sep, kv.key)
    ensures IndexedAll(AddTo(w, kv, sep))
  {
    hide Separates, HandleBytes, All, Increasing, InternalOrder, Volume, LiesAt;
    var w' := AddTo(w, kv, sep);
    LastOfBlocks(w);
    forall i | 0 <= i < |w'.seps| ensures Indexed(w', i) {
      if i < |w.seps| {
        assert Indexed(w, i);
        IndexedSame(w, w', i);
      }
    }
  }

  lemma {:induction false} HandleSize(h: Handle)
    ensures |HandleBytes(h)| <= 20
  {
    hide Varint;
    Varint64Size(h.offset);
    Varint64Size(h.size);
  }

  lemma {:induction false} IndexVolume(index: seq<KV>, sep: Bytes, h: Handle)
    ensures Volume(index + [KV(sep, HandleBytes(h))]) <= Volume(index) + |sep| + 60
  {
    hide Volume, HandleBytes;
    HandleSize(h);
    VolumeSnoc(index, KV(sep, HandleBytes(h)));
  }

  lemma {:induction false} AddSized(w: Work, kv: KV, sep: Bytes)
    requires WorkOk(w) && Room(w, kv) && (w.pending ==> |sep| <= |w.lastKey|)
    ensures Sized(AddTo(w, kv, sep)) && EntriesFit(AddTo(w, kv, sep).index) && EntriesFit(AddTo(w, kv, sep).cur)
    ensures Volume(AddTo(w, kv, sep).index) <= Volume(w.index) + if w.pending then |w.lastKey| + 60 else 0
  {
    hide Volume, All, HandleBytes, Increasing, LiesAt, Indexed, OwnedAll;
    var w' := AddTo(w, kv, sep);
    EntriesSnoc(w, w', kv);
    FitSnoc(w.cur, kv);
    if w.pending {
      var b := w.blocks[|w.blocks| - 1];
      assert BlockOk(b) && LiesAt(w.file, b);
      IndexVolume(w.index, sep, HandleOf(b));
      HandleSize(HandleOf(b));
      FitSnoc(w.index, KV(sep, HandleBytes(HandleOf(b))));
    }
  }

  lemma {:induction false} AddKeeps(w: Work, kv: KV, sep: Bytes)
    requires WorkOk(w) && IsInternal(kv.key) && Room(w, kv)
    requires Entries(w) != [] ==> InternalOrder(w.lastKey) < InternalOrder(kv.key)
    requires w.pending ==> Separates(w.lastKey, sep, kv.key) && |sep| <= |w.lastKey|
    ensures WorkOk(AddTo(w, kv, sep))
    ensures Volume(AddTo(w, kv, sep).index) <= Volume(w.index) + if w.pending then |w.lastKey| + 60 else 0
  {
    hide Volume, All, HandleBytes, Increasing, LiesAt, Indexed, InternalOrder, Sized, OwnedAll, Separates, Room;
    assert IsInternal(kv.key);
    var w' := AddTo(w, kv, sep);
    EntriesSnoc(w, w', kv);
    IncreasingSnoc(Entries(w), kv);
    OwnedSnoc(w, w', kv);
    AddSized(w, kv, sep);
    if w.pending { AddPending(w, kv, sep); } else { AddOpen(w, kv); IndexedFrame(w, kv, sep); }
  }

  lemma {:induction false} IndexedFrame(w: Work, kv: KV, sep: Bytes)
    requires FileOk(w.file, w.blocks) && IndexedAll(w) && !w.pending
    ensures AddTo(w, kv, sep) == AddTo(w, kv, [])
  {
  }

  // ----- a block is written -----

  function Trailer(crc: U32): (t: Bytes)
    ensures |t| == KBlockTrailerSize && t[0] == 0
  {
    [0] + EncodeFixed32(crc)
  }

  ghost function FlushTo(w: Work, starts: seq<nat>, crc: U32): Work
    requires Fits(w.cur, starts)
  {
    w.(file := w.file + BlockBytes(w.cur, starts) + Trailer(crc),
       blocks := w.blocks + [Placed(|w.file|, w.cur, starts)], cur := [], pending := true)
  }

  lemma {:induction false} StillThere(file: Bytes, more: Bytes, b: Placed)
    requires BlockOk(b) && LiesAt(file, b) && |file| + |more| < TWO_64
    ensures LiesAt(file + more, b)
  {
    hide BlockBytes;
    var n := |BlockBytes(b.es, b.starts)|;
    assert (file + more)[b.offset..b.offset + n] == file[b.offset..b.offset + n];
  }

  lemma {:induction false} NewIsThere(file: Bytes, b: Placed, t: Bytes)
    requires BlockOk(b) && b.offset == |file| && |t| == KBlockTrailerSize && t[0] == 0 &&
             |file| + |BlockBytes(b.es, b.starts)| + |t| < TWO_64
    ensures LiesAt(file + BlockBytes(b.es, b.starts) + t, b)
  {
    hide BlockBytes;
  }

  lemma {:induction false} FlushFile(w: Work, starts: seq<nat>, crc: U32)
    requires WorkOk(w) && w.cur != [] && Fits(w.cur, starts)
    ensures FileOk(FlushTo(w, starts, crc).file, FlushTo(w, starts, crc).blocks)
    ensures |FlushTo(w, starts, crc).file| <= Volume(All(FlushTo(w, starts, crc).blocks)) == Volume(Entries(w))
  {
    hide Volume, All, HandleBytes, Increasing, LiesAt, Indexed, InternalOrder, OwnedAll, BlockBytes;
    VolumeConcat(All(w.blocks), w.cur);
    BlockSize(w.cur, starts);
    var w' := FlushTo(w, starts, crc);
    var b := Placed(|w.file|, w.cur, starts);
    AllSnoc(w.blocks, b);
    var bytes, t := BlockBytes(w.cur, starts), Trailer(crc);
    NewIsThere(w.file, b, t);
    forall i | 0 <= i < |w'.blocks| ensures BlockOk(w'.blocks[i]) && LiesAt(w'.file, w'.blocks[i]) {
      if i < |w.blocks| {
        assert w'.blocks[i] == w.blocks[i];
        StillThere(w.file, bytes + t, w.blocks[i]);
        assert w.file + (bytes + t) == w.file + bytes + t;
      }
    }
  }

  lemma {:induction false} OwnedFlush(w: Work, starts: seq<nat>, crc: U32)
    requires OwnedAll(w) && Fits(w.cur, starts)
    ensures OwnedAll(FlushTo(w, starts, crc))
  {
    hide BlockBytes;
    var w' := FlushTo(w, starts, crc);
    forall i, j | 0 <= i < |w'.blocks| && 0 <= j < |w'.blocks[i].es|
      ensures Owned(w'.blocks[i].es[j].key, w'.blocks[i].offset) in w'.added
    {
      if i < |w.blocks| { assert w'.blocks[i] == w.blocks[i]; }
    }
  }

  lemma {:induction false} IndexedFlush(w: Work, starts: seq<nat>, crc: U32, i: nat)
    requires FileOk(w.file, w.blocks) && IndexedAll(w) && w.cur != [] && Fits(w.cur, starts) && i < |w.seps| &&
             !w.pending
    requires FileOk(FlushTo(w, starts, crc).file, FlushTo(w, starts, crc).blocks)
    ensures i < |FlushTo(w, starts, crc).blocks| && FlushTo(w, starts, crc).blocks[i] == w.blocks[i] &&
            Indexed(FlushTo(w, starts, crc), i)
  {
    hide Separates, HandleBytes, LiesAt, BlockBytes;
    assert Indexed(w, i);
    var w' := FlushTo(w, starts, crc);
    assert w'.blocks[i] == w.blocks[i] && BlockOk(w'.blocks[i]) && LiesAt(w'.file, w'.blocks[i]);
  }

  lemma {:induction false} FlushKeeps(w: Work, starts: seq<nat>, crc: U32)
    requires WorkOk(w) && w.cur != [] && Fits(w.cur, starts)
    ensures WorkOk(FlushTo(w, starts, crc)) && Entries(FlushTo(w, starts, crc)) == Entries(w)
  {
    hide Volume, All, HandleBytes, Increasing, LiesAt, Indexed, InternalOrder, OwnedAll, BlockBytes, Separates;
    FlushFile(w, starts, crc);
    OwnedFlush(w, starts, crc);
    var w' := FlushTo(w, starts, crc);
    AllSnoc(w.blocks, Placed(|w.file|, w.cur, starts));
    assert Entries(w') == Entries(w);
    forall i | 0 <= i < |w'.seps| ensures Indexed(w', i) { IndexedFlush(w, starts, crc, i); }
  }

  // ----- the index is closed -----

  lemma {:induction false} LastSeparates(w: Work, sep: Bytes)
    requires WorkOk(w) && w.pending && IsInternal(sep) && InternalOrder(w.lastKey) <= InternalOrder(sep)
    ensures SepsOk(w.blocks, w.seps + [sep])
  {
    hide Volume, All, HandleBytes, Increasing, LiesAt, InternalOrder, OwnedAll, BlockBytes, Separates, Sized;
    var n := |w.blocks| - 1;
    var seps := w.seps + [sep];
    LastOfBlocks(w);
    forall i | 0 <= i < |w.blocks| ensures BlockOk(w.blocks[i]) && SepOk(w.blocks, seps, i) {
      if i < n {
        assert Indexed(w, i) && BlockOk(w.blocks[i + 1]);
        SeparatesParts(LastOf(w.blocks[i].es), w.seps[i], NextFirst(w, i));
      }
    }
  }

  lemma {:induction false} BlockThere(w: Work, i: nat)
    requires FileOk(w.file, w.blocks) && i < |w.blocks|
    ensures BlockOk(w.blocks[i]) && LiesAt(w.file, w.blocks[i]) && w.blocks[i].offset < TWO_64 &&
            |BlockBytes(w.blocks[i].es, w.blocks[i].starts)| < TWO_64
  {
    hide BlockBytes;
    assert LiesAt(w.file, w.blocks[i]);
  }

  lemma {:induction false} LastInIndex(w: Work, sep: Bytes, e: KV)
    requires FileOk(w.file, w.blocks) && IndexedAll(w) && w.pending
    requires BlockOk(w.blocks[|w.blocks| - 1]) && LiesAt(w.file, w.blocks[|w.blocks| - 1])
    requires e == KV(sep, HandleBytes(HandleOf(w.blocks[|w.blocks| - 1])))
    ensures IndexIs(w.index + [e], w.blocks, w.seps + [sep], w.file)
  {
    hide HandleBytes, BlockBytes, Separates, Fits, EntriesFit;
    var index, seps := w.index + [e], w.seps + [sep];
    forall i | 0 <= i < |index|
      ensures LiesAt(w.file, w.blocks[i]) && BlockOk(w.blocks[i]) &&
              index[i] == KV(seps[i], HandleBytes(HandleOf(w.blocks[i])))
    {
      BlockThere(w, i);
      if i < |w.seps| { assert Indexed(w, i); }
    }
  }

  lemma {:induction false} LastSized(w: Work, sep: Bytes, h: Handle)
    requires WorkOk(w) && w.pending && |sep| <= |w.lastKey|
    ensures var index := w.index + [KV(sep, HandleBytes(h))]; EntriesFit(index) && Volume(index) < TWO_32
  {
    hide Volume, All, HandleBytes, Increasing, LiesAt, InternalOrder, OwnedAll, BlockBytes, Separates, Indexed;
    IndexVolume(w.index, sep, h);
    HandleSize(h);
    FitSnoc(w.index, KV(sep, HandleBytes(h)));
  }

  lemma {:induction false} SeparatesParts(last: Bytes, sep: Bytes, next: Bytes)
    requires Separates(last, sep, next)
    ensures IsInternal(sep) && InternalOrder(last) <= InternalOrder(sep)
  {
  }

  lemma {:induction false} NothingIndexed(w: Work)
    requires WorkOk(w) && !w.pending && w.cur == []
    ensures w.blocks == [] && w.index == [] && w.seps == [] && SepsOk([], []) && FileOk(w.file, []) &&
            IndexIs([], [], [], w.file) && Entries(w) == []
  {
  }

  lemma {:induction false} IndexFits(index: seq<KV>, starts: seq<nat>)
    requires Points(starts, |index|) && EntriesFit(index) && Volume(index) < TWO_32 && (index == [] ==> starts == [0])
    ensures Fits(index, starts)
  {
    if index != [] {
      DataSize(index, starts, |index|);
      assert index[..|index|] == index;
      StartsCount(starts, |index|);
    }
  }

  /** An open block fits as long as its bytes do: it has no more restart points than bytes. */
  lemma {:induction false} DataFits(b: BlockBuilder)
    requires b.Ok() && |b.buffer| < TWO_32
    ensures Fits(b.es, b.starts) && |b.buffer| == Off(b.es, b.starts, |b.es|) && |b.restarts| == |b.starts|
  {
    b.OkUnfold();
    BuildingParts(b.es, b.starts, b.buffer, b.restarts, b.lastKey);
    BuildingData(b.es, b.starts, b.buffer, b.restarts, b.lastKey);
    OffMono(b.es, b.starts, 0, |b.es|);
    if b.es != [] { StartsCount(b.starts, |b.es|); }
  }

  /** The filter lets the keys of every block pass. */
  lemma {:induction false} FilterPasses(t: Table, w: Work, result: Bytes, offsets: seq<nat>, filters: seq<Bytes>,
                                        groups: seq<seq<Bytes>>)
    requires WorkOk(w) && t.hasFilter && t.filter == Contents(result, offsets) && |result| < TWO_32
    requires Flat(result, offsets, filters) && FiltersOk(t.policy, filters, groups)
    requires forall i :: 0 <= i < |w.added| ==> InGroup(groups, w.added[i])
    ensures FilterOk(t, w.blocks)
  {
    hide Volume, All, HandleBytes, Increasing, LiesAt, InternalOrder, BlockBytes, Separates, MayMatch, Flat, FiltersOk,
      InGroup, Indexed;
    forall i, j, k | 0 <= i < |w.blocks| && 0 <= j < |w.blocks[i].es| && Alike(k, w.blocks[i].es[j].key)
      ensures MayMatch(t.policy, t.filter, w.blocks[i].offset, k)
    {
      var o := Owned(w.blocks[i].es[j].key, w.blocks[i].offset);
      assert o in w.added;
      var n :| 0 <= n < |w.added| && w.added[n] == o;
      assert InGroup(groups, w.added[n]);
      NeverDenied(t.policy, result, offsets, filters, groups, o, k);
    }
  }

  lemma {:induction false} StartOk()
    ensures var w := Work([], [], [], [], [], false, [], []); WorkOk(w) && Entries(w) == []
  {
  }

  lemma {:induction false} LastKeyIs(w: Work)
    requires WorkOk(w) && w.pending
    ensures Entries(w) != [] && IsInternal(w.lastKey)
  {
    hide All, Increasing, Volume, LiesAt, Indexed;
    LastOfBlocks(w);
  }

  lemma {:induction false} AddToIs(w: Work, kv: KV, sep: Bytes)
    requires FileOk(w.file, w.blocks) && IndexedAll(w)
    ensures var w' := w.(cur := w.cur + [kv], lastKey := kv.key, added := w.added + [Owned(kv.key, |w.file|)]);
            if !w.pending then AddTo(w, kv, sep) == w'
            else
              && w.blocks != [] && BlockOk(w.blocks[|w.blocks| - 1]) && LiesAt(w.file, w.blocks[|w.blocks| - 1])
              && AddTo(w, kv, sep) ==
                 w'.(pending := false, seps := w.seps + [sep],
                     index := w.index + [KV(sep, HandleBytes(HandleOf(w.blocks[|w.blocks| - 1])))])
    ensures Entries(AddTo(w, kv, sep)) == Entries(w) + [kv] && |AddTo(w, kv, sep).file| == |w.file|
  {
    hide LiesAt, Indexed, All;
    EntriesSnoc(w, AddTo(w, kv, sep), kv);
    if w.pending { assert BlockOk(w.blocks[|w.blocks| - 1]) && LiesAt(w.file, w.blocks[|w.blocks| - 1]); }
  }

  lemma {:induction false} WorkParts(w: Work)
    requires WorkOk(w)
    ensures FileOk(w.file, w.blocks) && IndexedAll(w) && (Entries(w) != [] ==> w.lastKey == LastOf(Entries(w)))
  {
  }

  lemma {:induction false} SepFits(w: Work, sep: Bytes)
    requires WorkOk(w) && w.pending && |sep| <= |w.lastKey|
    ensures |sep| < TWO_32
  {
    hide All, Increasing, LiesAt, Indexed, Volume;
  }

  lemma {:induction false} SmallHandle(h: Handle)
    ensures |HandleBytes(h)| < TWO_32
  {
    HandleSize(h);
  }

  lemma {:induction false} KeyFits(w: Work, kv: KV)
    requires Room(w, kv)
    ensures |kv.key| < TWO_32 && |kv.value| < TWO_32
  {
  }

  lemma {:induction false} DataPoints(b: BlockBuilder)
    requires b.Ok()
    ensures Points(b.starts, |b.es|) && (b.es == [] <==> b.buffer == []) && (b.es == [] ==> b.starts == [0])
  {
    b.OkUnfold();
    BuildingParts(b.es, b.starts, b.buffer, b.restarts, b.lastKey);
    OffMono(b.es, b.starts, 0, |b.es|);
  }

  lemma {:induction false} EmptyWork(w: Work)
    requires WorkOk(w) && w.cur == []
    ensures w.pending || Entries(w) == []
  {
  }

  lemma {:induction false} NoneOpen(w: Work)
    requires WorkOk(w) && w.cur == []
    ensures Entries(w) == All(w.blocks)
  {
    hide All;
  }

  lemma {:induction false} FlushSize(w: Work, starts: seq<nat>)
    requires WorkOk(w) && w.cur != [] && Fits(w.cur, starts)
    ensures |BlockBytes(w.cur, starts)| == Off(w.cur, starts, |w.cur|) + 4 * |starts| + 4
  {
    hide BlockBytes, Off, All, Increasing, Volume, Indexed, OwnedAll, LiesAt;
    BlockSize(w.cur, starts);
  }

  lemma {:induction false} FlushToIs(w: Work, starts: seq<nat>, crc: U32)
    requires Fits(w.cur, starts)
    ensures FlushTo(w, starts, crc) ==
            w.(file := w.file + BlockBytes(w.cur, starts) + Trailer(crc),
               blocks := w.blocks + [Placed(|w.file|, w.cur, starts)], cur := [], pending := true)
  {
  }

  lemma {:induction false} HandleFits(w: Work, starts: seq<nat>, crc: U32)
    requires Fits(w.cur, starts) && WorkOk(FlushTo(w, starts, crc))
    ensures |w.file| < TWO_64 && |BlockBytes(w.cur, starts)| < TWO_64 && |FlushTo(w, starts, crc).file| >= |w.file|
    ensures var b := Placed(|w.file|, w.cur, starts);
            BlockOk(b) && LiesAt(FlushTo(w, starts, crc).file, b) &&
            HandleOf(b) == Handle(|w.file|, |BlockBytes(w.cur, starts)|)
  {
    hide BlockBytes, All, Increasing, Volume, Indexed, OwnedAll;
    var w' := FlushTo(w, starts, crc);
    var n := |w.blocks|;
    assert BlockOk(w'.blocks[n]) && LiesAt(w'.file, w'.blocks[n]);
  }

  lemma {:induction false} LaterBlock(f: FilterBlockBuilder, offset: nat)
    requires f.At() && f.block <= offset
    ensures offset / KFilterBase >= |f.groups|
  {
  }

  lemma {:induction false} NoVolume()
    ensures Volume([]) < TWO_32 && EntriesFit([])
  {
  }

  lemma {:induction false} NoFilter(t: Table, blocks: seq<Placed>)
    requires !t.hasFilter
    ensures FilterOk(t, blocks)
  {
  }

  lemma {:induction false} MakeTable(t: Table, o: Origin, w: Work)
    requires WorkOk(w) && w.cur == [] && o.blocks == w.blocks && t.file == w.file
    requires FileOk(t.file, o.blocks) && SepsOk(o.blocks, o.seps) && IndexIs(o.index, o.blocks, o.seps, t.file)
    requires Fits(o.index, o.indexStarts) && EntriesFit(o.index) && t.index == BlockBytes(o.index, o.indexStarts) &&
             FilterOk(t, o.blocks)
    ensures TableOk(t, o) && All(o.blocks) == Entries(w)
  {
    hide All, BlockBytes, SepsOk, IndexIs, FilterOk, InternalOrder, LiesAt, Volume, Indexed, OwnedAll;
    NoneOpen(w);
  }

  lemma {:induction false} Unfold(b: TableBuilder)
    requires b.Ok()
    ensures b.policy.Valid() && b.interval >= 1 && b.data.Ok() && b.index.Ok() && b.data != b.index
    ensures b.index.interval == 1 && b.data.interval == b.interval && |b.data.buffer| < TWO_32
    ensures WorkOk(b.View()) && FileOk(b.file, b.blocks) && IndexedAll(b.View()) &&
            b.numEntries == |Entries(b.View())| == |b.added|
    ensures Entries(b.View()) != [] ==> b.lastKey == LastOf(Entries(b.View()))
    ensures b.filter.policy == b.policy &&
            (b.hasFilter ==> b.filter.Ok() && b.filter.At() && b.filter.block == |b.file| && b.filter.added == b.added)
    ensures b.pending ==>
              && b.blocks != [] && BlockOk(b.blocks[|b.blocks| - 1]) && LiesAt(b.file, b.blocks[|b.blocks| - 1])
                          && b.pendingHandle == HandleOf(b.blocks[|b.blocks| - 1])
  {
    hide WorkOk, Entries, FileOk, IndexedAll;
    WorkParts(b.View());
  }

  lemma {:induction false} Fold(b: TableBuilder)
    requires b.policy.Valid() && b.interval >= 1 && b.data.Ok() && b.index.Ok() && b.data != b.index
    requires b.index.interval == 1 && b.data.interval == b.interval && |b.data.buffer| < TWO_32
    requires WorkOk(b.View()) && b.numEntries == |Entries(b.View())| == |b.added|
    requires b.filter.policy == b.policy &&
             (b.hasFilter ==> b.filter.Ok() && b.filter.At() && b.filter.block == |b.file| && b.filter.added == b.added)
    requires b.pending ==>
               && b.blocks != [] && BlockOk(b.blocks[|b.blocks| - 1]) && LiesAt(b.file, b.blocks[|b.blocks| - 1])
                           && b.pendingHandle == HandleOf(b.blocks[|b.blocks| - 1])
    ensures b.Ok()
  {
    hide WorkOk, Entries;
  }

  class TableBuilder {
    const interval: nat
    const blockSize: nat
    const step: CrcStep
    const policy: Policy
    const hasFilter: bool
    const filter: FilterBlockBuilder
    const index: BlockBuilder
    var data: BlockBuilder
    var file: Bytes
    var lastKey: Bytes
    var numEntries: nat
    var pending: bool
    var pendingHandle: Handle
    ghost var blocks: seq<Placed>
    ghost var seps: seq<Bytes>
    ghost var added: seq<Owned>

    ghost function View(): (w: Work)
      reads this, data, index
      ensures w == Work(file, blocks, seps, index.es, data.es, pending, lastKey, added)
    {
      Work(file, blocks, seps, index.es, data.es, pending, lastKey, added)
    }

    /** The filter is ready for the keys of the block that comes next. */
    ghost predicate FilterReady()
      reads this, filter
    {
      filter.policy == policy && (hasFilter ==>
                                    filter.Ok() && filter.At() && filter.block == |file| && filter.added == added)
    }

    ghost predicate Parts()
      reads this, data, index
    {
      && data.Ok() && index.Ok() && data != index && index.interval == 1 && data.interval == interval
      && |data.buffer| < TWO_32
    }

    ghost predicate HandleReady()
      reads this
    {
      pending ==>
        blocks != [] && BlockOk(blocks[|blocks| - 1]) && LiesAt(file, blocks[|blocks| - 1]) &&
        pendingHandle == HandleOf(blocks[|blocks| - 1])
    }

    ghost predicate Ok()
      reads this, data, index, filter
    {
      && policy.Valid() && interval >= 1 && Parts() && WorkOk(View()) && FilterReady() && HandleReady()
      && numEntries == |Entries(View())| == |added|
    }

    constructor (interval: nat, blockSize: nat, step: CrcStep, policy: Policy, hasFilter: bool)
      requires interval >= 1 && policy.Valid()
      ensures Ok() && this.policy == policy && this.hasFilter == hasFilter && this.blockSize == blockSize
      ensures fresh(data) && fresh(index) && fresh(filter) && Entries(View()) == []
      ensures data.buffer == [] && file == [] && blocks == [] && index.es == [] && !pending
    {
      this.interval, this.blockSize, this.step, this.policy, this.hasFilter :=
        interval, blockSize, step, policy, hasFilter;
      filter := new FilterBlockBuilder(policy);
      index := new BlockBuilder(1);
      data := new BlockBuilder(interval);
      file, lastKey, numEntries, pending, pendingHandle := [], [], 0, false, Handle(0, 0);
      blocks, seps, added := [], [], [];
      new;
      hide *;
      StartOk();
      Fold(this);
    }

    /** The entry goes to the open block, which must be able to take it. A block that has
        reached its size is written. */
    method Add(key: Bytes, value: Bytes)
      requires Ok() && IsInternal(key) && Room(View(), KV(key, value))
      requires |data.buffer| + |key| + |value| + 15 < TWO_32
      requires numEntries > 0 ==> InternalOrder(lastKey) < InternalOrder(key)
      modifies this, data, index, filter
      ensures Ok() && Entries(View()) == old(Entries(View())) + [KV(key, value)] && (data == old(data) || fresh(data))
      ensures lastKey == key && |data.buffer| <= blockSize
      ensures Volume(index.es) <= old(Volume(index.es)) + old(if pending then |lastKey| + 60 else 0)
      ensures if pending then |blocks| == old(|blocks|) + 1 && |file| >= old(|file|) + blockSize + KBlockTrailerSize
              else |blocks| == old(|blocks|) && file == old(file)
    {
      hide *;
      Unfold(this);
      ghost var w, kv := View(), KV(key, value);
      var sep: Bytes := [];
      if pending {
        LastKeyIs(w);
        sep := InternalSeparator(lastKey, key);
        AddKeeps(w, kv, sep);
        AddToIs(w, kv, sep);
        SepFits(w, sep);
        var handle := HandleBytes(pendingHandle);
        SmallHandle(pendingHandle);
        index.Add(sep, handle);
        seps := seps + [sep];
        pending := false;
      } else {
        AddKeeps(w, kv, sep);
        AddToIs(w, kv, sep);
      }
      if hasFilter {
        filter.AddKey(key);
      }
      added := added + [Owned(key, |file|)];
      lastKey := key;
      numEntries := numEntries + 1;
      KeyFits(w, kv);
      data.Add(key, value);
      Fold(this);
      if |data.buffer| + 4 * |data.restarts| + 4 >= blockSize {
        Flush();
      }
    }

    method Flush()
      requires Ok()
      modifies this, data, filter
      ensures Ok() && Entries(View()) == old(Entries(View())) && (data == old(data) || fresh(data))
      ensures numEntries == old(numEntries) && (pending || Entries(View()) == []) && data.es == []
      ensures lastKey == old(lastKey) && data.buffer == []
      ensures old(data.es) != [] ==> && pending && |blocks| == old(|blocks|) + 1
                                     && |file| == old(|file| + |data.buffer| + 4 * |data.restarts| + 4) +
                                        KBlockTrailerSize
    {
      hide *;
      Unfold(this);
      DataPoints(data);
      if data.buffer == [] {
        EmptyWork(View());
        return;
      }
      WriteOpenBlock();
    }

    /** Writes the open block behind what the file holds and opens another. */
    method WriteOpenBlock()
      requires Ok() && data.es != []
      modifies this, data, filter
      ensures Ok() && Entries(View()) == old(Entries(View())) && fresh(data)
      ensures numEntries == old(numEntries) && pending && data.es == [] && lastKey == old(lastKey) && data.buffer == []
      ensures |blocks| == old(|blocks|) + 1
      ensures |file| == old(|file| + |data.buffer| + 4 * |data.restarts| + 4) + KBlockTrailerSize
    {
      hide *;
      Unfold(this);
      ghost var w, starts := View(), data.starts;
      DataFits(data);
      FlushSize(w, starts);
      var raw := data.Finish();
      var crc := Mask(Extend(step, Extend(step, 0, raw), [0]));
      FlushKeeps(w, starts, crc);
      FlushToIs(w, starts, crc);
      HandleFits(w, starts, crc);
      pendingHandle := Handle(|file|, |raw|);
      blocks := blocks + [Placed(|file|, data.es, starts)];
      file := file + raw + Trailer(crc);
      data := new BlockBuilder(interval);
      pending := true;
      NextFilter();
      Fold(this);
    }

    /** The keys to come belong to the block that starts at the end of the file. */
    method NextFilter()
      requires hasFilter ==> filter.Ok() && filter.At() && filter.block <= |file|
      modifies filter
      ensures hasFilter ==> filter.Ok() && filter.At() && filter.block == |file| && filter.added == old(filter.added)
    {
      hide *;
      if hasFilter {
        LaterBlock(filter, |file|);
        filter.StartBlock(|file|);
      }
    }

    /** Closes the table: what it is built from, and that it holds every entry added. */
    method Finish() returns (t: Table, ghost o: Origin)
      requires Ok()
      modifies this, data, index, filter
      ensures t.policy == policy && t.hasFilter == hasFilter
      ensures (hasFilter ==> Weight(policy, old(numEntries)) < TWO_32) ==>
                TableOk(t, o) && All(o.blocks) == old(Entries(View()))
    {
      hide *;
      Flush();
      Unfold(this);
      ghost var w := View();
      NoneOpen(w);
      var filterBlock: Bytes := [];
      if hasFilter {
        filterBlock := filter.Finish();
      }
      ghost var allSeps := seps;
      if pending {
        LastKeyIs(w);
        var sep := InternalSuccessor(lastKey);
        LastSeparates(w, sep);
        LastInIndex(w, sep, KV(sep, HandleBytes(pendingHandle)));
        LastSized(w, sep, pendingHandle);
        SepFits(w, sep);
        var handle := HandleBytes(pendingHandle);
        SmallHandle(pendingHandle);
        index.Add(sep, handle);
        allSeps := seps + [sep];
      } else {
        NothingIndexed(w);
        NoVolume();
      }
      DataPoints(index);
      IndexFits(index.es, index.starts);
      ghost var es, starts := index.es, index.starts;
      var indexBlock := index.Finish();
      t := Table(file, indexBlock, policy, hasFilter, filterBlock);
      o := Origin(blocks, allSeps, es, starts);
      if hasFilter {
        FilterBlocks.OkParts(filter);
        if Weight(policy, numEntries) < TWO_32 {
          FilterPasses(t, w, filter.result, filter.offsets, filter.filters, filter.groups);
          MakeTable(t, o, w);
        }
      } else {
        NoFilter(t, blocks);
        MakeTable(t, o, w);
      }
    }
  }
}

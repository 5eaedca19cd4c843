/** Tables of encoded entries stand for the tables of the version model: building one and
    looking a key up in it gives what the probe of the abstract table gives. */
module TableLookups {
  import opened Keys
  import opened Coding
  import opened Comparators
  import opened Blocks
  import opened BlockIterators
  import opened FilterBlocks
  import opened Tables
  import opened TableBuilders
  import Versions
  import Arithmetic

  /** An entry with its user key in bytes. */
  datatype Rec = Rec(user: Bytes, sequence: nat, kind: ValueType, value: Bytes)

  predicate Numbered(s: nat) { s <= KMaxSequenceNumber }

  function KeyOf(user: Bytes, s: nat, kind: ValueType): (k: Bytes)
    requires Numbered(s)
    ensures IsInternal(k)
  {
    Encode(user, Pack(s, kind))
  }

  predicate AllNumbered(rs: seq<Rec>) { forall i :: 0 <= i < |rs| ==> Numbered(rs[i].sequence) }

  function Encoded(rs: seq<Rec>): (es: seq<KV>)
    requires AllNumbered(rs)
    ensures |es| == |rs|
  {
    seq(|rs|, i requires 0 <= i < |rs| => KV(KeyOf(rs[i].user, rs[i].sequence, rs[i].kind), rs[i].value))
  }

  /** The same entries as the version model has them. */
  function Abstract(rs: seq<Rec>): (es: seq<Keys.Entry>)
    ensures |es| == |rs|
  {
    seq(|rs|, i requires 0 <= i < |rs| =>
        Keys.Entry(InternalKey(Rank(rs[i].user), rs[i].sequence, rs[i].kind), rs[i].value))
  }

  /** The order of the encoded keys is the order of the model. */
  lemma {:induction false} OrderAgrees(u: Bytes, s: nat, a: ValueType, w: Bytes, t: nat, b: ValueType)
    requires Numbered(s) && Numbered(t)
    ensures InternalOrder(KeyOf(u, s, a)) < InternalOrder(KeyOf(w, t, b)) <==>
              Before(InternalKey(Rank(u), s, a), InternalKey(Rank(w), t, b))
  {
    hide InternalOrder, Rank, Encode;
    EncodeParts(u, Pack(s, a));
    EncodeParts(w, Pack(t, b));
    OrderIsComparator(KeyOf(u, s, a), KeyOf(w, t, b));
    RankOrders(u, w);
    BeforeIsPackedOrder(InternalKey(Rank(u), s, a), InternalKey(Rank(w), t, b));
  }

  lemma {:induction false} SeekAgrees(rs: seq<Rec>, user: Bytes, s: nat)
    requires AllNumbered(rs) && Numbered(s)
    ensures FirstFrom(InternalOrder, Encoded(rs), KeyOf(user, s, Value)) ==
            Versions.SeekIndex(Abstract(rs), LookupKey(Rank(user), s))
  {
    hide *;
    FirstStep(Encoded(rs), KeyOf(user, s, Value));
    SeekStep(Abstract(rs), LookupKey(Rank(user), s));
    if rs != [] {
      Tails(rs);
      SeekAgrees(rs[1..], user, s);
      OrderAgrees(rs[0].user, rs[0].sequence, rs[0].kind, user, s, Value);
      LookupIs(Rank(user), s);
    }
  }

  lemma {:induction false} LookupIs(u: UserKey, s: nat)
    ensures LookupKey(u, s) == InternalKey(u, s, Value)
  {
  }

  lemma {:induction false} Tails(rs: seq<Rec>)
    requires rs != [] && AllNumbered(rs)
    ensures AllNumbered(rs[1..]) && Encoded(rs)[1..] == Encoded(rs[1..]) && Abstract(rs)[1..] == Abstract(rs[1..])
    ensures Numbered(rs[0].sequence) && Encoded(rs)[0].key == KeyOf(rs[0].user, rs[0].sequence, rs[0].kind)
    ensures Abstract(rs)[0].key == InternalKey(Rank(rs[0].user), rs[0].sequence, rs[0].kind)
  {
    hide Rank, KeyOf;
  }

  lemma {:induction false} FirstStep(es: seq<KV>, k: Bytes)
    ensures FirstFrom(InternalOrder, es, k) ==
            if es == [] || !(InternalOrder(es[0].key) < InternalOrder(k)) then 0
              else 1 + FirstFrom(InternalOrder, es[1..], k)
  {
    hide InternalOrder;
  }

  lemma {:induction false} SeekStep(es: seq<Keys.Entry>, k: InternalKey)
    ensures Versions.SeekIndex(es, k) ==
            if es == [] || !Before(es[0].key, k) then 0 else 1 + Versions.SeekIndex(es[1..], k)
  {
    hide Before;
  }

  lemma {:induction false} VersionedIsIncreasing(rs: seq<Rec>)
    requires AllNumbered(rs) && Versioned(Abstract(rs))
    ensures Increasing(InternalOrder, Encoded(rs))
  {
    hide InternalOrder, Rank, Encode;
    var es, ms := Encoded(rs), Abstract(rs);
    forall i, j | 0 <= i < j < |rs| ensures InternalOrder(es[i].key) < InternalOrder(es[j].key) {
      assert Precedes(ms[i].key, ms[j].key);
      OrderAgrees(rs[i].user, rs[i].sequence, rs[i].kind, rs[j].user, rs[j].sequence, rs[j].kind);
    }
  }

  lemma {:induction false} VolumePrefix(es: seq<KV>, n: nat)
    requires n <= |es|
    ensures Volume(es[..n]) <= Volume(es)
  {
    VolumeConcat(es[..n], es[n..]);
    assert es == es[..n] + es[n..];
  }

  /** Any one entry fits a block that is not full yet, and keys are at most `maxKey` long. */
  predicate SmallEntries(es: seq<KV>, blockSize: nat, maxKey: nat) {
    forall i :: 0 <= i < |es| ==> |es[i].key| <= maxKey && blockSize + |es[i].key| + |es[i].value| + 15 < TWO_32
  }

  /** What a full block takes up at least. */
  function Least(blockSize: nat): (n: nat)
    ensures n >= 1
  {
    if blockSize == 0 then 1 else blockSize
  }

  /** An index entry for every full block that the entries can fill, and one for the rest. */
  predicate SmallIndex(volume: nat, blockSize: nat, maxKey: nat) {
    volume < TWO_64 && (volume / Least(blockSize) + 1) * (maxKey + 60) < TWO_32
  }

  /** Builds a table of the entries. Every block, the index and the filter fit 32 bits, the
      file 64. */
  method BuildTable(rs: seq<Rec>, interval: nat, blockSize: nat, step: CrcStep, policy: Policy,
                    hasFilter: bool, ghost maxKey: nat) returns (t: Table, ghost o: Origin)
    requires interval >= 1 && policy.Valid() && AllNumbered(rs) && Versioned(Abstract(rs))
    requires SmallEntries(Encoded(rs), blockSize, maxKey) && SmallIndex(Volume(Encoded(rs)), blockSize, maxKey)
    requires hasFilter ==> Weight(policy, |rs|) < TWO_32
    ensures TableOk(t, o) && All(o.blocks) == Encoded(rs)
  {
    hide *;
    ghost var es := Encoded(rs);
    VersionedIsIncreasing(rs);
    var b := new TableBuilder(interval, blockSize, step, policy, hasFilter);
    NothingWritten(b.View(), blockSize, maxKey);
    for i := 0 to |rs|
      invariant fresh(b) && fresh(b.data) && fresh(b.index) && fresh(b.filter) && b.Ok()
      invariant b.policy == policy && b.hasFilter == hasFilter && b.blockSize == blockSize
      invariant Entries(b.View()) == es[..i] && |b.data.buffer| <= blockSize
      invariant Bounded(b.View(), blockSize, maxKey)
    {
      Unfold(b);
      ghost var w := b.View();
      NextFits(rs, i, b.lastKey, w, blockSize, maxKey);
      NumberedAt(rs, i);
      b.Add(KeyOf(rs[i].user, rs[i].sequence, rs[i].kind), rs[i].value);
      StaysBounded(w, b.View(), es[i], blockSize, maxKey);
      assert es[..i + 1] == es[..i] + [es[i]];
    }
    assert es[..|rs|] == es;
    Unfold(b);
    t, o := b.Finish();
  }

  /** Every block written took up its least, and the index grows by the block. */
  ghost predicate Bounded(w: Work, blockSize: nat, maxKey: nat) {
    && |w.blocks| * Least(blockSize) <= |w.file|
    && Volume(w.index) + (if w.pending then |w.lastKey| + 60 else 0) <= |w.blocks| * (maxKey + 60)
  }

  lemma {:induction false} NothingWritten(w: Work, blockSize: nat, maxKey: nat)
    requires w.blocks == [] && w.index == [] && !w.pending
    ensures Bounded(w, blockSize, maxKey)
  {
  }

  lemma {:induction false} StaysBounded(w: Work, w': Work, kv: KV, blockSize: nat, maxKey: nat)
    requires Bounded(w, blockSize, maxKey) && w'.lastKey == kv.key && |kv.key| <= maxKey
    requires Volume(w'.index) <= Volume(w.index) + if w.pending then |w.lastKey| + 60 else 0
    requires if w'.pending then |w'.blocks| == |w.blocks| + 1 && |w'.file| >= |w.file| + blockSize + KBlockTrailerSize
             else |w'.blocks| == |w.blocks| && w'.file == w.file
    ensures Bounded(w', blockSize, maxKey)
  {
    hide Volume;
    var n := |w.blocks|;
    Times(n, Least(blockSize));
    Times(n, maxKey + 60);
  }

  lemma {:induction false} Times(n: nat, d: nat)
    ensures (n + 1) * d == n * d + d
  {
  }

  lemma {:induction false} IndexHasRoom(n: nat, volume: nat, blockSize: nat, maxKey: nat)
    requires n * Least(blockSize) <= volume && SmallIndex(volume, blockSize, maxKey)
    ensures n * (maxKey + 60) + (maxKey + 60) < TWO_32
  {
    var d := Least(blockSize);
    var q := volume / d;
    assert volume < (q + 1) * d;
    Arithmetic.Grows(q + 1, n, d);
    Arithmetic.Grows(n + 1, q + 1, maxKey + 60);
    Times(n, maxKey + 60);
  }

  lemma {:induction false} NumberedAt(rs: seq<Rec>, i: nat)
    requires AllNumbered(rs) && i < |rs|
    ensures Numbered(rs[i].sequence)
  {
  }

  lemma {:induction false} NextFits(rs: seq<Rec>, i: nat, last: Bytes, w: Work, blockSize: nat, maxKey: nat)
    requires AllNumbered(rs) && i < |rs| && Increasing(InternalOrder, Encoded(rs))
    requires SmallEntries(Encoded(rs), blockSize, maxKey) && SmallIndex(Volume(Encoded(rs)), blockSize, maxKey)
    requires i > 0 ==> last == LastOf(Encoded(rs)[..i])
    requires WorkOk(w) && Entries(w) == Encoded(rs)[..i] && Bounded(w, blockSize, maxKey)
    ensures Numbered(rs[i].sequence)
    ensures var kv := KV(KeyOf(rs[i].user, rs[i].sequence, rs[i].kind), rs[i].value);
            && IsInternal(kv.key) && Encoded(rs)[i] == kv && Room(w, kv)
            && |kv.key| <= maxKey && blockSize + |kv.key| + |kv.value| + 15 < TWO_32
            && (i > 0 ==> InternalOrder(last) < InternalOrder(kv.key))
  {
    hide InternalOrder, Volume, WorkOk, SmallIndex, Least, Entries;
    var es := Encoded(rs);
    VolumePrefix(es, i + 1);
    VolumePrefix(es, i);
    assert es[..i + 1] == es[..i] + [es[i]];
    FileIsSmall(w);
    IndexHasRoom(|w.blocks|, Volume(es), blockSize, maxKey);
    SmallIndexIs(Volume(es), blockSize, maxKey);
  }

  lemma {:induction false} SmallIndexIs(volume: nat, blockSize: nat, maxKey: nat)
    requires SmallIndex(volume, blockSize, maxKey)
    ensures volume < TWO_64
  {
  }

  lemma {:induction false} FileIsSmall(w: Work)
    requires WorkOk(w)
    ensures |w.file| <= Volume(Entries(w))
  {
    hide Volume, All, Increasing, LiesAt, Indexed, OwnedAll;
    VolumeConcat(All(w.blocks), w.cur);
  }

  lemma {:induction false} ScanIsProbe(rs: seq<Rec>, o: Origin, user: Bytes, s: nat)
    requires AllNumbered(rs) && Numbered(s) && All(o.blocks) == Encoded(rs)
    ensures var k, p := KeyOf(user, s, Value), Versions.Probe(Abstract(rs), Rank(user), s);
            && (IsHit(Scan(o, k), k) <==> p.Hit?)
            && (p.Hit? ==>
                  Scan(o, k).kv.value == p.entry.value &&
                  TrailerOf(Scan(o, k).kv.key) == Pack(p.entry.key.sequence, p.entry.key.kind))
  {
    hide InternalOrder, Rank, Encode, FirstFrom, UserOf, TrailerOf;
    SeekAgrees(rs, user, s);
    var k := KeyOf(user, s, Value);
    var c := FirstFrom(InternalOrder, Encoded(rs), k);
    EncodeParts(user, Pack(s, Value));
    if c < |rs| {
      EncodeParts(rs[c].user, Pack(rs[c].sequence, rs[c].kind));
      RankOrders(rs[c].user, user);
    }
  }

  /** A lookup in a table built from some entries finds what the probe of the model
      finds: the newest version of the user key that `s` may see. */
  method LookUp(t: Table, user: Bytes, s: nat, ghost rs: seq<Rec>, ghost o: Origin) returns (r: Saved)
    requires Numbered(s)
    ensures AllNumbered(rs) && TableOk(t, o) && All(o.blocks) == Encoded(rs) ==>
              var k, p := KeyOf(user, s, Value), Versions.Probe(Abstract(rs), Rank(user), s);
              && (IsHit(r, k) <==> p.Hit?)
              && (p.Hit? ==>
                    r.kv.value == p.entry.value && TrailerOf(r.kv.key) == Pack(p.entry.key.sequence, p.entry.key.kind))
  {
    hide *;
    var k := KeyOf(user, s, Value);
    r := InternalGet(t, k, o);
    if AllNumbered(rs) && TableOk(t, o) && All(o.blocks) == Encoded(rs) {
      ScanIsProbe(rs, o, user, s);
      HitParts(r, k);
    }
  }

  lemma {:induction false} HitParts(r: Saved, k: Bytes)
    ensures IsHit(r, k) ==> r.Something? && IsInternal(r.kv.key)
  {
  }
}

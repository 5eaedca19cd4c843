/** Reading a block (table/block.cc): opening it, and Block::Iter, which finds entries by
    a binary search over the restart points and a scan from there. */
module BlockIterators {
  import opened Keys
  import opened Coding
  import opened Blocks
  import opened Cursors

  // ----- opening a block -----

  /** A block, where its restart array begins, and how many restart points it has. */
  datatype Blk = Blk(data: Bytes, restarts: nat, num: nat)

  datatype Opened = Corrupt | Empty | Opened(b: Blk)

  /** Block::Block and Block::NewIterator. */
  function Open(block: Bytes): Opened {
    if |block| < 4 then Corrupt
    else
      var n := DecodeFixed32(block[|block| - 4..]);
      if n > (|block| - 4) / 4 then Corrupt
      else if n == 0 then Empty
      else Opened(Blk(block, |block| - (1 + n) * 4, n))
  }

  predicate Safe(b: Blk) {
    b.num > 0 && b.restarts + 4 * b.num <= |b.data|
  }

  function RestartPoint(b: Blk, k: nat): U32
    requires Safe(b) && k < b.num
  {
    DecodeFixed32(b.data[b.restarts + 4 * k..])
  }

  predicate EntriesFit(es: seq<KV>) {
    forall i :: 0 <= i < |es| ==> |es[i].key| < TWO_32 && |es[i].value| < TWO_32
  }

  predicate PointsAt(b: Blk, es: seq<KV>, starts: seq<nat>)
    requires Safe(b)
  {
    && b.num == |starts| && (forall k :: 0 <= k < |starts| ==> starts[k] <= |es|)
    && forall k :: 0 <= k < |starts| ==> RestartPoint(b, k) == Off(es, starts, starts[k])
  }

  /** The block holds the entries `es`, with restart points at `starts`. */
  predicate Built(b: Blk, es: seq<KV>, starts: seq<nat>) {
    && Safe(b) && Points(starts, |es|) && EntriesFit(es)
    && b.restarts == Off(es, starts, |es|) && b.data[..b.restarts] == Data(es, starts, |es|)
    && PointsAt(b, es, starts)
  }

  /** A finished block opens as what it was built from. */
  lemma {:induction false} OpenRoundTrip(es: seq<KV>, starts: seq<nat>)
    requires Fits(es, starts) && EntriesFit(es)
    ensures var block := BlockBytes(es, starts);
            var o := Open(block);
            o.Opened? && o.b.data == block && Built(o.b, es, starts)
  {
    OffsFit(es, starts);
    var data, v, n := Data(es, starts, |es|), RestartOffs(es, starts), |starts|;
    var block := BlockBytes(es, starts);
    assert block == data + FixedAll(v) + EncodeFixed32(n);
    assert forall k :: 0 <= k < n ==> v[k] == Off(es, starts, starts[k]);
    OpenParts(data, v, n);
    var b := Open(block).b;
    hide Data, FixedAll, Open, RestartOffs, BlockBytes;
    forall k | 0 <= k < n ensures RestartPoint(b, k) == Off(es, starts, starts[k]) { }
  }

  lemma {:induction false} OpenParts(data: Bytes, v: seq<nat>, n: nat)
    requires 0 < n == |v| < TWO_32 && forall k :: 0 <= k < |v| ==> v[k] < TWO_32
    ensures var block := data + FixedAll(v) + EncodeFixed32(n);
            && Open(block) == Opened(Blk(block, |data|, n)) && block[..|data|] == data && Safe(Blk(block, |data|, n))
            && forall k :: 0 <= k < n ==> RestartPoint(Blk(block, |data|, n), k) == v[k]
  {
    var tail := EncodeFixed32(n);
    var block := data + FixedAll(v) + tail;
    FixedAllSize(v);
    TailOf(data + FixedAll(v), tail);
    Fixed32RoundTrip(n, []);
    assert tail + [] == tail;
    assert block == data + (FixedAll(v) + tail);
    forall k | 0 <= k < n ensures RestartPoint(Blk(block, |data|, n), k) == v[k] {
      FixedAllAt(v, k, tail);
      Deeper(data, FixedAll(v) + tail, 4 * k);
    }
  }

  lemma {:induction false} TailOf(a: Bytes, b: Bytes)
    ensures (a + b)[|a + b| - |b|..] == b
  {
  }

  lemma {:induction false} Deeper(a: Bytes, b: Bytes, n: nat)
    requires n <= |b|
    ensures (a + b)[|a| + n..] == b[n..]
  {
  }

  // ----- where an iterator stands -----

  /** The fields of Block::Iter; the value is a slice of the block. */
  datatype St = St(current: nat, restartIndex: nat, key: Bytes, vOff: nat, vLen: nat)

  /** Standing at entry `i`. */
  predicate At(b: Blk, es: seq<KV>, starts: seq<nat>, s: St, i: nat) {
    && Built(b, es, starts) && i < |es| && s.current == Off(es, starts, i) && s.key == es[i].key
    && s.vOff + s.vLen == Off(es, starts, i + 1) <= |b.data| && b.data[s.vOff..s.vOff + s.vLen] == es[i].value
    && s.restartIndex < |starts| && starts[s.restartIndex] <= i
    && (s.restartIndex + 1 < |starts| ==> i <= starts[s.restartIndex + 1])
  }

  /** About to parse entry `j`. */
  predicate Poised(b: Blk, es: seq<KV>, starts: seq<nat>, s: St, j: nat) {
    && Built(b, es, starts) && j <= |es| && s.vOff + s.vLen == Off(es, starts, j)
    && (0 < j < |es| && j !in starts ==> s.key == es[j - 1].key)
    && s.restartIndex < |starts| && starts[s.restartIndex] <= j
  }

  predicate Gone(b: Blk, s: St) {
    s.current >= b.restarts
  }

  /** The iterator is a cursor at `c`, the number of entries if it is nowhere. */
  predicate Stands(b: Blk, es: seq<KV>, starts: seq<nat>, s: St, c: nat) {
    if c < |es| then At(b, es, starts, s, c) else c == |es| && Gone(b, s)
  }

  /** What decoding finds at `off`: the lengths of `kv`, the rest of its key, its value,
      and the end of the entry at `off'`. */
  predicate Parses(b: Blk, off: nat, shared: nat, kv: KV, off': nat) {
    && off <= off' <= b.restarts <= |b.data| && shared <= |kv.key|
    && var e := DecodeEntry(b.data[off..b.restarts]);
       && e.Good? && e.value == Lengths(shared, |kv.key| - shared, |kv.value|) && |e.rest| <= b.restarts
       && Slices(b.data, b.restarts - |e.rest|, kv.key[shared..], kv.value, off')
  }

  /** `k` and then `v` lie at `p` and end at `off'`. */
  predicate Slices(data: Bytes, p: nat, k: Bytes, v: Bytes, off': nat) {
    p + |k| + |v| == off' <= |data| && data[p..p + |k|] == k && data[p + |k|..off'] == v
  }

  lemma {:induction false} ParseAt(b: Blk, es: seq<KV>, starts: seq<nat>, j: nat)
    requires Built(b, es, starts) && j < |es|
    ensures Off(es, starts, j) < b.restarts
    ensures Parses(b, Off(es, starts, j), Shared(es, starts, j), es[j], Off(es, starts, j + 1))
  {
    EntryAt(es, starts, j);
    OffMono(es, starts, j, j + 1);
    assert EntriesFit(es);
    var all := Data(es, starts, |es|);
    hide Data, Off, Points, PointsAt, EntryBytes, DecodeEntry;
    ParsesFrom(b, all, Off(es, starts, j), Off(es, starts, j + 1), Shared(es, starts, j), es[j]);
  }

  lemma {:induction false} ParsesFrom(b: Blk, all: Bytes, off: nat, off': nat, shared: nat, kv: KV)
    requires b.restarts == |all| <= |b.data| && b.data[..b.restarts] == all && off <= off' <= |all|
    requires shared <= |kv.key| < TWO_32 && |kv.value| < TWO_32
    requires all[off..] == EntryBytes(shared, kv.key, kv.value) + all[off'..]
    ensures Parses(b, off, shared, kv, off')
  {
    hide *;
    var k, v, rest := kv.key[shared..], kv.value, all[off'..];
    EntryRoundTrip(shared, kv.key, v, rest);
    assert b.data[off..b.restarts] == all[off..];
    var head := HeadOf(shared, kv);
    HeadIs(shared, kv);
    Regrouped(head, k, v, rest);
    Placed(b.data, b.restarts, all, off, head, off', k, v);
    MakeParses(b, off, shared, kv, off', k + v + rest);
  }

  function HeadOf(shared: nat, kv: KV): Bytes
    requires shared <= |kv.key|
  {
    Varint(shared) + Varint(|kv.key| - shared) + Varint(|kv.value|)
  }

  lemma {:induction false} HeadIs(shared: nat, kv: KV)
    requires shared <= |kv.key|
    ensures EntryBytes(shared, kv.key, kv.value) == HeadOf(shared, kv) + kv.key[shared..] + kv.value
  {
    hide Varint;
  }

  lemma {:induction false} Regrouped(head: Bytes, k: Bytes, v: Bytes, rest: Bytes)
    ensures (head + k + v) + rest == head + k + v + rest
  {
  }

  lemma {:induction false} MakeParses(b: Blk, off: nat, shared: nat, kv: KV, off': nat, rest: Bytes)
    requires off <= off' <= b.restarts <= |b.data| && shared <= |kv.key| && |rest| <= b.restarts
    requires DecodeEntry(b.data[off..b.restarts]) == Good(Lengths(shared, |kv.key| - shared, |kv.value|), rest)
    requires Slices(b.data, b.restarts - |rest|, kv.key[shared..], kv.value, off')
    ensures Parses(b, off, shared, kv, off')
  {
    hide DecodeEntry, Slices;
  }

  /** Where key and value lie, counted from the end. */
  lemma {:induction false} Placed(data: Bytes, restarts: nat, all: Bytes, off: nat, head: Bytes, off': nat, k: Bytes,
                                  v: Bytes)
    requires restarts == |all| <= |data| && data[..restarts] == all && off <= off' <= |all|
    requires all[off..] == head + k + v + all[off'..]
    ensures |k + v + all[off'..]| <= restarts && Slices(data, restarts - |k + v + all[off'..]|, k, v, off')
  {
    var t := head + k + v + all[off'..];
    assert |all[off..]| == |t|;
    var p := off + |head|;
    assert forall i :: 0 <= i < |k| ==> data[p + i] == all[off..][|head| + i] == t[|head| + i] == k[i];
    assert forall i :: 0 <= i < |v| ==>
             data[p + |k| + i] == all[off..][|head| + |k| + i] == t[|head| + |k| + i] == v[i];
  }

  // ----- steps -----

  lemma {:induction false} AtPoised(b: Blk, es: seq<KV>, starts: seq<nat>, s: St, i: nat)
    requires At(b, es, starts, s, i)
    ensures Poised(b, es, starts, s, i + 1) && s.current < b.restarts && s.restartIndex < b.num
  {
    OffOrder(es, starts, i, |es|);
  }

  lemma {:induction false} StartPoised(b: Blk, es: seq<KV>, starts: seq<nat>, s: St, k: nat)
    requires Built(b, es, starts) && k < b.num && s.restartIndex == k && s.vOff == RestartPoint(b, k) && s.vLen == 0
    ensures k < |starts| && Poised(b, es, starts, s, starts[k])
  {
  }

  lemma {:induction false} PoisedParse(b: Blk, es: seq<KV>, starts: seq<nat>, s: St, j: nat)
    requires Poised(b, es, starts, s, j)
    ensures Safe(b) && s.vOff + s.vLen <= b.restarts && (s.vOff + s.vLen < b.restarts <==> j < |es|)
    ensures j < |es| ==> Parses(b, s.vOff + s.vLen, Shared(es, starts, j), es[j], Off(es, starts, j + 1))
    ensures j < |es| ==>
              Shared(es, starts, j) <= |s.key| &&
              s.key[..Shared(es, starts, j)] + es[j].key[Shared(es, starts, j)..] == es[j].key
  {
    hide Data, Off, Parses, PointsAt, EntriesFit, DecodeEntry, Common;
    OffOrder(es, starts, j, |es|);
    OffOrder(es, starts, |es|, j);
    if j < |es| {
      ParseAt(b, es, starts, j);
      SharedKey(es, starts, j, s.key);
    }
  }

  lemma {:induction false} SharedKey(es: seq<KV>, starts: seq<nat>, j: nat, key: Bytes)
    requires j < |es| && (j > 0 && j !in starts ==> key == es[j - 1].key)
    ensures Shared(es, starts, j) <= |key| &&
            key[..Shared(es, starts, j)] + es[j].key[Shared(es, starts, j)..] == es[j].key
  {
    if j == 0 || j in starts {
      assert key[..0] + es[j].key[0..] == es[j].key;
    } else {
      SharedWith(key, es[j].key, Shared(es, starts, j));
    }
  }

  /** The restart point that an entry falls under. */
  predicate Under(starts: seq<nat>, k: nat, i: nat) {
    k < |starts| && starts[k] <= i && (k + 1 < |starts| ==> i <= starts[k + 1])
  }

  lemma {:induction false} ParsedAt(b: Blk, es: seq<KV>, starts: seq<nat>, s: St, j: nat, s': St)
    requires Poised(b, es, starts, s, j) && j < |es| && Under(starts, s'.restartIndex, j)
    requires s'.current == s.vOff + s.vLen && s'.key == es[j].key &&
             s'.vOff + s'.vLen == Off(es, starts, j + 1) <= |b.data|
    requires b.data[s'.vOff..s'.vOff + s'.vLen] == es[j].value
    ensures At(b, es, starts, s', j)
  {
  }

  lemma {:induction false} PointOrder(b: Blk, es: seq<KV>, starts: seq<nat>, k: nat, i: nat)
    requires Built(b, es, starts) && k < b.num && i <= |es|
    ensures k < |starts| && (RestartPoint(b, k) < Off(es, starts, i) <==> starts[k] < i)
  {
    assert starts[k] <= |es|;
    OffOrder(es, starts, starts[k], i);
  }

  // ----- the iterator -----

  class Iter {
    const b: Blk
    const ord: Order
    var current: nat
    var restartIndex: nat
    var key: Bytes
    var vOff: nat
    var vLen: nat
    var corrupt: bool
    /** What the block was built from. */
    ghost const es: seq<KV>
    ghost const starts: seq<nat>

    ghost function State(): (s: St)
      reads this
      ensures s == St(current, restartIndex, key, vOff, vLen)
    {
      St(current, restartIndex, key, vOff, vLen)
    }

    ghost predicate Ok()
      reads this
    {
      Safe(b) && (current < b.restarts ==> restartIndex < b.num)
    }

    constructor (b: Blk, ord: Order, ghost es: seq<KV>, ghost starts: seq<nat>)
      requires Safe(b)
      ensures Ok() && this.b == b && this.ord == ord && this.es == es && this.starts == starts && Gone(b, State()) &&
              !corrupt
    {
      this.b, this.ord, this.es, this.starts := b, ord, es, starts;
      current, restartIndex, key, vOff, vLen, corrupt := b.restarts, b.num, [], 0, 0, false;
    }

    method CorruptionError()
      modifies this
      ensures current == b.restarts && corrupt
    {
      current, restartIndex, corrupt := b.restarts, b.num, true;
      key, vOff, vLen := [], 0, 0;
    }

    method SeekToRestartPoint(index: nat)
      requires Safe(b) && index < b.num
      modifies this`key, this`restartIndex, this`vOff, this`vLen
      ensures restartIndex == index && vOff == RestartPoint(b, index) && vLen == 0
      ensures Built(b, es, starts) ==> index < |starts| && Poised(b, es, starts, State(), starts[index])
    {
      key := [];
      restartIndex := index;
      vOff, vLen := RestartPoint(b, index), 0;
      if Built(b, es, starts) { StartPoised(b, es, starts, State(), index); }
    }

    /** The loop of ParseNextKey that moves the restart index along. */
    method AdvanceRestart(ghost j: nat)
      requires Safe(b) && restartIndex < b.num
      modifies this`restartIndex
      ensures restartIndex < b.num
      ensures old(Built(b, es, starts) && j <= |es| && current == Off(es, starts, j) && restartIndex < |starts| &&
                  starts[restartIndex] <= j) ==>
                Under(starts, restartIndex, j)
    {
      hide *;
      ghost var good := Built(b, es, starts) && j <= |es| && current == Off(es, starts, j) && restartIndex < |starts| &&
                starts[restartIndex] <= j;
      var going := true;
      while going
        invariant restartIndex < b.num && (good ==> restartIndex < |starts| && starts[restartIndex] <= j)
        invariant good && !going ==> Under(starts, restartIndex, j)
        decreases going, b.num - restartIndex
      {
        if good && restartIndex + 1 < b.num { PointOrder(b, es, starts, restartIndex + 1, j); }
        if restartIndex + 1 < b.num && RestartPoint(b, restartIndex + 1) < current {
          restartIndex := restartIndex + 1;
        } else {
          if good { NumIs(b, es, starts); MakeUnder(starts, restartIndex, j); }
          going := false;
        }
      }
    }

    /** ParseNextKey */
    method ParseNextKey(ghost j: nat) returns (ok: bool)
      requires Safe(b) && restartIndex < b.num
      modifies this
      ensures Ok() && (ok <==> current < b.restarts) && (ok ==> old(vOff + vLen) < vOff + vLen <= b.restarts)
      ensures old(Poised(b, es, starts, State(), j)) ==> corrupt == old(corrupt) && Stands(b, es, starts, State(), j)
    {
      hide *;
      ghost var s := State();
      ghost var good := Poised(b, es, starts, s, j);
      if good { PoisedParse(b, es, starts, s, j); PoisedOff(b, es, starts, s, j); }
      SafeIs(b);
      current := vOff + vLen;
      if current >= b.restarts {
        current, restartIndex := b.restarts, b.num;
        StandsNowhere(b, es, starts, State(), j);
        OkHere();
        return false;
      }
      var e := DecodeEntry(b.data[current..b.restarts]);
      TailIs(b.data[current..b.restarts]);
      ghost var shared := if good then Shared(es, starts, j) else 0;
      if good { ParsesIs(b, current, shared, es[j], Off(es, starts, j + 1)); }
      if e.Bad? || |key| < e.value.shared {
        CorruptionError();
        OkHere();
        return false;
      }
      var p := b.restarts - |e.rest|;
      key := key[..e.value.shared] + b.data[p..p + e.value.nonShared];
      vOff, vLen := p + e.value.nonShared, e.value.valueLength;
      AdvanceRestart(j);
      if good { ParsedAt(b, es, starts, s, j, State()); StandsAt(b, es, starts, State(), j); }
      OkHere();
      ok := true;
    }

    lemma {:induction false} OkHere()
      requires Safe(b) && (current < b.restarts ==> restartIndex < b.num)
      ensures Ok()
    {
    }

    lemma {:induction false} OkThere()
      requires Ok()
      ensures Safe(b) && (current < b.restarts ==> restartIndex < b.num)
    {
    }

    method Next(ghost i: nat)
      requires Ok() && current < b.restarts
      modifies this
      ensures Ok()
      ensures old(At(b, es, starts, State(), i)) ==> corrupt == old(corrupt) && Stands(b, es, starts, State(), i + 1)
    {
      hide *;
      OkThere();
      if At(b, es, starts, State(), i) { AtPoised(b, es, starts, State(), i); }
      var ok := ParseNextKey(i + 1);
    }

    /** The loop of Prev that looks for a restart point before the current entry. */
    method BackUp(original: nat, ghost i: nat) returns (found: bool)
      requires Safe(b) && restartIndex < b.num
      modifies this`restartIndex, this`current
      ensures found ==> restartIndex < b.num
      ensures !found ==> current == b.restarts
      ensures Built(b, es, starts) && i < |es| && original == Off(es, starts, i) ==>
                (found <==> i > 0) && (found ==> restartIndex < |starts| && starts[restartIndex] < i)
    {
      hide *;
      ghost var good := Built(b, es, starts) && i < |es| && original == Off(es, starts, i);
      if good { PointOrder(b, es, starts, restartIndex, i); }
      while RestartPoint(b, restartIndex) >= original
        invariant restartIndex < b.num
        invariant good ==>
                    restartIndex < |starts| && (RestartPoint(b, restartIndex) < original <==> starts[restartIndex] < i)
        decreases restartIndex
      {
        if good { FirstPoint(b, es, starts); }
        if restartIndex == 0 {
          current, restartIndex := b.restarts, b.num;
          return false;
        }
        restartIndex := restartIndex - 1;
        if good { PointOrder(b, es, starts, restartIndex, i); }
      }
      found := true;
    }

    method Prev(ghost i: nat)
      requires Ok() && current < b.restarts
      modifies this
      ensures Ok()
      ensures old(At(b, es, starts, State(), i)) ==>
                corrupt == old(corrupt) && Stands(b, es, starts, State(), if i == 0 then |es| else i - 1)
    {
      hide *;
      OkThere();
      var original := current;
      ghost var good := At(b, es, starts, State(), i);
      if good { AtIs(b, es, starts, State(), i); }
      var found := BackUp(original, i);
      if !found {
        StandsNowhere(b, es, starts, State(), |es|);
        OkHere();
        return;
      }
      SeekToRestartPoint(restartIndex);
      ghost var j: nat := if good then starts[restartIndex] else 0;
      var ok := ParseNextKey(j);
      if good { StandsThere(b, es, starts, State(), j); ScanOn(b, es, starts, State(), j, i); }
      while ok && vOff + vLen < original
        invariant Ok() && (ok <==> current < b.restarts)
        invariant good ==> corrupt == old(corrupt) && ok && j < i && At(b, es, starts, State(), j)
        invariant good ==> (vOff + vLen < original <==> j + 1 < i)
        decreases ok, b.restarts - (vOff + vLen)
      {
        OkThere();
        if good { AtPoised(b, es, starts, State(), j); j := j + 1; }
        ok := ParseNextKey(j);
        if good { StandsThere(b, es, starts, State(), j); ScanOn(b, es, starts, State(), j, i); }
      }
      if good { StandsAt(b, es, starts, State(), j); }
    }

    method SeekToFirst()
      requires Ok()
      modifies this
      ensures Ok()
      ensures Built(b, es, starts) ==> corrupt == old(corrupt) && Stands(b, es, starts, State(), 0)
    {
      hide *;
      OkThere();
      SafeIs(b);
      SeekToRestartPoint(0);
      if Built(b, es, starts) { FirstPoint(b, es, starts); }
      var ok := ParseNextKey(0);
    }

    method SeekToLast()
      requires Ok()
      modifies this
      ensures Ok()
      ensures Built(b, es, starts) ==>
                corrupt == old(corrupt) && Stands(b, es, starts, State(), if es == [] then 0 else |es| - 1)
    {
      hide *;
      OkThere();
      SafeIs(b);
      SeekToRestartPoint(b.num - 1);
      ghost var good := Built(b, es, starts);
      ghost var j: nat := if good then starts[b.num - 1] else 0;
      var ok := ParseNextKey(j);
      if good { LastPoint(b, es, starts); LastScan(b, es, starts, State(), j); }
      while ok && vOff + vLen < b.restarts
        invariant Ok() && (ok <==> current < b.restarts)
        invariant good ==>
                    corrupt == old(corrupt) && j <= |es| && (es == [] ==> j == 0) && (es != [] ==> j < |es|) &&
                    Stands(b, es, starts, State(), j)
        invariant good ==> (ok <==> j < |es|) && (ok ==> (vOff + vLen < b.restarts <==> j + 1 < |es|))
        decreases ok, b.restarts - (vOff + vLen)
      {
        OkThere();
        if good { StandsThere(b, es, starts, State(), j); AtPoised(b, es, starts, State(), j); j := j + 1; }
        ok := ParseNextKey(j);
        if good { LastScan(b, es, starts, State(), j); }
      }
    }

    /** The binary search of Seek, over the restart points: the last one whose key is before
        the target, or else the first. */
    method SearchRestarts(target: Bytes) returns (left: nat, ok: bool)
      requires Safe(b)
      ensures left < b.num
      ensures Built(b, es, starts) && Increasing(ord, es) ==> ok && LastRestartBefore(ord, es, starts, target, left)
    {
      hide *;
      SafeIs(b);
      ghost var good := Built(b, es, starts) && Increasing(ord, es);
      left, ok := 0, true;
      var right := b.num - 1;
      if good { FirstPoint(b, es, starts); SearchStart(ord, es, starts, target); }
      while left < right
        invariant 0 <= left <= right < b.num && ok
        invariant good ==> b.num == |starts| && Between(ord, es, starts, target, left, right)
      {
        var mid := (left + right + 1) / 2;
        var off := RestartPoint(b, mid);
        var e := if off <= b.restarts then DecodeEntry(b.data[off..b.restarts]) else Bad;
        if off <= b.restarts { TailIs(b.data[off..b.restarts]); }
        if good { MidKey(b, es, starts, mid); }
        if e.Bad? || e.value.shared != 0 {
          return left, false;
        }
        var p := b.restarts - |e.rest|;
        var midKey := b.data[p..p + e.value.nonShared];
        if good { SearchStep(ord, es, starts, target, left, mid, right); }
        if ord(midKey) < ord(target) {
          left := mid;
        } else {
          right := mid - 1;
        }
      }
      if good { SearchEnd(ord, es, starts, target, left); }
    }

    method Seek(target: Bytes)
      requires Ok()
      modifies this
      ensures Ok()
      ensures Built(b, es, starts) && Increasing(ord, es) ==>
                corrupt == old(corrupt) && Stands(b, es, starts, State(), FirstFrom(ord, es, target))
    {
      hide *;
      OkThere();
      ghost var good := Built(b, es, starts) && Increasing(ord, es);
      var left, found := SearchRestarts(target);
      if !found {
        CorruptionError();
        OkHere();
        return;
      }
      SeekToRestartPoint(left);
      OkHere();
      if good { FirstPoint(b, es, starts); BeforeRestart(ord, es, starts, target, left); }
      ghost var j: nat := if good then starts[left] else 0;
      var ok := true;
      while ok
        invariant Safe(b) && Ok() && (ok ==> restartIndex < b.num)
        invariant good ==> corrupt == old(corrupt)
        invariant good && ok ==> Poised(b, es, starts, State(), j) && AllBefore(ord, es, target, j)
        invariant good && !ok ==> Stands(b, es, starts, State(), FirstFrom(ord, es, target))
        decreases ok, b.restarts - (vOff + vLen)
      {
        ok := ParseNextKey(j);
        OkThere();
        if good { SeekStop(b, ord, es, starts, State(), target, j); }
        if ok && ord(key) >= ord(target) {
          ok := false;
        }
        if good { j := j + 1; }
      }
    }
  }

  lemma {:induction false} FirstPoint(b: Blk, es: seq<KV>, starts: seq<nat>)
    requires Built(b, es, starts)
    ensures |starts| >= 1 && starts[0] == 0 && RestartPoint(b, 0) == 0 && b.num == |starts|
  {
  }

  lemma {:induction false} LastPoint(b: Blk, es: seq<KV>, starts: seq<nat>)
    requires Built(b, es, starts)
    ensures b.num == |starts| && (es == [] ==> starts[b.num - 1] == 0) && (es != [] ==> starts[b.num - 1] < |es|)
  {
    assert |starts| > 1 ==> starts[|starts| - 1] < |es|;
  }

  lemma {:induction false} AtIs(b: Blk, es: seq<KV>, starts: seq<nat>, s: St, i: nat)
    requires At(b, es, starts, s, i)
    ensures Built(b, es, starts) && i < |es| && s.current == Off(es, starts, i)
  {
  }

  lemma {:induction false} StandsThere(b: Blk, es: seq<KV>, starts: seq<nat>, s: St, j: nat)
    requires Stands(b, es, starts, s, j)
    ensures j < |es| ==> At(b, es, starts, s, j)
  {
  }

  /** Whether the scan of Prev has come to the entry before. */
  lemma {:induction false} ScanOn(b: Blk, es: seq<KV>, starts: seq<nat>, s: St, j: nat, i: nat)
    requires j < i < |es| && At(b, es, starts, s, j)
    ensures s.current < b.restarts && (s.vOff + s.vLen < Off(es, starts, i) <==> j + 1 < i)
  {
    OffOrder(es, starts, j + 1, i);
    OffOrder(es, starts, j, |es|);
  }

  lemma {:induction false} LastScan(b: Blk, es: seq<KV>, starts: seq<nat>, s: St, j: nat)
    requires Built(b, es, starts) && Stands(b, es, starts, s, j)
    ensures (s.current < b.restarts <==> j < |es|) && (j < |es| ==> (s.vOff + s.vLen < b.restarts <==> j + 1 < |es|))
  {
    hide Off, Data, PointsAt, Points, EntriesFit;
    if j < |es| {
      OffOrder(es, starts, j, |es|);
      OffOrder(es, starts, j + 1, |es|);
    }
  }

  /** All entries before `n` are smaller than the target. */
  predicate AllBefore(ord: Order, es: seq<KV>, target: Bytes, n: nat) {
    n <= |es| && forall i :: 0 <= i < n ==> ord(es[i].key) < ord(target)
  }

  /** The key at restart point `left` is before the target, if it is not the first point;
      the one behind `right` is not. */
  predicate Between(ord: Order, es: seq<KV>, starts: seq<nat>, target: Bytes, left: nat, right: nat) {
    && left <= right < |starts|
    && (left > 0 ==> starts[left] < |es| && ord(es[starts[left]].key) < ord(target))
    && (right + 1 < |starts| ==> starts[right + 1] < |es| && ord(es[starts[right + 1]].key) >= ord(target))
  }

  predicate LastRestartBefore(ord: Order, es: seq<KV>, starts: seq<nat>, target: Bytes, left: nat) {
    Between(ord, es, starts, target, left, left)
  }

  lemma {:induction false} SearchStart(ord: Order, es: seq<KV>, starts: seq<nat>, target: Bytes)
    requires |starts| >= 1
    ensures Between(ord, es, starts, target, 0, |starts| - 1)
  {
  }

  lemma {:induction false} SearchStep(ord: Order, es: seq<KV>, starts: seq<nat>, target: Bytes, left: nat, mid: nat,
                                      right: nat)
    requires Between(ord, es, starts, target, left, right) && left < mid <= right < |starts| && starts[mid] < |es|
    ensures if ord(es[starts[mid]].key) < ord(target) then Between(ord, es, starts, target, mid, right)
            else Between(ord, es, starts, target, left, mid - 1)
  {
  }

  lemma {:induction false} SearchEnd(ord: Order, es: seq<KV>, starts: seq<nat>, target: Bytes, left: nat)
    requires Between(ord, es, starts, target, left, left)
    ensures LastRestartBefore(ord, es, starts, target, left)
  {
  }

  lemma {:induction false} BeforeRestart(ord: Order, es: seq<KV>, starts: seq<nat>, target: Bytes, left: nat)
    requires LastRestartBefore(ord, es, starts, target, left) && Increasing(ord, es) &&
             (|starts| > 0 ==> starts[0] == 0)
    ensures left < |starts| && AllBefore(ord, es, target, starts[left])
  {
  }

  /** The key at a restart point other than the first is there in full. */
  lemma {:induction false} MidKey(b: Blk, es: seq<KV>, starts: seq<nat>, mid: nat)
    requires Built(b, es, starts) && 0 < mid < b.num
    ensures mid < |starts| && starts[mid] < |es| && RestartPoint(b, mid) <= b.restarts <= |b.data|
    ensures var e := DecodeEntry(b.data[RestartPoint(b, mid)..b.restarts]);
            && e.Good? && e.value.shared == 0 && |e.rest| <= b.restarts &&
               b.restarts - |e.rest| + e.value.nonShared <= |b.data|
            && b.data[b.restarts - |e.rest|..b.restarts - |e.rest| + e.value.nonShared] == es[starts[mid]].key
  {
    var i := starts[mid];
    MidStart(b, es, starts, mid);
    ParseAt(b, es, starts, i);
    hide *;
    ParsesIs(b, Off(es, starts, i), 0, es[i], Off(es, starts, i + 1));
    assert es[i].key[0..] == es[i].key;
  }

  lemma {:induction false} MidStart(b: Blk, es: seq<KV>, starts: seq<nat>, mid: nat)
    requires Built(b, es, starts) && 0 < mid < b.num
    ensures mid < |starts| && starts[mid] < |es| && RestartPoint(b, mid) == Off(es, starts, starts[mid]) &&
            Shared(es, starts, starts[mid]) == 0
  {
    assert starts[mid] in starts;
  }

  /** The first entry at or after the target, or the number of entries. */
  function FirstFrom(ord: Order, es: seq<KV>, target: Bytes): (c: nat)
    ensures c <= |es| && (forall i :: 0 <= i < c ==> ord(es[i].key) < ord(target)) &&
            (c < |es| ==> ord(es[c].key) >= ord(target))
  {
    if es == [] || ord(es[0].key) >= ord(target) then 0 else 1 + FirstFrom(ord, es[1..], target)
  }

  /** Where the scan of Seek stops. */
  lemma {:induction false} SeekStop(b: Blk, ord: Order, es: seq<KV>, starts: seq<nat>, s: St, target: Bytes, j: nat)
    requires Built(b, es, starts) && Stands(b, es, starts, s, j) && AllBefore(ord, es, target, j)
    ensures s.current < b.restarts <==> j < |es|
    ensures j < |es| ==> s.key == es[j].key && s.restartIndex < b.num
    ensures j < |es| && ord(s.key) < ord(target) ==>
              Poised(b, es, starts, s, j + 1) && AllBefore(ord, es, target, j + 1)
    ensures (j < |es| ==> ord(s.key) >= ord(target)) ==> FirstFrom(ord, es, target) == j
  {
    LastScan(b, es, starts, s, j);
    if j < |es| { AtPoised(b, es, starts, s, j); }
    var c := FirstFrom(ord, es, target);
    if c < |es| { assert ord(es[c].key) >= ord(target); }
  }

  lemma {:induction false} MakeUnder(starts: seq<nat>, k: nat, i: nat)
    requires k < |starts| && starts[k] <= i && (k + 1 < |starts| ==> i <= starts[k + 1])
    ensures Under(starts, k, i)
  {
  }

  lemma {:induction false} NumIs(b: Blk, es: seq<KV>, starts: seq<nat>)
    requires Built(b, es, starts)
    ensures b.num == |starts|
  {
  }

  lemma {:induction false} SafeIs(b: Blk)
    requires Safe(b)
    ensures b.num > 0 && b.restarts <= |b.data|
  {
  }

  lemma {:induction false} PoisedOff(b: Blk, es: seq<KV>, starts: seq<nat>, s: St, j: nat)
    requires Poised(b, es, starts, s, j)
    ensures j <= |es| && s.vOff + s.vLen == Off(es, starts, j) && Built(b, es, starts)
    ensures s.restartIndex < |starts| && starts[s.restartIndex] <= j
  {
  }

  lemma {:induction false} TailIs(s: Bytes)
    ensures DecodeEntry(s).Good? ==>
              |DecodeEntry(s).rest| < |s| &&
              DecodeEntry(s).value.nonShared + DecodeEntry(s).value.valueLength <= |DecodeEntry(s).rest|
  {
  }

  lemma {:induction false} ParsesIs(b: Blk, off: nat, shared: nat, kv: KV, off': nat)
    requires Parses(b, off, shared, kv, off')
    ensures off <= off' <= b.restarts <= |b.data| && shared <= |kv.key|
    ensures var e := DecodeEntry(b.data[off..b.restarts]);
            && e.Good? && e.value == Lengths(shared, |kv.key| - shared, |kv.value|) && |e.rest| <= b.restarts
            && var p := b.restarts - |e.rest|;
               p + |kv.key| - shared + |kv.value| == off' && b.data[p..p + |kv.key| - shared] == kv.key[shared..]
               && b.data[p + |kv.key| - shared..off'] == kv.value
  {
    hide DecodeEntry;
  }

  lemma {:induction false} StandsNowhere(b: Blk, es: seq<KV>, starts: seq<nat>, s: St, j: nat)
    ensures j == |es| && s.current >= b.restarts ==> Stands(b, es, starts, s, j)
  {
  }

  lemma {:induction false} StandsAt(b: Blk, es: seq<KV>, starts: seq<nat>, s: St, j: nat)
    requires At(b, es, starts, s, j)
    ensures Stands(b, es, starts, s, j)
  {
  }

  // ----- whole runs -----

  /** Where a seek leads among the entries. */
  ghost function Seeks(ord: Order, es: seq<KV>): Bytes -> nat { k => FirstFrom(ord, es, k) }

  method Apply(it: Iter, op: Op<Bytes>, ghost c: nat)
    requires it.Ok() && Built(it.b, it.es, it.starts) && Increasing(it.ord, it.es) &&
             Stands(it.b, it.es, it.starts, it.State(), c)
    requires op.Forth? || op.Back? ==> c < |it.es|
    modifies it
    ensures it.Ok() && it.corrupt == old(it.corrupt) &&
            Stands(it.b, it.es, it.starts, it.State(), Moved(|it.es|, Seeks(it.ord, it.es), c, op))
  {
    if op.Forth? || op.Back? {
      StandsThere(it.b, it.es, it.starts, it.State(), c);
      AtPoised(it.b, it.es, it.starts, it.State(), c);
    }
    hide Stands, Built, At, Increasing, FirstFrom;
    match op
    case SeekTo(k) => it.Seek(k);
    case ToFirst => it.SeekToFirst();
    case ToLast => it.SeekToLast();
    case Forth => it.Next(c);
    case Back => it.Prev(c);
  }

  /** Build a block from increasing entries, open it, and move about in it as you like:
      the iterator is a cursor over the entries. The block fails only to fit 32 bits. */
  method BuildAndRead(ord: Order, es: seq<KV>, interval: nat, ops: seq<Op<Bytes>>) returns (fits: bool, valid: bool,
                      at: KV)
    requires interval >= 1 && EntriesFit(es) && Increasing(ord, es) && Legal(|es|, Seeks(ord, es), |es|, ops)
    ensures fits <==> Fits(es, RestartPoints(|es|, interval))
    ensures fits ==> var c := MovedAll(|es|, Seeks(ord, es), |es|, ops);
                       (valid <==> c < |es|) && (valid ==> at == es[c])
  {
    hide *;
    fits, valid, at := false, false, KV([], []);
    var block, ok, starts := Build(es, interval);
    if !ok {
      return;
    }
    fits := true;
    OpenRoundTrip(es, starts);
    var b := Open(block).b;
    BuiltIsSafe(b, es, starts);
    var it := new Iter(b, ord, es, starts);
    ghost var c: nat := |es|;
    GoneIs(b, it.State());
    StandsNowhere(b, es, starts, it.State(), c);
    assert ops[0..] == ops;
    for n := 0 to |ops|
      invariant fresh(it) && it.Ok() && it.b == b && it.es == es && it.starts == starts && it.ord == ord
      invariant Stands(b, es, starts, it.State(), c) && Legal(|es|, Seeks(ord, es), c, ops[n..])
      invariant MovedAll(|es|, Seeks(ord, es), c, ops[n..]) == MovedAll(|es|, Seeks(ord, es), |es|, ops)
    {
      StepLegal(ord, es, c, ops, n);
      Apply(it, ops[n], c);
      c := Moved(|es|, Seeks(ord, es), c, ops[n]);
    }
    EndOfRun(ord, es, c, ops);
    Showing(b, es, starts, it.State(), c);
    valid := it.current < b.restarts;
    if valid {
      at := KV(it.key, b.data[it.vOff..it.vOff + it.vLen]);
    }
  }

  lemma {:induction false} BuiltIsSafe(b: Blk, es: seq<KV>, starts: seq<nat>)
    requires Built(b, es, starts)
    ensures Safe(b)
  {
  }

  lemma {:induction false} GoneIs(b: Blk, s: St)
    requires Gone(b, s)
    ensures s.current >= b.restarts
  {
  }

  lemma {:induction false} StepLegal(ord: Order, es: seq<KV>, c: nat, ops: seq<Op<Bytes>>, n: nat)
    requires n < |ops| && Legal(|es|, Seeks(ord, es), c, ops[n..])
    ensures ops[n].Forth? || ops[n].Back? ==> c < |es|
    ensures Legal(|es|, Seeks(ord, es), Moved(|es|, Seeks(ord, es), c, ops[n]), ops[n + 1..])
    ensures MovedAll(|es|, Seeks(ord, es), Moved(|es|, Seeks(ord, es), c, ops[n]), ops[n + 1..]) ==
            MovedAll(|es|, Seeks(ord, es), c, ops[n..])
  {
    assert ops[n..][1..] == ops[n + 1..] && ops[n..][0] == ops[n];
  }

  lemma {:induction false} EndOfRun(ord: Order, es: seq<KV>, c: nat, ops: seq<Op<Bytes>>)
    ensures MovedAll(|es|, Seeks(ord, es), c, ops[|ops|..]) == c
  {
  }

  lemma {:induction false} Showing(b: Blk, es: seq<KV>, starts: seq<nat>, s: St, c: nat)
    requires Built(b, es, starts) && Stands(b, es, starts, s, c)
    ensures (s.current < b.restarts <==> c < |es|)
    ensures c < |es| ==> s.vOff + s.vLen <= |b.data| && KV(s.key, b.data[s.vOff..s.vOff + s.vLen]) == es[c]
  {
    LastScan(b, es, starts, s, c);
  }

  lemma {:induction false} EntryFits(es: seq<KV>, i: nat)
    requires EntriesFit(es) && i < |es|
    ensures |es[i].key| < TWO_32 && |es[i].value| < TWO_32
  {
  }

  lemma {:induction false} BuildingFits(es: seq<KV>, starts: seq<nat>, buffer: Bytes, restarts: seq<nat>,
                                        lastKey: Bytes)
    requires Building(es, starts, buffer, restarts, lastKey)
    ensures Fits(es, starts) <==> |restarts| < TWO_32 && |buffer| < TWO_32
  {
    hide Points, Data;
  }

  /** Builds the block of a list of entries, if its offsets fit 32 bits. */
  method Build(es: seq<KV>, interval: nat) returns (block: Bytes, ok: bool, ghost starts: seq<nat>)
    requires interval >= 1 && EntriesFit(es)
    ensures starts == RestartPoints(|es|, interval) && (ok <==> Fits(es, starts))
    ensures ok ==> block == BlockBytes(es, starts)
  {
    hide *;
    var builder := new BlockBuilder(interval);
    for i := 0 to |es|
      invariant fresh(builder) && builder.Ok() && builder.es == es[..i] && builder.interval == interval
    {
      EntryFits(es, i);
      builder.Add(es[i].key, es[i].value);
    }
    assert es[..|es|] == es;
    starts := builder.starts;
    builder.OkUnfold();
    BuildingData(es, starts, builder.buffer, builder.restarts, builder.lastKey);
    BuildingFits(es, starts, builder.buffer, builder.restarts, builder.lastKey);
    ok := |builder.restarts| < TWO_32 && |builder.buffer| < TWO_32;
    block := [];
    if ok {
      block := builder.Finish();
    }
  }
}

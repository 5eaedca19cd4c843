/** Blocks of a table (table/block_builder.cc, table/block.cc): keys compressed against
    the key before them, with restart points where they are not, and an iterator that
    finds its way both ways. */
module Blocks {
  import opened Arithmetic
  import opened Keys
  import opened Coding

  datatype KV = KV(key: Bytes, value: Bytes)

  /** The order of the keys, by rank. */
  type Order = Bytes -> real

  predicate Increasing(ord: Order, es: seq<KV>) {
    forall i, j :: 0 <= i < j < |es| ==> ord(es[i].key) < ord(es[j].key)
  }

  // ----- the layout of a block -----

  /** How many bytes two keys share at the front. */
  function Common(a: Bytes, b: Bytes): (n: nat)
    ensures n <= |a| && n <= |b| && a[..n] == b[..n]
    ensures n < |a| && n < |b| ==> a[n] != b[n]
  {
    if a == [] || b == [] || a[0] != b[0] then 0
    else
      var m := Common(a[1..], b[1..]);
      assert a[..m + 1] == [a[0]] + a[1..][..m] && b[..m + 1] == [b[0]] + b[1..][..m];
      m + 1
  }

  function EntryBytes(shared: nat, key: Bytes, value: Bytes): Bytes
    requires shared <= |key|
  {
    Varint(shared) + Varint(|key| - shared) + Varint(|value|) + key[shared..] + value
  }

  lemma {:induction false} EntryBytesSize(shared: nat, key: Bytes, value: Bytes)
    requires shared <= |key| < TWO_32 && |value| < TWO_32
    ensures |EntryBytes(shared, key, value)| <= |key| + |value| + 15
  {
    hide Varint;
    Varint32Size(shared);
    Varint32Size(|key| - shared);
    Varint32Size(|value|);
  }

  /** How much of key `i` is left out: nothing at a restart point. */
  function Shared(es: seq<KV>, starts: seq<nat>, i: nat): (n: nat)
    requires i < |es|
    ensures n <= |es[i].key|
  {
    if i == 0 || i in starts then 0 else Common(es[i - 1].key, es[i].key)
  }

  function Entry(es: seq<KV>, starts: seq<nat>, i: nat): (b: Bytes)
    requires i < |es|
    ensures |b| >= 3
  {
    EntryBytes(Shared(es, starts, i), es[i].key, es[i].value)
  }

  /** The bytes of the first `n` entries, and where entry `n` starts. */
  function Data(es: seq<KV>, starts: seq<nat>, n: nat): Bytes
    requires n <= |es|
  {
    if n == 0 then [] else Data(es, starts, n - 1) + Entry(es, starts, n - 1)
  }

  function Off(es: seq<KV>, starts: seq<nat>, n: nat): nat
    requires n <= |es|
  {
    |Data(es, starts, n)|
  }

  /** Restart points are entries, in order, from the first on. */
  predicate Points(starts: seq<nat>, n: nat) {
    && |starts| >= 1 && starts[0] == 0
    && (forall k :: 0 < k < |starts| ==> starts[k] < n)
    && (forall j, k :: 0 <= j < k < |starts| ==> starts[j] < starts[k])
  }

  lemma {:induction false} OffMono(es: seq<KV>, starts: seq<nat>, i: nat, j: nat)
    requires i <= j <= |es|
    ensures Off(es, starts, i) + (j - i) <= Off(es, starts, j)
    ensures Data(es, starts, i) == Data(es, starts, j)[..Off(es, starts, i)]
  {
    if i < j {
      OffMono(es, starts, i, j - 1);
      var d, e := Data(es, starts, j - 1), Entry(es, starts, j - 1);
      assert Data(es, starts, j) == d + e;
      hide *;
      assert (d + e)[..|Data(es, starts, i)|] == d[..|Data(es, starts, i)|];
    } else {
      assert Data(es, starts, i) == Data(es, starts, i)[..|Data(es, starts, i)|];
    }
  }

  lemma {:induction false} OffOrder(es: seq<KV>, starts: seq<nat>, i: nat, j: nat)
    requires i <= |es| && j <= |es|
    ensures Off(es, starts, i) < Off(es, starts, j) <==> i < j
  {
    if i <= j { OffMono(es, starts, i, j); } else { OffMono(es, starts, j, i); }
  }

  /** Entry `i` is where it should be in the data. */
  lemma {:induction false} EntryAt(es: seq<KV>, starts: seq<nat>, i: nat)
    requires i < |es|
    ensures Off(es, starts, i) <= Off(es, starts, i + 1) <= Off(es, starts, |es|)
    ensures Data(es, starts, |es|)[Off(es, starts, i)..] == Entry(es, starts, i) +
            Data(es, starts, |es|)[Off(es, starts, i + 1)..]
    ensures Off(es, starts, i + 1) == Off(es, starts, i) + |Entry(es, starts, i)|
  {
    OffMono(es, starts, i + 1, |es|);
    var all, a, e := Data(es, starts, |es|), Data(es, starts, i), Entry(es, starts, i);
    assert Data(es, starts, i + 1) == a + e;
    Suffix(all, a, e);
  }

  lemma {:induction false} Suffix(all: Bytes, a: Bytes, e: Bytes)
    requires |a + e| <= |all| && all[..|a + e|] == a + e
    ensures all[|a|..] == e + all[|a| + |e|..]
  {
    assert all == all[..|a + e|] + all[|a + e|..];
  }

  // ----- decoding an entry -----

  datatype Lengths = Lengths(shared: nat, nonShared: nat, valueLength: nat)

  predicate IsTail(rest: Bytes, s: Bytes) {
    |rest| < |s| && rest == s[|s| - |rest|..]
  }

  /** Three varints, one after the other. */
  function ThreeVarints(s: Bytes): Parsed<Lengths> {
    var a := GetVarint32(s);
    if a.Bad? then Bad
    else
      var b := GetVarint32(a.rest);
      if b.Bad? then Bad
      else
        var c := GetVarint32(b.rest);
        if c.Bad? then Bad else Good(Lengths(a.value, b.value, c.value), c.rest)
  }

  lemma {:induction false} TailTrans(a: Bytes, b: Bytes, c: Bytes)
    requires IsTail(a, b) && IsTail(b, c)
    ensures IsTail(a, c)
  {
  }

  lemma {:induction false} ThreeVarintsTail(s: Bytes)
    ensures ThreeVarints(s).Good? ==> IsTail(ThreeVarints(s).rest, s)
  {
    if ThreeVarints(s).Good? {
      var a := GetVarint32(s);
      var b := GetVarint32(a.rest);
      var c := GetVarint32(b.rest);
      assert IsTail(a.rest, s) && IsTail(b.rest, a.rest) && IsTail(c.rest, b.rest);
      hide GetVarint32, IsTail;
      TailTrans(b.rest, a.rest, s);
      TailTrans(c.rest, b.rest, s);
    }
  }

  /** The three lengths, by the quick way if each takes one byte, and what follows them. */
  function DecodeLengths(s: Bytes): (r: Parsed<Lengths>)
    ensures r.Good? ==> IsTail(r.rest, s)
  {
    ThreeVarintsTail(s);
    if |s| < 3 then Bad
    else if s[0] < 128 && s[1] < 128 && s[2] < 128 then Good(Lengths(s[0], s[1], s[2]), s[3..])
    else ThreeVarints(s)
  }

  /** DecodeEntry, from the start of `s` to its end. */
  function DecodeEntry(s: Bytes): (r: Parsed<Lengths>)
    ensures r.Good? ==> IsTail(r.rest, s) && r.value.nonShared + r.value.valueLength <= |r.rest|
  {
    var r := DecodeLengths(s);
    if r.Bad? || |r.rest| < r.value.nonShared + r.value.valueLength then Bad else r
  }

  lemma {:induction false} VarintHead(v: nat)
    ensures |Varint(v)| >= 1 && (Varint(v)[0] < 128 <==> v < 128)
    ensures v < 128 ==> Varint(v) == [v]
  {
  }

  lemma {:induction false} SlowRoundTrip(a: U32, b: U32, c: U32, rest: Bytes)
    ensures ThreeVarints(Varint(a) + (Varint(b) + (Varint(c) + rest))) == Good(Lengths(a, b, c), rest)
  {
    Varint32RoundTrip(a, Varint(b) + (Varint(c) + rest));
    Varint32RoundTrip(b, Varint(c) + rest);
    Varint32RoundTrip(c, rest);
    hide Varint, GetVarint32;
  }

  /** The first three bytes tell whether the quick way may be taken. */
  lemma {:induction false} QuickBytes(x: Bytes, y: Bytes, z: Bytes, rest: Bytes)
    requires |x| >= 1 && |y| >= 1 && |z| >= 1
    ensures var s := x + (y + (z + rest));
            && |s| >= 3 && s[0] == x[0] && (|x| == 1 ==> s[1] == y[0]) && (|x| == 1 && |y| == 1 ==> s[2] == z[0])
            && (|x| == 1 && |y| == 1 && |z| == 1 ==> s[3..] == rest)
  {
  }

  /** Both ways of decoding read back what was encoded. */
  lemma {:induction false} LengthsRoundTrip(a: U32, b: U32, c: U32, rest: Bytes)
    ensures DecodeLengths(Varint(a) + (Varint(b) + (Varint(c) + rest))) == Good(Lengths(a, b, c), rest)
  {
    VarintHead(a);
    VarintHead(b);
    VarintHead(c);
    SlowRoundTrip(a, b, c, rest);
    QuickBytes(Varint(a), Varint(b), Varint(c), rest);
    hide Varint, ThreeVarints;
  }

  lemma {:induction false} Regroup(a: Bytes, b: Bytes, c: Bytes, d: Bytes, e: Bytes, f: Bytes)
    ensures a + b + c + d + e + f == a + (b + (c + (d + e + f)))
  {
  }

  lemma {:induction false} EntryRoundTrip(shared: nat, key: Bytes, value: Bytes, rest: Bytes)
    requires shared <= |key| < TWO_32 && |value| < TWO_32
    ensures DecodeEntry(EntryBytes(shared, key, value) + rest) ==
            Good(Lengths(shared, |key| - shared, |value|), key[shared..] + value + rest)
  {
    LengthsRoundTrip(shared, |key| - shared, |value|, key[shared..] + value + rest);
    Regroup(Varint(shared), Varint(|key| - shared), Varint(|value|), key[shared..], value, rest);
    hide DecodeLengths, Varint;
  }

  // ----- building a block -----

  function RestartOffs(es: seq<KV>, starts: seq<nat>): (v: seq<nat>)
    requires forall k :: 0 <= k < |starts| ==> starts[k] <= |es|
    ensures |v| == |starts|
  {
    seq(|starts|, k requires 0 <= k < |starts| => Off(es, starts, starts[k]))
  }

  /** The points lie within the entries and their offsets fit 32 bits. */
  predicate Fits(es: seq<KV>, starts: seq<nat>) {
    && Points(starts, |es|) && |starts| < TWO_32 && Off(es, starts, |es|) < TWO_32
  }

  lemma {:induction false} OffsFit(es: seq<KV>, starts: seq<nat>)
    requires Fits(es, starts)
    ensures forall k :: 0 <= k < |starts| ==> starts[k] <= |es|
    ensures forall k :: 0 <= k < |starts| ==> RestartOffs(es, starts)[k] < TWO_32
  {
    forall k | 0 <= k < |starts|
      ensures starts[k] <= |es| && Off(es, starts, starts[k]) < TWO_32
    {
      OffMono(es, starts, starts[k], |es|);
    }
  }

  function BlockBytes(es: seq<KV>, starts: seq<nat>): Bytes
    requires Fits(es, starts)
  {
    OffsFit(es, starts);
    Data(es, starts, |es|) + FixedAll(RestartOffs(es, starts)) + EncodeFixed32(|starts|)
  }

  /** What has been laid out stays as it is when an entry is added. */
  lemma {:induction false} DataStable(es: seq<KV>, starts: seq<nat>, es': seq<KV>, starts': seq<nat>, n: nat)
    requires n <= |es| <= |es'| && es'[..|es|] == es && forall i :: 0 <= i < |es| ==> (i in starts' <==> i in starts)
    ensures Data(es', starts', n) == Data(es, starts, n)
  {
    if n > 0 {
      DataStable(es, starts, es', starts', n - 1);
      assert es'[n - 1] == es'[..|es|][n - 1] && (n > 1 ==> es'[n - 2] == es'[..|es|][n - 2]);
    }
  }

  lemma {:induction false} CommonIs(a: Bytes, b: Bytes, n: nat)
    requires n <= |a| && n <= |b| && (forall i :: 0 <= i < n ==> a[i] == b[i]) && (n < |a| && n < |b| ==> a[n] != b[n])
    ensures Common(a, b) == n
  {
    var m := Common(a, b);
    assert m > 0 ==> a[..m][m - 1] == b[..m][m - 1];
    assert forall i :: 0 <= i < m ==> a[i] == a[..m][i] == b[..m][i] == b[i];
  }

  /** Every `interval`-th entry is a restart point, from the first on. */
  function RestartPoints(n: nat, interval: nat): seq<nat>
    requires interval >= 1
  {
    seq(PointCount(n, interval), k => k * interval)
  }

  function PointCount(n: nat, interval: nat): nat
    requires interval >= 1
  {
    if n == 0 then 1 else (n - 1) / interval + 1
  }

  lemma {:induction false} CountIs(m: nat, interval: nat, counter: nat)
    requires interval >= 1 && counter <= interval && (m > 0 ==> counter >= 1)
    ensures m * interval + counter >= 0 && PointCount(m * interval + counter, interval) == m + 1
  {
    var n := m * interval + counter;
    if counter > 0 { DivMod(n - 1, interval, m, counter - 1); }
  }

  lemma {:induction false} LastRestart(n: nat, interval: nat)
    requires interval >= 1
    ensures var v := RestartPoints(n, interval);
            |v| == PointCount(n, interval) >= 1 && v[|v| - 1] == (|v| - 1) * interval
  {
    assert PointCount(n, interval) >= 1 by { if n > 0 { Quotient(n - 1, interval); } }
  }

  lemma {:induction false} Quotient(n: nat, m: nat)
    requires m > 0
    ensures n / m >= 0
  {
  }

  /** One more entry adds a restart point when the last one is `interval` entries back. */
  lemma {:induction false} NextPoint(n: nat, interval: nat, counter: nat)
    requires interval >= 1 && counter <= interval && (n > 0 ==> counter >= 1)
    requires var v := RestartPoints(n, interval); |v| >= 1 && v[|v| - 1] + counter == n
    ensures RestartPoints(n + 1, interval) ==
            if counter < interval then RestartPoints(n, interval) else RestartPoints(n, interval) + [n]
  {
    LastRestart(n, interval);
    var m: nat := PointCount(n, interval) - 1;
    if counter < interval {
      CountIs(m, interval, counter + 1);
    } else {
      Times(m + 1, interval);
      assert (m + 1) * interval == m * interval + interval;
      CountIs(m + 1, interval, 1);
      assert RestartPoints(n + 1, interval) == RestartPoints(n, interval) + [n];
    }
  }

  class BlockBuilder {
    const interval: nat
    var buffer: Bytes
    var restarts: seq<nat>
    var counter: nat
    var lastKey: Bytes
    /** The entries added, and which of them are restart points. */
    ghost var es: seq<KV>
    ghost var starts: seq<nat>

    ghost predicate Ok()
      reads this
    {
      && interval >= 1 && Building(es, starts, buffer, restarts, lastKey)
      && counter <= interval && (es != [] ==> counter >= 1) && starts[|starts| - 1] + counter == |es|
      && starts == RestartPoints(|es|, interval)
    }

    constructor (interval: nat)
      requires interval >= 1
      ensures Ok() && es == [] && this.interval == interval && buffer == []
    {
      this.interval := interval;
      buffer, restarts, counter, lastKey := [], [0], 0, [];
      es, starts := [], [0];
      new;
      assert RestartPoints(0, interval) == [0];
    }

    method Add(key: Bytes, value: Bytes)
      requires Ok() && |key| < TWO_32 && |value| < TWO_32
      modifies this
      ensures Ok() && es == old(es) + [KV(key, value)] && |buffer| <= old(|buffer|) + |key| + |value| + 15
    {
      hide *;
      OkUnfold();
      BuildingParts(es, starts, buffer, restarts, lastKey);
      NextPoint(|es|, interval, counter);
      ghost var restart := counter >= interval;
      var shared := 0;
      if counter < interval {
        shared := CountShared(lastKey, key);
      } else {
        restarts := restarts + [|buffer|];
        counter := 0;
      }
      ghost var starts' := if restart then starts + [|es|] else starts;
      EntryAdded(es, starts, buffer, old(restarts), lastKey, KV(key, value), restart, shared);
      Emit(shared, key, value);
      EntryBytesSize(shared, key, value);
      lastKey := lastKey[..shared] + key[shared..];
      counter := counter + 1;
      es, starts := es + [KV(key, value)], starts';
      OkFold();
    }

    lemma {:induction false} OkUnfold()
      requires Ok()
      ensures interval >= 1 && Building(es, starts, buffer, restarts, lastKey)
      ensures counter <= interval && (es != [] ==> counter >= 1) && |starts| >= 1 &&
              starts[|starts| - 1] + counter == |es|
      ensures starts == RestartPoints(|es|, interval)
    {
    }

    lemma {:induction false} OkFold()
      requires interval >= 1 && Building(es, starts, buffer, restarts, lastKey)
      requires counter <= interval && (es != [] ==> counter >= 1) && |starts| >= 1 &&
               starts[|starts| - 1] + counter == |es|
      requires starts == RestartPoints(|es|, interval)
      ensures Ok()
    {
    }

    /** The part of Add that appends to the buffer. */
    method Emit(shared: nat, key: Bytes, value: Bytes)
      requires shared <= |key| < TWO_32 && |value| < TWO_32
      modifies this`buffer
      ensures buffer == old(buffer) + EntryBytes(shared, key, value)
    {
      var nonShared := |key| - shared;
      var a := EncodeVarint32(shared);
      var b := EncodeVarint32(nonShared);
      var c := EncodeVarint32(|value|);
      Appended(buffer, a, b, c, key[shared..], value);
      hide Varint;
      buffer := buffer + a + b + c;
      buffer := buffer + key[shared..];
      buffer := buffer + value;
    }

    /** The part of Finish that appends the restart points. */
    method PutRestarts()
      requires forall k :: 0 <= k < |restarts| ==> restarts[k] < TWO_32
      modifies this`buffer
      ensures buffer == old(buffer) + FixedAll(restarts)
    {
      ghost var data := buffer;
      for i := 0 to |restarts|
        invariant buffer == data + FixedAll(restarts[..i])
      {
        assert restarts[..i + 1][..i] == restarts[..i];
        buffer := buffer + EncodeFixed32(restarts[i]);
      }
      assert restarts[..|restarts|] == restarts;
    }

    method Finish() returns (block: Bytes)
      requires Ok() && Fits(es, starts)
      modifies this`buffer
      ensures block == BlockBytes(es, starts)
    {
      OffsFit(es, starts);
      assert restarts == RestartOffs(es, starts);
      hide *;
      PutRestarts();
      BlockBytesIs(es, starts);
      BuildingData(es, starts, old(buffer), restarts, lastKey);
      buffer := buffer + EncodeFixed32(|restarts|);
      block := buffer;
    }
  }

  lemma {:induction false} BlockBytesIs(es: seq<KV>, starts: seq<nat>)
    requires Fits(es, starts)
    ensures (forall k :: 0 <= k < |starts| ==> starts[k] <= |es|) &&
            forall k :: 0 <= k < |starts| ==> RestartOffs(es, starts)[k] < TWO_32
    ensures |starts| < TWO_32
    ensures BlockBytes(es, starts) == Data(es, starts, |es|) + FixedAll(RestartOffs(es, starts)) +
            EncodeFixed32(|starts|)
  {
    OffsFit(es, starts);
  }

  lemma {:induction false} BuildingData(es: seq<KV>, starts: seq<nat>, buffer: Bytes, restarts: seq<nat>,
                                        lastKey: Bytes)
    requires Building(es, starts, buffer, restarts, lastKey)
    ensures buffer == Data(es, starts, |es|) && |restarts| == |starts|
  {
  }

  lemma {:induction false} BuildingParts(es: seq<KV>, starts: seq<nat>, buffer: Bytes, restarts: seq<nat>,
                                         lastKey: Bytes)
    requires Building(es, starts, buffer, restarts, lastKey)
    ensures |starts| >= 1 && (es == [] ==> starts == [0] && lastKey == []) && starts[|starts| - 1] <= |es|
    ensures es != [] ==> |es| !in starts
    ensures lastKey == (if es == [] then [] else es[|es| - 1].key) && Points(starts, |es|) &&
            RestartsAt(es, starts, restarts)
    ensures buffer == Data(es, starts, |es|)
  {
    if |starts| > 1 { assert starts[1] < |es|; }
  }

  lemma {:induction false} MakeBuilding(es: seq<KV>, starts: seq<nat>, buffer: Bytes, restarts: seq<nat>,
                                        lastKey: Bytes)
    requires Points(starts, |es|) && RestartsAt(es, starts, restarts) && buffer == Data(es, starts, |es|)
    requires es != [] && lastKey == es[|es| - 1].key
    ensures Building(es, starts, buffer, restarts, lastKey)
  {
  }

  lemma {:induction false} SharedWith(a: Bytes, b: Bytes, shared: nat)
    requires shared == 0 || shared == Common(a, b)
    ensures shared <= |a| && shared <= |b| && a[..shared] + b[shared..] == b
    ensures a == [] ==> shared == 0
  {
  }

  ghost predicate RestartsAt(es: seq<KV>, starts: seq<nat>, restarts: seq<nat>) {
    |restarts| == |starts| && forall k :: 0 <= k < |starts| ==>
      starts[k] <= |es| && restarts[k] == Off(es, starts, starts[k])
  }

  ghost predicate Building(es: seq<KV>, starts: seq<nat>, buffer: Bytes, restarts: seq<nat>, lastKey: Bytes) {
    && Points(starts, |es|) && buffer == Data(es, starts, |es|)
    && RestartsAt(es, starts, restarts)
    && lastKey == if es == [] then [] else es[|es| - 1].key
  }

  /** The loop that counts the bytes a key shares with the last one. */
  method CountShared(a: Bytes, b: Bytes) returns (shared: nat)
    ensures shared == Common(a, b)
  {
    var minLength := if |a| < |b| then |a| else |b|;
    shared := 0;
    while shared < minLength && a[shared] == b[shared]
      invariant shared <= minLength && forall i :: 0 <= i < shared ==> a[i] == b[i]
    {
      shared := shared + 1;
    }
    CommonIs(a, b, shared);
  }

  lemma {:induction false} Appended(buffer: Bytes, a: Bytes, b: Bytes, c: Bytes, d: Bytes, e: Bytes)
    ensures buffer + a + b + c + d + e == buffer + (a + b + c + d + e)
  {
  }

  lemma {:induction false} EntryAdded(es: seq<KV>, starts: seq<nat>, buffer: Bytes, restarts: seq<nat>, lastKey: Bytes,
                                      kv: KV, restart: bool, shared: nat)
    requires Building(es, starts, buffer, restarts, lastKey)
    requires if restart then es != [] && shared == 0 else shared == Common(lastKey, kv.key)
    ensures shared <= |kv.key| && shared <= |lastKey| && lastKey[..shared] + kv.key[shared..] == kv.key
    ensures Building(es + [kv], if restart then starts + [|es|]
                     else starts, buffer + EntryBytes(shared, kv.key, kv.value),
                     if restart then restarts + [|buffer|] else restarts, kv.key)
  {
    hide *;
    BuildingParts(es, starts, buffer, restarts, lastKey);
    SharedWith(lastKey, kv.key, shared);
    DataGrows(es, starts, kv, restart, shared);
    PointsGrow(starts, |es|, restart);
    RestartsGrow(es, starts, restarts, kv, restart);
    OffIs(es, starts);
    MakeBuilding(es + [kv], if restart then starts + [|es|] else starts, buffer + EntryBytes(shared, kv.key, kv.value),
                 if restart then restarts + [|buffer|] else restarts, kv.key);
  }

  lemma {:induction false} OffIs(es: seq<KV>, starts: seq<nat>)
    ensures Off(es, starts, |es|) == |Data(es, starts, |es|)|
  {
  }

  lemma {:induction false} DataGrows(es: seq<KV>, starts: seq<nat>, kv: KV, restart: bool, shared: nat)
    requires if restart then es != [] && shared == 0 && |es| !in starts
             else shared == (if es == [] then 0 else Common(es[|es| - 1].key, kv.key)) && (es == [] || |es| !in starts)
    ensures shared <= |kv.key|
    ensures Data(es + [kv], if restart then starts + [|es|] else starts, |es| + 1) == Data(es, starts, |es|) +
            EntryBytes(shared, kv.key, kv.value)
  {
    var es', starts' := es + [kv], if restart then starts + [|es|] else starts;
    DataStable(es, starts, es', starts', |es|);
    assert Shared(es', starts', |es|) == shared;
    assert Entry(es', starts', |es|) == EntryBytes(shared, kv.key, kv.value);
    assert Data(es', starts', |es| + 1) == Data(es', starts', |es|) + Entry(es', starts', |es|);
    hide *;
  }

  lemma {:induction false} PointsGrow(starts: seq<nat>, n: nat, restart: bool)
    requires Points(starts, n) && (restart ==> n > 0 && n !in starts)
    ensures Points(if restart then starts + [n] else starts, n + 1)
  {
    forall k | 0 <= k < |starts| ensures starts[k] <= n {}
  }

  lemma {:induction false} RestartsGrow(es: seq<KV>, starts: seq<nat>, restarts: seq<nat>, kv: KV, restart: bool)
    requires RestartsAt(es, starts, restarts) && (restart ==> |es| !in starts)
    ensures RestartsAt(es + [kv], if restart then starts + [|es|] else starts,
                       if restart then restarts + [Off(es, starts, |es|)] else restarts)
  {
    var es', starts' := es + [kv], if restart then starts + [|es|] else starts;
    forall k | 0 <= k < |starts'|
      ensures starts'[k] <= |es| && Data(es', starts', starts'[k]) == Data(es, starts, starts'[k])
    {
      if k < |starts| { assert starts'[k] == starts[k]; }
      DataStable(es, starts, es', starts', starts'[k]);
    }
  }
}
